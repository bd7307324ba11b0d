# ircd-rs core, modelled in Dafny

ircd-rs is an IRC daemon written as a set of actors, one thread each:

- a user worker per client connection;
- a channel worker per channel;
- a server worker per server link, which owns a virtual user (a proxy) for
  every remote user the peer announces;
- a writer per socket, which renders replies to lines.

Actors talk only by messages. Shared, reference-counted handles
(`ChannelEntry`, `DirectoryEntry`) send a last message when their final
holder drops them.

This project models each handler as a pure step. A step takes the actor's
state, one message and the answers of any directory queries. It returns the
new state, the messages sent in order (an outbox of `Envelope`s), and
whether the actor's loop ends.

The modules follow the source's components:

| module | models |
|---|---|
| `Base` | `Option`/`Result`, `join`, decimal `Display` and `parse::<u32>` |
| `LineFsm` | the line parser `LineFSM` (`components/net/linefsm.rs`) |
| `Wire` | `ProtoOption::raw`, `SRPL::raw`, `RPL::raw` and `WriterData` |
| `Masks` | `Mask::for_privmsg`, `Mask::full` |
| `Messages` | the message enums, the `User` notification methods, `Writer::write`/`swrite`, the outbox |
| `Rc` | reference-counted shared cells (`Arc`, `Arc<RwLock<_>>`) |
| `Handles` | `ChannelEntry`, `Channel::join`/`part`, `DirectoryEntry`, `Directory::new_user`/`destroy_user` |
| `ChannelActor` | `ChannelWorker::handle_msg`, `introduce`, `adios`, `welcome` |
| `Membership` | the stored-channel list that user workers and proxies keep |
| `Registration` | `UserData::apply`/`is_ready`/`gen_mask`, upper-casing, `set_mode`/`remove_mode` |
| `Session` | `UserWorker::handle_command`, `handle_user_msg`, `welcome`, `get_communicable`, teardown |
| `RemoteUser` | `VirtualUser` and `VirtualUserWorker` |
| `Link` | `ServerWorker`: `introduce`, `sync`, `handle_command`, `parse_nick` |

Inputs the model takes instead of computing them:

- The directory actor's handler only logs, so every directory answer is an
  input (an oracle). This covers the id a new user gets, the result of a
  nick claim (including `NickCollision`), the channel and user lookups, and
  the lists a burst reads. Requests that change the directory are recorded
  in the outbox: `NewUser`, `UpdateNick` and `DestroyUser`. Read-only
  lookups are not recorded.
- A channel's join reply (the slot id) is an input on the user side. The
  channel actor computes it on its own side.
- Handles live in explicit heaps (`Rc.Heap`) with holder counts. Dropping
  the last holder emits the handle's message.
- Rust drops a struct's fields in declaration order. So a user worker's
  teardown sends `DestroyUser` first and then one `Part` per joined channel,
  in list order.

`Mask::new` is the `Masks.Mask` constructor: it stores its seven fields as
given.

## Model

| member | source | states |
|---|---|---|
| Base.JoinWithCons | components/server/server_thread.rs:194 | joining a list with at least two pieces puts the separator between the head and the rest |
| Base.JoinWithAppend | components/user/user_thread.rs:237 | join distributes over concatenating two non-empty lists, with one separator at the seam |
| Base.JoinWithLength | components/server/server_thread.rs:205 | a join of `n` pieces is as long as the pieces plus `n - 1` separators |
| Base.NatToString | components/net_traits/writer_thread.rs:115-119 | the decimal rendering of a `u32` is non-empty, all digits, has no leading zero, and denotes the number |
| Base.ParseRendered | components/server/server_thread.rs:206 | `parse::<u32>` of a rendered hop count gives the count back |
| LineFsm.Words | components/net/linefsm.rs:39-47 | `split_whitespace` yields only non-empty tokens without whitespace |
| LineFsm.TrimEnd | components/net/linefsm.rs:25 | `trim_right` keeps a prefix, drops only whitespace, and leaves no whitespace at the end |
| LineFsm.Step | components/net/linefsm.rs:22-79 | every transition of the parser's state machine strictly lowers the state's rank, so the loop ends |
| LineFsm.TrimEndKeepsFirst | components/net/linefsm.rs:25-33 | trimming a line that does not start with `:` never makes it start with `:`, so the prefix branch stays unreachable |
| LineFsm.FirstColon | components/net/linefsm.rs:57-62 | the index of the first `:`-token: every earlier token lacks a colon |
| LineFsm.StripAll | components/net/linefsm.rs:58-61 | every token has exactly one leading colon removed, if it has one |
| LineFsm.SplitParamsAfterColon | components/net/linefsm.rs:57-68 | once `which` is false, every later token goes to `trailing`, colon stripped |
| LineFsm.SplitParamsSpec | components/net/linefsm.rs:54-70 | the `ParseParams` loop puts the tokens before the first `:`-token in `params` and the stripped rest in `trailing` |
| LineFsm.HandleLine | components/net/linefsm.rs:13-15 | `handle_line` equals the token-level reference meaning of the line |
| LineFsm.RunMeaning | components/net/linefsm.rs:17-81 | running the state machine from `Ready` gives the reference meaning of the line's tokens |
| LineFsm.WordsSplit | components/net/linefsm.rs:39 | a whitespace character separates tokens: the tokens of `a c b` are the tokens of `a` then of `b` |
| LineFsm.WordsAllSpace | components/net/linefsm.rs:39-43 | a whitespace-only string has no tokens |
| LineFsm.WordsAppendSpace | components/net/linefsm.rs:25 | appending whitespace adds no token |
| LineFsm.TrimEndWords | components/net/linefsm.rs:25 | trimming does not change the tokens |
| LineFsm.WordsOfWord | components/net/linefsm.rs:39 | a single token splits to itself |
| LineFsm.WordsEmptyIff | components/net/linefsm.rs:39-43 | a string has no token exactly when it is all whitespace |
| LineFsm.WordsJoin | components/net/linefsm.rs:39-47 | tokens joined by single spaces split back into the same tokens |
| LineFsm.WordsJoinAll | components/net/linefsm.rs:39-47 | pieces joined by single spaces split into the concatenated tokens of the pieces |
| LineFsm.WordsOfAllAppend | components/net/linefsm.rs:39-47 | the tokens of two lists of pieces are the tokens of each, in order |
| LineFsm.WordsOfAllWords | components/net/linefsm.rs:39-47 | a list of tokens yields itself |
| LineFsm.WordsOfAllPlain | components/net/linefsm.rs:57-62 | pieces that are empty or plain tokens contribute no `:`-token |
| LineFsm.BlankLineRejected | components/net/linefsm.rs:39-43 | a line is rejected with `MalformedString` exactly when it is blank |
| LineFsm.StripAllAppend | components/net/linefsm.rs:58-61 | colon stripping works token by token |
| LineFsm.StripAllNoColon | components/net/linefsm.rs:58-61 | tokens without a leading colon are kept as they are |
| LineFsm.TokensAccountedFor | components/net/linefsm.rs:39-47 | the command is the first token verbatim, and params plus trailing have as many entries as the remaining tokens |
| LineFsm.FromTokensCovers | components/net/linefsm.rs:44-68 | params followed by trailing hold every token after the command, colons stripped, in order |
| LineFsm.CommandOnly | components/net/linefsm.rs:48-52 | a line holding only a command has empty params and trailing |
| LineFsm.ParamsThenTrailing | components/net/linefsm.rs:57-68 | params are the tokens before the first `:`-token, and trailing is every later token with one colon stripped |
| LineFsm.TokensParamsThenTrailing | components/net/linefsm.rs:54-68 | the same split stated on the token list |
| LineFsm.TrailingWhitespaceIgnored | components/net/linefsm.rs:25 | appending whitespace to a line never changes the parse |
| LineFsm.WordsColonJoin | components/net/linefsm.rs:39 | a `:`-prefixed sentence splits into the colon-tagged first word and the other words |
| LineFsm.WordsRender | components/net/linefsm.rs:39-47 | a rendered well-formed command splits into its command, params and colon-tagged trailing |
| LineFsm.FromRenderedTokens | components/net/linefsm.rs:44-68 | the tokens of a rendered command mean that command |
| LineFsm.RenderStartsWithCommand | components/net/linefsm.rs:28 | a rendered command starts with the command's first character |
| LineFsm.RenderRoundTrip | components/net/linefsm.rs:13-81 | parsing a rendered well-formed command gives the command back |
| LineFsm.FirstColonAt | components/net/linefsm.rs:57-62 | the first `:`-token is found at its index |
| LineFsm.ExampleNick | components/net/linefsm.rs:38-77 | `NICK bob` parses to command NICK, params `[bob]`, no trailing |
| LineFsm.ExamplePrivmsg | components/net/linefsm.rs:54-68 | `PRIVMSG #x :hello there` parses to params `[#x]` and trailing `[hello, there]` |
| LineFsm.ExamplePrivmsgWellFormed | components/net/linefsm.rs:54-68 | that command is well formed for rendering |
| LineFsm.ExamplePrivmsgRender | components/net/linefsm.rs:54-68 | that command renders to the original line |
| Wire.RawOptions | components/net_traits/writer_thread.rs:123-126 | one rendering per option, in list order |
| Wire.ProtoOptionRoundTrip | components/net_traits/writer_thread.rs:87-105 | every option's rendering reads back as that option: `EAUTH=`+name, `SID=`+sid, unit options by name |
| Wire.ProtoOptionRawInjective | components/net_traits/writer_thread.rs:87-105 | two options never render alike |
| Wire.PlainOptionIsWord | components/net_traits/writer_thread.rs:87-105 | an option without whitespace in its payload renders as one token without a leading colon |
| Wire.ProtoCtlRoundTrip | components/net_traits/writer_thread.rs:123-126 | a PROTOCTL line parses back to one param per option, in list order |
| Wire.ProtoCtlEmpty | components/net_traits/writer_thread.rs:123-126 | with no options the line is `PROTOCTL ` and parses to no params |
| Wire.RawOptionsAreWords | components/net_traits/writer_thread.rs:123-126 | the renderings of plain options are single tokens |
| Wire.ProtoCtlShape | components/net_traits/writer_thread.rs:123-126 | PROTOCTL renders as `PROTOCTL` and the option renderings joined by single spaces |
| Wire.TrailingLine | components/net_traits/writer_thread.rs:112-121 | a line `cmd p1 .. pn :w1 .. wm` parses back to its command, params and words |
| Wire.ParamsLine | components/net_traits/writer_thread.rs:127 | a line `cmd p1 .. pn` parses back to its command and params |
| Wire.PassShape | components/net_traits/writer_thread.rs:112-114 | PASS renders as `PASS :` and the secret |
| Wire.PassRoundTrip | components/net_traits/writer_thread.rs:112-114 | `PASS :secret` parses back to no params and the secret's words |
| Wire.PongShape | components/net_traits/writer_thread.rs:120-122 | the server PONG renders as `PONG :` and the message |
| Wire.PongRoundTrip | components/net_traits/writer_thread.rs:120-122 | `PONG :msg` parses back to no params and the message's words |
| Wire.ServerShape | components/net_traits/writer_thread.rs:115-119 | SERVER renders as `SERVER name hops :desc` |
| Wire.ServerRoundTrip | components/net_traits/writer_thread.rs:115-119 | SERVER parses back to the name, the decimal hop count that reads back as the number, and the description's words |
| Wire.EosRoundTrip | components/net_traits/writer_thread.rs:127 | EOS parses back to the bare command |
| Wire.FieldsWords | components/net_traits/writer_thread.rs:128-142 | the tokens of `front middle :ws` are the front tokens, the middle pieces' tokens and the colon-tagged words |
| Wire.WordsOfColonSentence | components/net_traits/writer_thread.rs:128-142 | a `:`-prefixed sentence yields the colon-tagged first word and the rest |
| Wire.FieldsTokens | components/net_traits/writer_thread.rs:128-142 | those tokens parse with the front and middle as params and the words as trailing |
| Wire.JoinStartsWith | components/net_traits/writer_thread.rs:128-142 | a join starts with the first piece's first character |
| Wire.FieldsLine | components/net_traits/writer_thread.rs:128-142 | a line of tokens, plain pieces and a trailing sentence parses back to its parts |
| Wire.NickShape | components/net_traits/writer_thread.rs:128-142 | NICK renders its fields in order with the hop count plus one and the real name last after ` :` |
| Wire.NickLineFields | components/net_traits/writer_thread.rs:128-142 | a NICK line parses to command NICK whose first six params are nick, hops plus one, timestamp, user, host and server, and whose trailing is the real name's words |
| Wire.NumericReplyPrefix | components/net_traits/writer_thread.rs:191-279 | numeric replies start with `:` + server name + the reply's three-digit code: 001, 002, 375, 372, 376, 433, 401, 353, 366, 315 |
| Wire.ModeSign | components/net_traits/writer_thread.rs:200-210 | ModeSelf and Mode end in `+m` exactly when enabled and in `-m` otherwise |
| Wire.PartReasonQuoted | components/net_traits/writer_thread.rs:246-250 | a PART reply ends with ` :` and the reason in double quotes |
| Wire.OnlyWhoReplyChangesData | components/net_traits/writer_thread.rs:187-281 | only WhoReply changes the writer context, and only its current channel |
| Wire.WhoListNamesChannel | components/net_traits/writer_thread.rs:251-268 | after WhoReply(c), WhoSpcRpl and EndOfWho both render c |
| Wire.SjoinRoundTrip | components/net_traits/writer_thread.rs:143-148 | an SJOIN line is `:` + server name + a space, then a line that parses to SJOIN, timestamp, channel and the nicks |
| Wire.SjoinShape | components/net_traits/writer_thread.rs:143-148 | SJOIN renders as `:`+server+` SJOIN `+ts+` `+channel+` :`+nicks joined by spaces |
| Masks.FullExtendsPrivmsg | components/user_traits/user_thread.rs:29-48 | `full` is `for_privmsg` followed by ` * ` and the real name |
| Masks.RenderingIgnoresRouting | components/user_traits/user_thread.rs:29-48 | neither rendering depends on hops, timestamp or server name |
| Masks.PrefixRoundTrip | components/user_traits/user_thread.rs:40-48 | the `nick!user@host` prefix reads back to nick, user and host when the nick lacks `!` and the user lacks `@` |
| Masks.PrefixDeterminesIdentity | components/user_traits/user_thread.rs:40-48 | two such masks with equal prefixes agree on nick, user and host |
| Messages.Notify | components/user_traits/user_thread.rs:83-120 | each `User` notification sends exactly one message, of the matching variant, to that user and to no other |
| Messages.Written | components/net_traits/writer_thread.rs:36-39 | the replies written to the client, never more than the envelopes sent |
| Messages.WrittenAppend | components/net_traits/writer_thread.rs:36-39 | the replies written by two outboxes in a row are those of each, in order |
| Messages.SentTo | components/user_traits/user_thread.rs:83-120 | the messages sent to one user, never more than the envelopes sent |
| Messages.SentToAppend | components/user_traits/user_thread.rs:83-120 | the messages one user receives from two outboxes are those of each, in order |
| Rc.Alloc | components/channel_traits/channel_thread.rs:30-39 | a new cell with one holder, appended to the heap |
| Rc.Clone | components/channel_traits/channel_thread.rs:22-25 | a clone adds one holder to the same cell and changes nothing else |
| Rc.Set | components/channel_traits/channel_thread.rs:41-49 | a write through the lock is seen through every holder and keeps the holder count |
| Rc.Release | components/channel_traits/channel_thread.rs:72-77 | dropping a holder yields the payload exactly when it was the last holder, and frees the cell then |
| Rc.ReleaseAllOnce | components/channel_traits/directory_thread.rs:57-63 | releasing every holder yields the payload once, at the last release |
| Rc.ReleaseSomeKeeps | components/channel_traits/directory_thread.rs:57-63 | fewer releases than holders never yield the payload and keep the cell |
| Rc.CloneRelease | components/user/user_thread.rs:416-435 | a clone that is dropped again leaves the heap as it was |
| Rc.WriteSeenAtRelease | components/channel_traits/channel_thread.rs:41-49 | what is written through one holder is what the last release yields |
| Handles.NewChannelEntry | components/channel_traits/channel_thread.rs:30-39 | a new entry has one holder, no pending reason and an empty mask |
| Handles.ChannelJoin | components/channel_traits/channel_thread.rs:89-94 | `Channel::join` sends `Join(user)` and wraps exactly the replied id in a new entry; no reply gives `RecvError` |
| Handles.UpdateMask | components/channel_traits/channel_thread.rs:41-44 | `update_mask` overwrites the stored mask and nothing else |
| Handles.SetPartReason | components/channel_traits/channel_thread.rs:46-49 | `part_reason` overwrites the pending reason and nothing else |
| Handles.EntryPrivmsg | components/channel_traits/channel_thread.rs:51-55 | `privmsg` goes to the entry's channel tagged with its own stored id |
| Handles.EntryWho | components/channel_traits/channel_thread.rs:57-61 | `who` goes to the entry's channel with its own stored id |
| Handles.ReleaseChannelEntry | components/channel_traits/channel_thread.rs:72-77 | dropping the last holder sends exactly one `Part(id, mask, pending reason)`; earlier drops send nothing |
| Handles.ReleaseKeepsOthers | components/channel_traits/channel_thread.rs:72-77 | dropping one entry keeps every other entry live |
| Handles.LastReleaseParts | components/channel_traits/channel_thread.rs:22-25 | the last release sends the mask and reason written through any clone |
| Handles.LastReasonWins | components/channel_traits/channel_thread.rs:46-49 | the reason written last wins, and `None` resets it |
| Handles.NewUser | components/channel_traits/directory_thread.rs:75-81 | `new_user` sends `NewUser(user)` and wraps exactly the replied id in a new entry |
| Handles.DirUpdateNick | components/channel_traits/directory_thread.rs:50-54 | `update_nick` sends `UpdateNick(stored id, nick)` and returns the directory's answer unchanged, `NickCollision` included |
| Handles.ReleaseDirectoryEntry | components/channel_traits/directory_thread.rs:57-63 | dropping the last holder sends exactly one `DestroyUser(id)`; earlier drops send nothing |
| Handles.ClonesShareId | components/channel_traits/directory_thread.rs:25-31 | a clone sends the same `UpdateNick` as the original |
| Handles.DestroyedOnce | components/channel_traits/directory_thread.rs:83-86 | releasing every clone sends one `DestroyUser(id)`; releasing fewer sends nothing |
| ChannelActor.FirstFree | components/channel/channel_thread.rs:59-67 | the joiner's slot is the first empty one, or the table length when none is empty |
| ChannelActor.Pad | components/channel/channel_thread.rs:68-70 | the table grows by one empty slot only when the slot is the table length |
| ChannelActor.Slots | components/channel/channel_thread.rs:125-135 | the occupied slots other than the skipped one, ascending |
| ChannelActor.Fanout | components/channel/channel_thread.rs:150-169 | one message to the occupant of each listed slot, in order |
| ChannelActor.Members | components/channel/channel_thread.rs:107-109 | the members in slot order |
| ChannelActor.NicksAppend | components/channel/channel_thread.rs:112-117 | the loop keeps or skips each member on its own: the nicks of a concatenation are the nicks of each part, in order |
| ChannelActor.Nicks | components/channel/channel_thread.rs:112-117 | the nicks of the members whose mask query succeeds, in order |
| ChannelActor.Join | components/channel/channel_thread.rs:58-81 | join replies the lowest free slot first, then JoinOther to the members present before, then JoinSelf to the joiner, and stores the joiner there |
| ChannelActor.Part | components/channel/channel_thread.rs:82-105 | on an occupied slot: PartSelf to the leaver, slot emptied, PartOther to every remaining member, with `No reason provided` for no reason; otherwise nothing |
| ChannelActor.Who | components/channel/channel_thread.rs:106-122 | an occupied id gets one TransmitNames with the members' nicks in slot order; an empty id gets nothing |
| ChannelActor.Privmsg | components/channel/channel_thread.rs:123-136 | every occupied slot except the sender's gets PrivmsgChan, ascending, and the table is unchanged |
| ChannelActor.HandleMsg | components/channel/channel_thread.rs:56-148 | the table never shrinks, the name never changes, and only Exit stops the loop |
| ChannelActor.PadSlots | components/channel/channel_thread.rs:68-70 | padding adds no member |
| ChannelActor.FanoutPad | components/channel/channel_thread.rs:68-70 | padding adds no recipient |
| ChannelActor.SlotsExactly | components/channel/channel_thread.rs:125-135 | a slot is listed exactly when it is occupied and not skipped |
| ChannelActor.SlotsSnoc | components/channel/channel_thread.rs:125-135 | a slot added at the end is listed last exactly when it is occupied and not skipped |
| ChannelActor.JoinTakesLowestFree | components/channel/channel_thread.rs:59-67 | the slot is the lowest empty one when one exists, the length otherwise |
| ChannelActor.NeverShrinks | components/channel/channel_thread.rs:68-70 | no message shrinks the table |
| ChannelActor.PrivmsgSkipsSender | components/channel/channel_thread.rs:123-136 | a Privmsg reaches a member exactly when it is not the sender's slot |
| ChannelActor.JoinState | components/channel/channel_thread.rs:68-80 | the joiner is stored at its slot in the padded table |
| ChannelActor.MembersPad | components/channel/channel_thread.rs:68-70 | padding keeps the member list |
| ChannelActor.JoinThenPart | components/channel/channel_thread.rs:58-105 | parting the slot a join just gave restores the members present before |
| ChannelActor.FirstJoin | components/channel/channel_thread.rs:58-81 | the first joiner of an empty channel gets slot 0 and is told only of its own join |
| ChannelActor.SecondJoin | components/channel/channel_thread.rs:58-81 | the second joiner gets slot 1, the first member gets JoinOther with its prefix, then the joiner gets JoinSelf |
| ChannelActor.TwoMembersState | components/channel/channel_thread.rs:58-81 | two joins into an empty channel fill slots 0 and 1 |
| ChannelActor.TwoSlots | components/channel/channel_thread.rs:125-135 | with two members, skipping slot 0 leaves slot 1, and skipping none leaves both in order |
| ChannelActor.TwoMembersList | components/channel/channel_thread.rs:107-109 | with slots 0 and 1 occupied, the members are those two users in slot order |
| ChannelActor.TwoPrivmsg | components/channel/channel_thread.rs:123-136 | with two members, a message from slot 0 goes to slot 1 only |
| ChannelActor.TwoWho | components/channel/channel_thread.rs:106-122 | with two members, WHO lists both nicks in slot order |
| ChannelActor.TwoMembers | components/channel/channel_thread.rs:58-136 | in that channel, a message from slot 0 reaches only slot 1 |
| Membership.FindName | components/user/user_thread.rs:437-439 | the first stored channel with that name, or none exactly when no entry has it |
| Membership.FindNameIff | components/user/user_thread.rs:441-443 | `is_in_channel` holds exactly when some entry has the name |
| Membership.SwapRemove | components/server/virtual_user_thread.rs:146-152 | `swap_remove` drops one element, keeps the others, and moves the last into the hole |
| Membership.Keep | components/user/user_thread.rs:355-371 | the entries a PART keeps: exactly those with another name, in order |
| Membership.Named | components/user/user_thread.rs:355-371 | the entries a PART drops: exactly those with the name, in order |
| Membership.KeepNamedPartition | components/user/user_thread.rs:355-371 | kept and dropped entries together are the list, as a multiset |
| Membership.KeepAbsent | components/user/user_thread.rs:355-371 | a name not held keeps the whole list and drops nothing |
| Membership.OwnedPush | components/user/user_thread.rs:326-331 | appending a freshly allocated entry keeps the list the only holder of its entries |
| Membership.OwnedSet | components/channel_traits/channel_thread.rs:41-49 | writing through an entry keeps ownership |
| Membership.OwnedFreeOther | components/channel_traits/channel_thread.rs:72-77 | freeing a cell the list does not use keeps ownership |
| Membership.OwnedSubset | components/user/user_thread.rs:355-371 | a sub-list of distinct entries of an owned list is owned |
| Membership.OwnedTail | components/user/user_thread.rs:355-371 | the tail of an owned list is owned |
| Membership.OwnedCons | components/user/user_thread.rs:355-371 | putting an owned entry with a handle of its own in front of an owned list keeps it owned |
| Membership.NamedOwned | components/user/user_thread.rs:355-371 | the dropped entries are owned |
| Membership.KeptNotNamed | components/user/user_thread.rs:355-371 | a kept entry is not a dropped one |
| Membership.KeepOwnedStep | components/user/user_thread.rs:355-371 | the kept entries stay owned when only other cells change |
| Membership.KeepOwned | components/user/user_thread.rs:355-371 | the kept entries stay owned after the dropped ones are freed |
| Membership.OwnedSwapRemove | components/user/user_thread.rs:180-201 | after `swap_remove` and the drop of the removed entry, the list is still owned |
| Membership.KeepNamedSnoc | components/user/user_thread.rs:355-371 | adding an entry at the end adds it to exactly one side |
| Membership.DropAll | components/user/user_thread.rs:82-93 | dropping the list frees each entry and sends one Part per entry, in list order |
| Membership.DropWorker | components/user/user_thread.rs:82-93 | dropping a user worker sends `DestroyUser` for its sole directory handle first, then one Part per joined channel in list order, each with the stored mask and reason; a remote user's worker (components/server/virtual_user_thread.rs, lines 39-47) is dropped the same way |
| Registration.Apply | components/user/user_thread.rs:62-75 | NICK sets the nick, USER the user name and the space-joined real name, other commands nothing; a ready record gets timestamp `123456` |
| Registration.RegistrationOrderIrrelevant | components/user/user_thread.rs:62-75 | from an empty record, NICK then USER equals USER then NICK |
| Registration.NickAndUserMakeReady | components/user/user_thread.rs:62-75 | NICK and USER with non-empty values make the record ready with timestamp `123456` |
| Registration.GenMask | components/user/user_thread.rs:77-79 | the mask copies nick, user name and real name, with host `TODO`, zero hops and this server's name |
| Registration.GenMaskPrefix | components/user/user_thread.rs:77-79 | a registered user's messages carry `nick!user@TODO` |
| Registration.UpperChar | components/user/user_thread.rs:233 | ASCII lower-case letters move to upper case, other characters stay |
| Registration.Upper | components/user/user_thread.rs:233 | upper-casing works character by character and keeps the length |
| Registration.UpperIdempotent | components/user/user_thread.rs:233 | upper-casing twice is upper-casing once |
| Registration.UpperDispatch | components/user/user_thread.rs:233 | a name dispatches as NICK exactly when it spells nick in any ASCII letter case |
| Registration.SetMode | components/user/user_thread.rs:404-409 | the mode is added only if absent, every old mode stays, and `+m` is written |
| Registration.RemoveMode | components/user/user_thread.rs:411-414 | the kept modes are the old ones with every copy of the mode removed and every other mode kept as often as before; a single mode is kept exactly when it differs; `-m` is written |
| Registration.RemoveModeAppend | components/user/user_thread.rs:411-414 | `retain` works piece by piece: removing from a concatenation is removing from each part, so the kept modes stay in their order |
| Registration.SetModeIdempotent | components/user/user_thread.rs:404-409 | setting keeps the list free of repeats, and setting twice equals setting once |
| Registration.RemoveUndoesSet | components/user/user_thread.rs:404-414 | removing a mode just set restores the list |
| Session.Spawn | components/user/user_thread.rs:16-32 | a new user worker registers its user, holds its entry alone, and starts unregistered with no channels and no modes |
| Session.Pass | components/user/user_thread.rs:235-242 | PASS on a fresh connection ends the loop and sets the upgrade flag exactly when the guess equals the link password |
| Session.WriteAll | components/user/user_thread.rs:390-402 | one write per reply, in order |
| Session.Register | components/user/user_thread.rs:243-275 | NICK/USER before registration: not ready keeps collecting; ready sends the writer's nick update and the claim, then greets and sets `+i` on success, writes NickInUse on a collision, and stays unregistered on any failure |
| Session.ThroughClone | components/user/user_thread.rs:416-435 | using a joined channel through a temporary clone sends one message and leaves the heap as it was, so nothing is parted |
| Session.Who | components/user/user_thread.rs:282-295 | WHO asks a joined channel once and ignores every other target |
| Session.Privmsg | components/user/user_thread.rs:296-313 | PRIVMSG goes to the joined channel, or to the user found, or writes NickNotFound, tagged with the sender's prefix |
| Session.Join | components/user/user_thread.rs:314-347 | JOIN of a held channel does nothing; otherwise a successful join appends exactly one entry with that name whose mask is the nick |
| Session.PartTarget | components/user/user_thread.rs:348-354 | with no params the channel is the first trailing word and there is no reason; otherwise the first param and the joined trailing |
| Session.PartEach | components/user/user_thread.rs:355-371 | each dropped entry gets the reason and sends its Part, in order, and is freed |
| Session.Part | components/user/user_thread.rs:348-374 | PART of a channel not held does nothing; otherwise every entry of that name is parted with the reason and the others stay in order |
| Session.HandleCommand | components/user/user_thread.rs:231-384 | the worker keeps its address, configuration and directory entry; it stops exactly on QUIT or on PASS before any NICK/USER; the upgrade flag changes only on a PASS whose guess equals the link password |
| Session.HandleUserMsg | components/user/user_thread.rs:158-230 | JoinOther, PartOther, Privmsg and PrivmsgChan each write exactly the matching reply; JoinSelf writes the Join under the user's own prefix once registered and nothing before; GetMask answers the registered mask or `InvalidState`; TransmitNames writes the names and their end; PartSelf, once registered, writes the Part reply and swap-removes the first entry of that name, whose drop sends its Part; other messages keep the state; only Exit stops |
| Session.RelaysIgnoreState | components/user/user_thread.rs:161-179 | what other members do, and private messages, are written as one reply whatever the registration state; the user's own JOIN is echoed exactly when registered |
| Session.PartSelf | components/user/user_thread.rs:180-201 | a registered user is written the Part reply; the first entry of that channel is swap-removed and its drop sends one Part; an unknown channel changes nothing more |
| Session.PingAnswered | components/user/user_thread.rs:276-278 | PING in any state writes `Pong` of the joined params and changes nothing |
| Session.PassUpgradesIff | components/user/user_thread.rs:235-242 | PASS on a fresh connection upgrades exactly when the guess equals the password, and always stops |
| Session.RegisteredIgnoresRegistration | components/user/user_thread.rs:378-381 | once registered, PASS, NICK and USER change nothing and send nothing |
| Session.RegistrationScenario | components/user/user_thread.rs:243-275 | a fresh connection sending NICK then USER, with the claim accepted, ends registered and is written the greeting and `+i` |
| Session.ScenarioNick | components/user/user_thread.rs:243-275 | NICK on a fresh connection records the nick, sends nothing, and is not yet ready |
| Session.ScenarioUser | components/user/user_thread.rs:243-275 | USER after NICK with the claim accepted connects with the stamp, sets `+i` and writes the greeting |
| Session.WrittenGreeting | components/user/user_thread.rs:390-402 | after a successful claim the client is written the greeting and `+i`, and the two nick updates write nothing |
| Session.WrittenWriteAll | components/user/user_thread.rs:390-402 | the replies written by a batch of writes are the batch |
| Session.CollisionKeepsUnregistered | components/user/user_thread.rs:257-262 | a refused claim writes NickInUse and keeps the connection unregistered |
| Session.JoinTwiceSameAsOnce | components/user/user_thread.rs:314-320 | after a successful JOIN, joining the same channel again is a no-op |
| Session.JoinThenPart | components/user/user_thread.rs:314-374 | JOIN then PART of a new channel restores the list and parts the new entry once with the reason |
| Session.PartOfAppended | components/user/user_thread.rs:348-374 | PART of a channel held only by the last entry drops that entry alone and sends its Part with the reason |
| Session.PartForgets | components/user/user_thread.rs:348-374 | after a PART no entry of that name is left |
| RemoteUser.JoinStored | components/server/virtual_user.rs:47-61 | a join sends `Join(user)`, appends exactly one entry with that name, whose mask is the nick, and keeps ownership |
| RemoteUser.NewVUser | components/server/virtual_user.rs:22-37 | a new proxy registers, then claims its mask's nick through the new entry, with no channels |
| RemoteUser.VUserJoin | components/server/virtual_user.rs:47-61 | the proxy appends one entry named after the channel, with no duplicate check |
| RemoteUser.JoinKeepsMask | components/server/virtual_user.rs:39-41 | joining never changes the mask `get_mask` reports |
| RemoteUser.JoinTwiceKeepsTwo | components/server/virtual_user.rs:47-61 | joining the same channel twice stores two entries for it |
| RemoteUser.SpawnWorker | components/server/virtual_user_thread.rs:23-61 | the worker registers and claims the mask's nick before it runs, and starts with no channels |
| RemoteUser.HandleUserMsg | components/server/virtual_user_thread.rs:96-128 | GetMask answers the stored mask; every other message does nothing; only Exit stops |
| RemoteUser.WorkerJoin | components/server/virtual_user_thread.rs:154-183 | a successful join appends exactly one entry, whose mask is the nick, and keeps ownership |
| RemoteUser.WorkerPart | components/server/virtual_user_thread.rs:146-152 | PART swap-removes the first entry of that name and parts it; an unknown name does nothing |
| RemoteUser.HandleVUserMsg | components/server/virtual_user_thread.rs:130-144 | Join goes to `join`, Part to `part`, and only Exit stops |
| RemoteUser.WorkerJoinThenPart | components/server/virtual_user_thread.rs:130-183 | a join then a part of a new channel restores the list and sends the entry's Part with the nick |
| Link.NewLink | components/server/server_thread.rs:26-35 | a new link is syncing, with no proxies |
| Link.SWriteAll | components/server/server_thread.rs:115-177 | one server write per line, in order |
| Link.IntroduceReadBack | components/server/server_thread.rs:115-141 | the peer reads PASS with the password, PROTOCTL with the eleven options starting with `EAUTH(name)`, then SERVER with the name, one hop and the description |
| Link.IntroduceOptions | components/server/server_thread.rs:120-133 | the PROTOCTL line reads back as exactly the eleven link options, in order |
| Link.Sync | components/server/server_thread.rs:143-177 | the burst is one NICK per user with stamp `0`, no modes and host `*`, then one SJOIN per channel with timestamp `0`, then EOS |
| Link.Start | components/server/server_thread.rs:37-41 | the link writes the introduction, then the burst |
| Link.NickMask | components/server/server_thread.rs:199-212 | the intended proxy mask: params 0-5 give nick, hops, timestamp, user, host and server, and the real name is trailing joined by spaces |
| Link.NickMaskAsWritten | components/server/server_thread.rs:199-212 | the mask as written: the same fields, with trailing joined by `.clone() ` |
| Link.AsWrittenAgreesIffOneWord | components/server/server_thread.rs:205 | the mask as written equals the intended one exactly when the real name has at most one word |
| Link.AsWrittenMangledRealName | components/server/server_thread.rs:205 | a real name `John Smith` comes out as `John.clone() Smith` as written |
| Link.NickMaskFromFields | components/server/server_thread.rs:201-209 | a NICK with a mask's fields in params 0-5 reads back to that mask with one more hop |
| Link.BurstNickRecovered | components/server/server_thread.rs:146-160 | a user in this server's burst is read back by a peer with every field intact and one more hop |
| Link.ParseNick | components/server/server_thread.rs:235-251 | every `@` is removed and becomes one `o` mode, and the length is kept overall |
| Link.ParseNickCounts | components/server/server_thread.rs:235-251 | one mode per `@`, and every other character is kept as often as it occurs |
| Link.ParseNickAppend | components/server/server_thread.rs:235-251 | parsing splits over concatenation, so the other characters keep their order |
| Link.ParseNickPlain | components/server/server_thread.rs:235-251 | a nick without `@` parses to itself with no modes |
| Link.ParseNickOp | components/server/server_thread.rs:242-244 | a leading `@` becomes one `o` in front of the rest |
| Link.ParseNickInnerAt | components/server/server_thread.rs:237-247 | `al@ice` parses to `alice` with one `o`, because the flag state is never cleared |
| Link.Nicks | components/server/server_thread.rs:220 | the proxies' nicks in order |
| Link.FirstWithNick | components/server/server_thread.rs:220 | the first proxy with that nick, or none when no proxy has it |
| Link.Targets | components/server/server_thread.rs:217-225 | the proxies an SJOIN's tokens reach are proxies of the link, one per token at most |
| Link.SjoinEach | components/server/server_thread.rs:213-226 | each reached proxy sends one `Join`, with the answers used in order |
| Link.SjoinKeepsHeap | components/server/server_thread.rs:213-226 | the SJOIN loop only appends handles |
| Link.SjoinGrowth | components/server/server_thread.rs:213-226 | every proxy keeps its address, entry and mask and gains one entry named after the channel per token that reaches it, after those it held |
| Link.HandleCommand | components/server/server_thread.rs:188-232 | the link never stops, keeps its configuration, loses no proxy, and changes phase only from syncing to linked on EOS; a NICK stores the mask as line 205 builds it |
| Link.EosOnlyWhileSyncing | components/server/server_thread.rs:196-198 | EOS moves a syncing link to linked; a linked link ignores EOS |
| Link.PingAnswered | components/server/server_thread.rs:193-195 | PING writes `Pong` of the joined params run together with the joined trailing, in either phase |
| Link.NickAddsProxy | components/server/server_thread.rs:199-212 | NICK adds exactly one proxy, whose mask has the real name joined by `.clone() ` as written, and claims its nick |
| Link.SjoinSkipsUnknown | components/server/server_thread.rs:220-224 | a token naming no proxy is skipped and uses no answer |
| Link.SjoinJoinsKnown | components/server/server_thread.rs:220-224 | a token naming a proxy makes the first proxy with that nick join with the next answer |

## Left out

- Threads, `Select` loops and the messaging macros (`lselect!`, `send!`, `req_rep!`): each handler call is one atomic step. Sends never fail.
- The six-minute idle timeout of the user worker: it is driven by a timer.
- The link's multi-receiver select loop, and its unimplemented user branch.
- Sockets and the writer thread's I/O. `Writer::write` and `swrite` append to the outbox. `write_raw` (`SendRaw`) is never used by the core.
- Loading the configuration from files: it is a record of server name, link password and description.
- Logging.
- The directory actor's behaviour: its handler only logs. Nick claims, lookups, the users and channels of a burst, and every reply are inputs.
- `unimplemented!` paths are preconditions or left out: a `:prefix` line, PRIVMSG to an unjoined channel, relayed private messages to a proxy, and failed proxy joins.
- Session.Who: the lookup made for a user target is not modelled, because the source drops its result.
- Registration.Upper: only ASCII letters are upper-cased. Rust's `to_uppercase` maps all of Unicode.
- LineFsm.IsSpace: covers the Unicode White_Space characters, with no encoding.
- Session.HandleUserMsg: the `Part` that the removed entry sends on drop reaches a channel slot the channel has already emptied. Whether another user took that slot in between depends on thread timing, which is not modelled.
- The queries `GetUsers` and `GetName` that the channel worker serves: they only read, so their answers are burst inputs.
- The link's teardown is not modelled. When `run` returns or unwinds, the temporary `ServerWorker` (components/user/user_thread.rs:24-26) is dropped, and its `users` drop every proxy in list order. Each `VirtualUser` declares its directory entry before its channels (components/server/virtual_user.rs:12-19), so each proxy sends `DestroyUser` and then one Part per stored channel, as `Membership.DropWorker` states for a single worker. The model keeps no invariant that each proxy solely holds its entries in the link's shared heaps, so it does not state that drop for the whole list.
- Wire.SrplRaw: a NICK whose stored hop count is 4294967295 is excluded. components/net_traits/writer_thread.rs:129 adds one on a `u32`, which panics in a debug build and wraps to 0 in a release build. A peer can announce that count (components/server/server_thread.rs:206).
- RemoteUser.NewVUser: the directory's answer to the nick claim is taken to be success. components/server/virtual_user.rs:26-27 unwraps both replies, so a peer announcing a nick the directory refuses (`NickCollision`) panics the link thread. That panic, and the drops it unwinds, are not modelled. `Link.NickAddsProxy` promises one new proxy only under this assumption.
- RemoteUser.SpawnWorker: the directory's registration reply and the nick claim are both taken to succeed. components/server/virtual_user_thread.rs:28 unwraps `new_user` and line 51 unwraps the claim, so a missing registration reply or a refused nick panics. Those panics are not modelled.
- Session.Spawn: the directory's reply to `new_user` is taken to be an id. components/user/user_thread.rs:19 unwraps it. The directory's handler only logs and drops the reply sender, so in this source that unwrap fails on every connection. The model shows the worker as it would run with a reply.
- Link.CanHandle: excludes a NICK with fewer than six params or a hop count that is not a `u32`, and an SJOIN with fewer than two params. components/server/server_thread.rs:202-208 and 214-215 index the params and `parse().unwrap()` the hops, so such a line panics the link thread.
- Session.CanHandle: excludes WHO, PRIVMSG and JOIN with no params, a PART with neither params nor trailing, and NICK or USER without params before registration. components/user/user_thread.rs:284, 298, 315 and 351 index the params or trailing, and lines 64-66 index or unwrap the params. A client sending a bare `JOIN` therefore panics its own worker.
- ChannelActor.Join: requires that the joiner's mask query answers. components/channel/channel_thread.rs:151 unwraps `get_mask()`, so a joiner whose worker answers `InvalidState` panics the channel thread.
- A second `swrite` or `write` failing (`Result` errors from a closed writer) is not modelled.

Behaviour the source has that a reader might not expect, modelled as written:

- `UserData::apply` compares `NICK`/`USER` case-sensitively, while dispatch upper-cases. A lower-case `nick` is dispatched but changes nothing.
- The writer's `UpdateNick` is sent before the directory claim, even when the claim then fails.
- The SJOIN lines of a burst start with `:server`, so the peer's parser reaches its unimplemented prefix branch (components/net/linefsm.rs:28-37), a panic. `LineFsm.HandleLine` excludes such a line by its precondition.
- The burst's NICK line has empty modes, which renders as two spaces in a row.
- `TKLEXT2` and `SID` are not in the PROTOCTL list.
- A proxy's `join` has no duplicate check.

## Findings

| source | as written | input that shows it | evidently intended | confidence | as-written member | corrected member |
|---|---|---|---|---|---|---|
| components/server/server_thread.rs:205 | the real name of an announced user is `cmd.trailing.join(".clone() ")` | trailing `["John", "Smith"]` gives `John.clone() Smith` | `cmd.trailing.join(" ")`, giving `John Smith` | high; not executed | Link.NickMaskAsWritten, Link.AsWrittenMangledRealName, Link.AsWrittenAgreesIffOneWord | Link.NickMask, Link.BurstNickRecovered |
