/** The messages the actors exchange, and the envelope that addresses one
    of them to its receiver. An actor handler's outbox is a sequence of
    envelopes in sending order.

    Actor handles (`User`, `Channel`, `VirtualUser` senders) are modelled as
    plain addresses. The directory and the writer are one per connection,
    so their envelopes carry no address. */
module Messages {
  import opened Base
  import Wire
  import Masks

  type UserAddr = nat
  type ChannelAddr = nat
  type VUserAddr = nat

  /** `ChannelId`: a slot index in a channel's member table. */
  type ChannelId = nat

  /** `DirectoryId`: the directory's key for a registered user. */
  type DirectoryId = nat

  /** `WriterThreadMsg`. */
  datatype WriterMsg =
    | SendRaw(line: string)
    | Send(reply: Wire.RPL)
    | SSend(sreply: Wire.SRPL)
    | UpdateNick(nick: string)

  /** `UserThreadMsg`; the answer to `GetMask` is a `ReplyMask` envelope. */
  datatype UserMsg =
    | Privmsg(src: string, msg: string)
    | PrivmsgChan(mask: string, chan: string, msg: string)
    | JoinSelf(chan: string)
    | PartSelf(chan: string, reason: string)
    | JoinOther(mask: string, chan: string)
    | PartOther(mask: string, chan: string, reason: string)
    | TransmitNames(chan: string, names: seq<string>)
    | GetMask
    | Exit

  /** `ChannelThreadMsg`, plus `GetUsers`/`GetName`, which the worker serves
      although the message enum does not declare them. */
  datatype ChannelMsg =
    | Join(user: UserAddr)
    | Part(id: ChannelId, mask: string, reason: Option<string>)
    | Privmsg(id: ChannelId, mask: string, msg: string)
    | Who(id: ChannelId)
    | GetUsers
    | GetName
    | Exit

  /** The messages sent to the directory that change it. */
  datatype DirectoryMsg =
    | NewUser(user: UserAddr)
    | UpdateNick(id: DirectoryId, nick: string)
    | DestroyUser(id: DirectoryId)

  /** `VirtualUserThreadMsg`. */
  datatype VUserMsg = Join(chan: string) | Part(chan: string) | Exit

  /** `user_traits::Error::InvalidState`, the only error a user worker replies. */
  datatype UserError = InvalidState

  /** One sent message and its receiver. `Reply*` envelopes answer the
      request being handled. */
  datatype Envelope =
    | ToWriter(wmsg: WriterMsg)
    | ToUser(user: UserAddr, umsg: UserMsg)
    | ToChannel(channel: ChannelAddr, cmsg: ChannelMsg)
    | ToDirectory(dmsg: DirectoryMsg)
    | ToVirtualUser(vuser: VUserAddr, vmsg: VUserMsg)
    | ReplyId(id: ChannelId)
    | ReplyMask(mask: Result<Masks.Mask, UserError>)
    | ReplyUsers(users: seq<UserAddr>)
    | ReplyName(name: string)

  /** The server configuration the workers consult: name, link password
      and description (`server_traits::Config`). */
  datatype Config = Config(serverName: string, pass: string, desc: string)

  /** A `User` handle's notification methods (`privmsg`, `privmsg_chan`,
      `inform_self_join`, `inform_self_part`, `inform_other_join`,
      `inform_other_part`, `transmit_names`): one message to that user.
      `m` is any message other than `GetMask`, which is a request. */
  function Notify(u: UserAddr, m: UserMsg): (r: Envelope)
    requires !m.GetMask?
    ensures SentTo([r], u) == [m]
    ensures forall v :: v != u ==> SentTo([r], v) == []
  {
    ToUser(u, m)
  }

  /** `Writer::write`. */
  function Write(r: Wire.RPL): Envelope {
    ToWriter(Send(r))
  }

  /** `Writer::swrite`. */
  function SWrite(s: Wire.SRPL): Envelope {
    ToWriter(SSend(s))
  }

  /** The replies written to the client, in order, ignoring other envelopes. */
  function Written(out: seq<Envelope>): (r: seq<Wire.RPL>)
    ensures |r| <= |out|
  {
    if |out| == 0 then []
    else
      var head := if out[0].ToWriter? && out[0].wmsg.Send? then [out[0].wmsg.reply] else [];
      head + Written(out[1..])
  }

  lemma {:induction false} WrittenAppend(a: seq<Envelope>, b: seq<Envelope>)
    ensures Written(a + b) == Written(a) + Written(b)
  {
    if |a| == 0 {
      assert a + b == b;
    } else {
      assert (a + b)[1..] == a[1..] + b;
      WrittenAppend(a[1..], b);
    }
  }

  /** The messages sent to user `u`, in order. */
  function SentTo(out: seq<Envelope>, u: UserAddr): (r: seq<UserMsg>)
    ensures |r| <= |out|
  {
    if |out| == 0 then []
    else
      var head := if out[0].ToUser? && out[0].user == u then [out[0].umsg] else [];
      head + SentTo(out[1..], u)
  }

  lemma {:induction false} SentToAppend(a: seq<Envelope>, b: seq<Envelope>, u: UserAddr)
    ensures SentTo(a + b, u) == SentTo(a, u) + SentTo(b, u)
  {
    if |a| == 0 {
      assert a + b == b;
    } else {
      assert (a + b)[1..] == a[1..] + b;
      SentToAppend(a[1..], b, u);
    }
  }
}
