/** The channel actor (`ChannelWorker` in
    `components/channel/channel_thread.rs`): a table of member slots, each
    empty or holding a user. A member's slot index is its `ChannelId`. */
module ChannelActor {
  import opened Base
  import opened Messages
  import Masks

  datatype Channel = Channel(name: string, nick: string, users: seq<Option<UserAddr>>)

  /** What handling one message does: the new state, the envelopes sent in
      order, and whether the actor stops. */
  datatype Step = Step(state: Channel, out: seq<Envelope>, stop: bool)

  /** The masks that `User::get_mask` would return: a user missing from the
      map answers with an error. */
  type MaskOracle = map<UserAddr, Masks.Mask>

  const NO_REASON: string := "No reason provided"

  /** The slot a joiner gets: the first empty slot, or the table length. */
  function FirstFree(users: seq<Option<UserAddr>>): (i: nat)
    ensures i <= |users|
    ensures i < |users| ==> users[i].None?
    ensures forall j :: 0 <= j < i ==> users[j].Some?
  {
    if |users| == 0 || users[0].None? then 0 else 1 + FirstFree(users[1..])
  }

  /** The table grown, if need be, so that slot `i` exists. */
  function Pad(users: seq<Option<UserAddr>>, i: nat): (r: seq<Option<UserAddr>>)
    requires i <= |users|
    ensures |r| == if i == |users| then |users| + 1 else |users|
    ensures r[..|users|] == users
    ensures i == |users| ==> r[i].None?
  {
    if i == |users| then users + [None] else users
  }

  /** The occupied slots other than `skip`, in ascending order. */
  function Slots(users: seq<Option<UserAddr>>, skip: int): (r: seq<nat>)
    ensures forall a, b :: 0 <= a < b < |r| ==> r[a] < r[b]
    ensures forall a :: 0 <= a < |r| ==> r[a] < |users| && users[r[a]].Some? && r[a] != skip
    ensures forall k :: 0 <= k < |users| && users[k].Some? && k != skip ==> k in r
  {
    if |users| == 0 then []
    else
      var k := |users| - 1;
      var front := Slots(users[..k], skip);
      if users[k].Some? && k != skip then front + [k] else front
  }

  /** One message to the occupant of each slot in `slots`, in order. */
  function Fanout(users: seq<Option<UserAddr>>, slots: seq<nat>, m: UserMsg): (r: seq<Envelope>)
    requires forall a :: 0 <= a < |slots| ==> slots[a] < |users| && users[slots[a]].Some?
    ensures |r| == |slots|
    ensures forall a :: 0 <= a < |r| ==> r[a] == ToUser(users[slots[a]].value, m)
  {
    seq(|slots|, a requires 0 <= a < |slots| => ToUser(users[slots[a]].value, m))
  }

  /** The members, in slot order. */
  function Members(users: seq<Option<UserAddr>>): (r: seq<UserAddr>)
    ensures |r| == |Slots(users, -1)|
    ensures forall a :: 0 <= a < |r| ==> r[a] == users[Slots(users, -1)[a]].value
  {
    var slots := Slots(users, -1);
    seq(|slots|, a requires 0 <= a < |slots| => users[slots[a]].value)
  }

  /** The nicks of those members whose mask query succeeds, in order. */
  function Nicks(members: seq<UserAddr>, masks: MaskOracle): (r: seq<string>)
    ensures |r| <= |members|
    ensures (forall a :: 0 <= a < |members| ==> members[a] in masks) ==>
      |r| == |members| && forall a :: 0 <= a < |r| ==> r[a] == masks[members[a]].nick
    ensures |members| == 1 ==> r == if members[0] in masks then [masks[members[0]].nick] else []
  {
    if |members| == 0 then []
    else
      var rest := Nicks(members[1..], masks);
      if members[0] in masks then [masks[members[0]].nick] + rest else rest
  }

  /** Members are filtered one by one, so the nicks of a concatenation are
      the nicks of each part, in order. */
  lemma {:induction false} NicksAppend(a: seq<UserAddr>, b: seq<UserAddr>, masks: MaskOracle)
    ensures Nicks(a + b, masks) == Nicks(a, masks) + Nicks(b, masks)
  {
    if |a| > 0 {
      assert (a + b)[0] == a[0] && (a + b)[1..] == a[1..] + b;
      NicksAppend(a[1..], b, masks);
    } else {
      assert a + b == b;
    }
  }

  predicate Occupied(users: seq<Option<UserAddr>>, id: nat) {
    id < |users| && users[id].Some?
  }

  // ---------------------------------------------------------------------
  // The handler, one message kind at a time

  /** `Join`: reply with the slot, tell the members present before the join,
      tell the joiner, then store it (lines 58-81, `introduce`, `welcome`).
      `introduce` unwraps the joiner's mask, so that query must succeed. */
  function Join(c: Channel, user: UserAddr, masks: MaskOracle): (r: Step)
    requires user in masks
    ensures var i := FirstFree(c.users);
      && |r.state.users| >= |c.users| && |r.state.users| >= i + 1
      && r.state.users[i] == Some(user)
      && (forall k :: 0 <= k < |c.users| && k != i ==> r.state.users[k] == c.users[k])
      && (forall k :: |c.users| <= k < |r.state.users| && k != i ==> r.state.users[k].None?)
      && |r.out| >= 2 && r.out[0] == ReplyId(i)
      && r.out[|r.out| - 1] == ToUser(user, JoinSelf(c.name))
      && r.out[1..|r.out| - 1]
         == Fanout(c.users, Slots(c.users, -1), JoinOther(Masks.ForPrivmsg(masks[user]), c.name))
      && !r.stop
  {
    var i := FirstFree(c.users);
    var padded := Pad(c.users, i);
    PadSlots(c.users, i);
    var intro := Fanout(padded, Slots(padded, -1), JoinOther(Masks.ForPrivmsg(masks[user]), c.name));
    FanoutPad(c.users, i, JoinOther(Masks.ForPrivmsg(masks[user]), c.name));
    var out := [ReplyId(i)] + intro + [ToUser(user, JoinSelf(c.name))];
    assert out[1..|out| - 1] == intro;
    Step(c.(users := padded[i := Some(user)]), out, false)
  }

  /** `Part`: with no reason, "No reason provided". On an occupied slot: tell
      the leaver, empty the slot, tell every remaining member. On an empty
      or missing slot: nothing (lines 82-105, `adios`). */
  function Part(c: Channel, id: ChannelId, mask: string, reason: Option<string>): (r: Step)
    ensures |r.state.users| == |c.users| && r.state.name == c.name && !r.stop
    ensures !Occupied(c.users, id) ==> r.state == c && r.out == []
    ensures Occupied(c.users, id) ==>
      var why := reason.GetOr(NO_REASON);
      && r.state.users == c.users[id := None]
      && |r.out| >= 1
      && r.out[0] == ToUser(c.users[id].value, PartSelf(c.name, why))
      && r.out[1..] == Fanout(r.state.users, Slots(r.state.users, -1), PartOther(mask, c.name, why))
  {
    var why := reason.GetOr(NO_REASON);
    if Occupied(c.users, id) then
      var leaver := c.users[id].value;
      var users := c.users[id := None];
      var out := [ToUser(leaver, PartSelf(c.name, why))]
        + Fanout(users, Slots(users, -1), PartOther(mask, c.name, why));
      Step(c.(users := users), out, false)
    else
      Step(c, [], false)
  }

  /** `Who`: the asking member gets one `TransmitNames` with the nicks of
      the members whose mask query succeeds, in slot order (lines 106-122). */
  function Who(c: Channel, id: ChannelId, masks: MaskOracle): (r: Step)
    ensures r.state == c && !r.stop
    ensures !Occupied(c.users, id) ==> r.out == []
    ensures Occupied(c.users, id) ==>
      r.out == [ToUser(c.users[id].value, TransmitNames(c.name, Nicks(Members(c.users), masks)))]
  {
    if Occupied(c.users, id) then
      Step(c, [ToUser(c.users[id].value, TransmitNames(c.name, Nicks(Members(c.users), masks)))], false)
    else
      Step(c, [], false)
  }

  /** `Privmsg`: every member except the one in the sender's slot gets the
      message, in slot order (lines 123-136). */
  function Privmsg(c: Channel, id: ChannelId, mask: string, msg: string): (r: Step)
    ensures r.state == c && !r.stop
    ensures r.out == Fanout(c.users, Slots(c.users, id), PrivmsgChan(mask, c.name, msg))
  {
    Step(c, Fanout(c.users, Slots(c.users, id), PrivmsgChan(mask, c.name, msg)), false)
  }

  /** `ChannelWorker::handle_msg`. */
  function HandleMsg(c: Channel, m: ChannelMsg, masks: MaskOracle): (r: Step)
    requires m.Join? ==> m.user in masks
    ensures |r.state.users| >= |c.users|
    ensures r.state.name == c.name
    ensures r.stop <==> m.Exit?
  {
    match m
    case Join(user) => Join(c, user, masks)
    case Part(id, mask, reason) => Part(c, id, mask, reason)
    case Who(id) => Who(c, id, masks)
    case Privmsg(id, mask, msg) => Privmsg(c, id, mask, msg)
    case GetUsers => Step(c, [ReplyUsers(Members(c.users))], false)
    case GetName => Step(c, [ReplyName(c.name)], false)
    case Exit => Step(c, [], true)
  }

  // ---------------------------------------------------------------------
  // Lemmas

  lemma PadSlots(users: seq<Option<UserAddr>>, i: nat)
    requires i <= |users|
    ensures Slots(Pad(users, i), -1) == Slots(users, -1)
  {
    if i == |users| {
      var p := Pad(users, i);
      assert p[..|users|] == users;
    }
  }

  lemma FanoutPad(users: seq<Option<UserAddr>>, i: nat, m: UserMsg)
    requires i <= |users|
    ensures Slots(Pad(users, i), -1) == Slots(users, -1)
    ensures Fanout(Pad(users, i), Slots(Pad(users, i), -1), m) == Fanout(users, Slots(users, -1), m)
  {
    PadSlots(users, i);
  }

  /** `Slots` lists exactly the qualifying slots: a slot is listed iff it is
      occupied and not skipped. */
  lemma SlotsExactly(users: seq<Option<UserAddr>>, skip: int, k: int)
    ensures k in Slots(users, skip) <==> 0 <= k < |users| && users[k].Some? && k != skip
  {
  }

  /** The slot a joiner gets is the lowest empty one, or a new one at the
      end when none is empty. */
  lemma JoinTakesLowestFree(users: seq<Option<UserAddr>>)
    ensures (exists k :: 0 <= k < |users| && users[k].None?) ==>
      FirstFree(users) < |users| && users[FirstFree(users)].None?
    ensures (forall k :: 0 <= k < |users| ==> users[k].Some?) ==> FirstFree(users) == |users|
  {
  }

  /** No message ever shrinks the table. */
  lemma NeverShrinks(c: Channel, m: ChannelMsg, masks: MaskOracle)
    requires m.Join? ==> m.user in masks
    ensures |HandleMsg(c, m, masks).state.users| >= |c.users|
  {
  }

  /** A Privmsg reaches neither the sender's slot nor an empty one, and
      reaches every other member. */
  lemma PrivmsgSkipsSender(c: Channel, id: ChannelId, mask: string, msg: string, k: nat)
    requires Occupied(c.users, k)
    ensures var out := Privmsg(c, id, mask, msg).out;
      (exists a :: 0 <= a < |out| && out[a] == ToUser(c.users[k].value, PrivmsgChan(mask, c.name, msg))
                   && Slots(c.users, id)[a] == k) <==> k != id
  {
    var slots := Slots(c.users, id);
    var out := Privmsg(c, id, mask, msg).out;
    if k != id {
      assert k in slots;
      var a :| 0 <= a < |slots| && slots[a] == k;
      assert out[a] == ToUser(c.users[k].value, PrivmsgChan(mask, c.name, msg));
    }
  }

  lemma JoinState(c: Channel, user: UserAddr, masks: MaskOracle)
    requires user in masks
    ensures Join(c, user, masks).state == c.(users := Pad(c.users, FirstFree(c.users))[FirstFree(c.users) := Some(user)])
  {
  }

  lemma MembersPad(users: seq<Option<UserAddr>>, i: nat)
    requires i <= |users|
    ensures Members(Pad(users, i)) == Members(users)
  {
    PadSlots(users, i);
    var p := Pad(users, i);
    assert forall k :: 0 <= k < |users| ==> p[k] == users[k];
  }

  /** Parting the slot a join just assigned gives back the members the
      table had before the join, in the same slots. */
  lemma JoinThenPart(c: Channel, user: UserAddr, masks: MaskOracle, mask: string, reason: Option<string>)
    requires user in masks
    ensures var j := Join(c, user, masks);
      var p := Part(j.state, FirstFree(c.users), mask, reason);
      && p.state.users == Pad(c.users, FirstFree(c.users))
      && Members(p.state.users) == Members(c.users)
  {
    var i := FirstFree(c.users);
    JoinState(c, user, masks);
    var padded := Pad(c.users, i);
    var joined := padded[i := Some(user)];
    assert Occupied(joined, i);
    assert joined[i := None] == padded;
    MembersPad(c.users, i);
  }

  /** Adding a slot at the end lists it last, when occupied and not skipped. */
  lemma SlotsSnoc(users: seq<Option<UserAddr>>, x: Option<UserAddr>, skip: int)
    ensures Slots(users + [x], skip)
      == Slots(users, skip) + (if x.Some? && |users| != skip then [|users|] else [])
  {
    assert (users + [x])[..|users|] == users;
  }

  lemma OneSlot(a: UserAddr, skip: int)
    ensures Slots([Some(a)], skip) == if skip == 0 then [] else [0]
  {
    var none: seq<Option<UserAddr>> := [];
    SlotsSnoc(none, Some(a), skip);
    assert none + [Some(a)] == [Some(a)];
  }

  lemma TwoSlots(a: UserAddr, b: UserAddr, skip: int)
    requires skip == 0 || skip == -1
    ensures Slots([Some(a), Some(b)], skip) == if skip == 0 then [1] else [0, 1]
  {
    var one := [Some(a)];
    OneSlot(a, skip);
    SlotsSnoc(one, Some(b), skip);
    assert one + [Some(b)] == [Some(a), Some(b)];
  }

  lemma TwoMembersList(a: UserAddr, b: UserAddr)
    ensures Members([Some(a), Some(b)]) == [a, b]
  {
    TwoSlots(a, b, -1);
    MembersOfTwo([Some(a), Some(b)]);
  }

  lemma MembersOfTwo(users: seq<Option<UserAddr>>)
    requires |users| == 2 && users[0].Some? && users[1].Some? && Slots(users, -1) == [0, 1]
    ensures Members(users) == [users[0].value, users[1].value]
  {
    var m := Members(users);
    assert |m| == 2 && m[0] == users[0].value && m[1] == users[1].value;
  }

  /** The first joiner of an empty channel gets slot 0 and only its own
      JoinSelf. */
  lemma FirstJoin(c: Channel, a: UserAddr, masks: MaskOracle)
    requires a in masks && c.users == []
    ensures Join(c, a, masks).state == c.(users := [Some(a)])
    ensures Join(c, a, masks).out == [ReplyId(0), ToUser(a, JoinSelf(c.name))]
  {
    JoinState(c, a, masks);
    assert Slots(c.users, -1) == [];
  }

  /** The second joiner gets slot 1; the first member is told of it. */
  lemma SecondJoin(c: Channel, a: UserAddr, b: UserAddr, masks: MaskOracle)
    requires b in masks && c.users == [Some(a)]
    ensures Join(c, b, masks).state == c.(users := [Some(a), Some(b)])
    ensures Join(c, b, masks).out
      == [ReplyId(1), ToUser(a, JoinOther(Masks.ForPrivmsg(masks[b]), c.name)), ToUser(b, JoinSelf(c.name))]
  {
    assert FirstFree(c.users) == 1;
    SecondJoinState(c, a, b, masks);
    SecondJoinOut(c, a, b, masks);
  }

  lemma SecondJoinState(c: Channel, a: UserAddr, b: UserAddr, masks: MaskOracle)
    requires b in masks && c.users == [Some(a)] && FirstFree(c.users) == 1
    ensures Join(c, b, masks).state == c.(users := [Some(a), Some(b)])
  {
    JoinState(c, b, masks);
    assert Pad(c.users, 1)[1 := Some(b)] == [Some(a), Some(b)];
  }

  lemma SecondJoinOut(c: Channel, a: UserAddr, b: UserAddr, masks: MaskOracle)
    requires b in masks && c.users == [Some(a)] && FirstFree(c.users) == 1
    ensures Join(c, b, masks).out
      == [ReplyId(1), ToUser(a, JoinOther(Masks.ForPrivmsg(masks[b]), c.name)), ToUser(b, JoinSelf(c.name))]
  {
    OneSlot(a, -1);
    var m := JoinOther(Masks.ForPrivmsg(masks[b]), c.name);
    assert Fanout(c.users, Slots(c.users, -1), m) == [ToUser(a, m)];
    var out := Join(c, b, masks).out;
    assert |out| == 3;
    assert out[1..2] == [ToUser(a, m)];
  }

  lemma TwoMembersState(name: string, a: UserAddr, b: UserAddr, masks: MaskOracle)
    requires a in masks && b in masks
    ensures var s1 := Join(Channel(name, "", []), a, masks);
      var s2 := Join(s1.state, b, masks);
      && s1.out[0] == ReplyId(0)
      && s2.state == Channel(name, "", [Some(a), Some(b)])
      && s2.out == [ReplyId(1), ToUser(a, JoinOther(Masks.ForPrivmsg(masks[b]), name)), ToUser(b, JoinSelf(name))]
  {
    var c0 := Channel(name, "", []);
    FirstJoin(c0, a, masks);
    SecondJoin(Join(c0, a, masks).state, a, b, masks);
  }

  /** With members in slots 0 and 1, a message from slot 0 reaches slot 1 only. */
  lemma TwoPrivmsg(c: Channel, a: UserAddr, b: UserAddr, mask: string, text: string)
    requires c.users == [Some(a), Some(b)]
    ensures Privmsg(c, 0, mask, text).out == [ToUser(b, PrivmsgChan(mask, c.name, text))]
  {
    TwoSlots(a, b, 0);
  }

  /** With members in slots 0 and 1, WHO lists both nicks in slot order. */
  lemma TwoWho(c: Channel, a: UserAddr, b: UserAddr, masks: MaskOracle)
    requires a in masks && b in masks && c.users == [Some(a), Some(b)]
    ensures Who(c, 1, masks).out == [ToUser(b, TransmitNames(c.name, [masks[a].nick, masks[b].nick]))]
  {
    TwoMembersList(a, b);
    assert Nicks([a, b], masks) == [masks[a].nick, masks[b].nick];
  }

  /** A channel where `a` then `b` join: `a` holds slot 0, `b` slot 1, a
      message from slot 0 reaches `b` alone, and WHO from `b` lists both
      nicks in joining order. */
  lemma TwoMembers(name: string, a: UserAddr, b: UserAddr, masks: MaskOracle, text: string)
    requires a in masks && b in masks
    ensures var s1 := Join(Channel(name, "", []), a, masks);
      var s2 := Join(s1.state, b, masks);
      && s1.out[0] == ReplyId(0) && s2.out[0] == ReplyId(1)
      && s2.state.users == [Some(a), Some(b)]
      && Privmsg(s2.state, 0, Masks.ForPrivmsg(masks[a]), text).out
         == [ToUser(b, PrivmsgChan(Masks.ForPrivmsg(masks[a]), name, text))]
      && Who(s2.state, 1, masks).out
         == [ToUser(b, TransmitNames(name, [masks[a].nick, masks[b].nick]))]
  {
    TwoMembersState(name, a, b, masks);
    var s2 := Join(Join(Channel(name, "", []), a, masks).state, b, masks).state;
    TwoPrivmsg(s2, a, b, Masks.ForPrivmsg(masks[a]), text);
    TwoWho(s2, a, b, masks);
  }
}
