/** A client connection's worker (`UserWorker` in
    `components/user/user_thread.rs`): its reaction to one parsed client
    command, to one message from another actor, and the messages its
    teardown sends.

    The directory's and the channels' answers to this worker's requests
    are inputs (`Answers`): the directory keeps no model-visible state. */
module Session {
  import opened Base
  import opened Messages
  import Wire
  import Masks
  import Rc
  import Handles
  import LineFsm
  import opened Membership
  import opened Registration

  /** The fields of `UserWorker` that carry behaviour. The receivers, the
      writer and the directory handle are implicit in the envelopes. */
  datatype Worker = Worker(
    self: UserAddr,
    state: State,
    channels: seq<StoredChannel>,
    modes: seq<char>,
    doUpgrade: bool,
    dirEntry: Handles.DirectoryEntry,
    chans: Handles.ChannelHeap,
    dirs: Handles.DirectoryHeap,
    config: Config)

  /** The worker after one message, what it sent, and whether its loop ends. */
  datatype Step = Step(w: Worker, out: seq<Envelope>, stop: bool)

  /** The worker holds the only handle on its directory entry and on each
      stored channel entry. */
  predicate Valid(w: Worker) {
    && Owned(w.channels, w.chans)
    && Rc.Live(w.dirs, w.dirEntry) && w.dirs[w.dirEntry].value.count == 1
  }

  /** The answers this worker may receive while handling one command:
      the directory's verdict on a nick claim, its lookup of a PRIVMSG
      target, of a channel by name and of this user's own handle, and the
      slot a channel assigns on JOIN. */
  datatype Answers = Answers(
    claim: Result<(), Handles.ChanError>,
    target: Option<UserAddr>,
    channel: Result<ChannelAddr, Handles.ChanError>,
    me: Result<UserAddr, Handles.ChanError>,
    slot: Option<ChannelId>)

  /** `UserThreadFactory::new` and `UserWorker::new`: register the new user
      with the directory, then start unregistered, in no channel, with no
      mode. A failed registration panics, so the reply is required. */
  function Spawn(self: UserAddr, dirs: Handles.DirectoryHeap, id: DirectoryId, config: Config): (r: (Worker, seq<Envelope>))
    ensures r.1 == [ToDirectory(DirectoryMsg.NewUser(self))]
    ensures Valid(r.0) && Rc.Get(r.0.dirs, r.0.dirEntry).id == id
    ensures r.0.state == NewConnection(None) && r.0.channels == [] && r.0.modes == []
    ensures !r.0.doUpgrade && r.0.self == self && r.0.config == config
  {
    var (dirs1, entry, out) := Handles.NewUser(dirs, self, Some(id));
    (Worker(self, NewConnection(None), [], [], false, entry.value, [], dirs1, config), out)
  }

  // ---------------------------------------------------------------------
  // Client commands

  predicate IsChannelName(t: string) {
    |t| > 0 && t[0] == '#'
  }

  /** What `handle_command` needs to avoid a panic: NICK and USER need a
      parameter while registering, WHO, PRIVMSG and JOIN index
      `params[0]`, a PRIVMSG to a channel the user has not joined is
      unimplemented, and a PART without parameters reads `trailing[0]`. */
  predicate CanHandle(w: Worker, cmd: LineFsm.ParsedCommand) {
    var c := Upper(cmd.command);
    && (w.state.NewConnection? && (c == "NICK" || c == "USER") ==> CanApply(cmd))
    && (w.state.Connected? && (c == "WHO" || c == "PRIVMSG" || c == "JOIN") ==> |cmd.params| > 0)
    && (w.state.Connected? && c == "PRIVMSG" && |cmd.params| > 0 && IsChannelName(cmd.params[0]) ==>
          HasName(w.channels, cmd.params[0]))
    && (w.state.Connected? && c == "PART" && |cmd.params| == 0 ==> |cmd.trailing| > 0)
  }

  /** The guess a PASS command makes: parameters and trailing words, each
      joined by spaces, then run together. */
  function Guess(cmd: LineFsm.ParsedCommand): string {
    JoinWith(cmd.params, " ") + JoinWith(cmd.trailing, " ")
  }

  /** PASS on a fresh connection: always ends the client loop; a matching
      password marks the connection for an upgrade to a server link. */
  function Pass(w: Worker, cmd: LineFsm.ParsedCommand): (r: Step)
    ensures r.stop && r.out == []
    ensures r.w.doUpgrade == (w.doUpgrade || Guess(cmd) == w.config.pass)
    ensures r.w == w.(doUpgrade := r.w.doUpgrade)
  {
    Step(w.(doUpgrade := w.doUpgrade || Guess(cmd) == w.config.pass), [], true)
  }

  /** The lines `welcome` and `motd` write before the mode. */
  const GREETING: seq<Wire.RPL> := [
    Wire.RPL.Welcome("Hello, World!"), Wire.RPL.YourHost,
    Wire.RPL.MotdStart, Wire.RPL.Motd("Hello MOTD"), Wire.RPL.MotdEnd]

  function WriteAll(rs: seq<Wire.RPL>): (r: seq<Envelope>)
    ensures |r| == |rs| && forall i :: 0 <= i < |rs| ==> r[i] == Write(rs[i])
  {
    seq(|rs|, i requires 0 <= i < |rs| => Write(rs[i]))
  }

  /** NICK or USER before registration. */
  function Register(w: Worker, cmd: LineFsm.ParsedCommand, ans: Answers): (r: Step)
    requires Valid(w) && w.state.NewConnection? && CanApply(cmd)
    ensures Valid(r.w) && !r.stop
    ensures var data := Apply(w.state.pending.GetOr(EMPTY), cmd);
      && (!IsReady(data) ==> r.w == w.(state := NewConnection(Some(data))) && r.out == [])
      && (IsReady(data) ==>
            && |r.out| >= 2
            && r.out[0] == ToWriter(WriterMsg.UpdateNick(data.nick))
            && r.out[1] == ToDirectory(DirectoryMsg.UpdateNick(Rc.Get(w.dirs, w.dirEntry).id, data.nick)))
      && (IsReady(data) && ans.claim.Ok? ==>
            && r.w == w.(state := Connected(data), modes := SetMode(w.modes, 'i').0)
            && r.out[2..] == WriteAll(GREETING) + [Write(Wire.RPL.ModeSelf('i', true))])
      && (IsReady(data) && ans.claim == Err(Handles.NickCollision) ==>
            r.w == w.(state := NewConnection(Some(data))) && r.out[2..] == [Write(Wire.RPL.NickInUse)])
      && (IsReady(data) && ans.claim.Err? && ans.claim != Err(Handles.NickCollision) ==>
            r.w == w.(state := NewConnection(Some(data))) && r.out[2..] == [])
  {
    var data := Apply(w.state.pending.GetOr(EMPTY), cmd);
    if !IsReady(data) then Step(w.(state := NewConnection(Some(data))), [], false)
    else
      var (answer, claimOut) := Handles.DirUpdateNick(w.dirs, w.dirEntry, data.nick, ans.claim);
      var pre := [ToWriter(WriterMsg.UpdateNick(data.nick))] + claimOut;
      match answer
      case Ok(_) =>
        var (modes, modeOut) := SetMode(w.modes, 'i');
        Step(w.(state := Connected(data), modes := modes), pre + WriteAll(GREETING) + modeOut, false)
      case Err(e) =>
        if e.NickCollision? then Step(w.(state := NewConnection(Some(data))), pre + [Write(Wire.RPL.NickInUse)], false)
        else Step(w.(state := NewConnection(Some(data))), pre, false)
  }

  /** What `get_communicable` does with a joined channel: a temporary clone
      of the entry sends the message and is dropped again. */
  datatype Use = UsePrivmsg(mask: string, msg: string) | UseWho

  function ThroughClone(h: Handles.ChannelHeap, e: Handles.ChannelEntry, u: Use): (r: (Handles.ChannelHeap, seq<Envelope>))
    requires Rc.Live(h, e) && h[e].value.count == 1
    ensures r.0 == h
    ensures u.UsePrivmsg? ==> r.1 == [Handles.EntryPrivmsg(h, e, u.mask, u.msg)]
    ensures u.UseWho? ==> r.1 == [Handles.EntryWho(h, e)]
  {
    var h1 := Rc.Clone(h, e);
    var sent := match u
      case UsePrivmsg(mask, msg) => Handles.EntryPrivmsg(h1, e, mask, msg)
      case UseWho => Handles.EntryWho(h1, e);
    var (h2, dropped) := Handles.ReleaseChannelEntry(h1, e);
    Rc.CloneRelease(h, e);
    (h2, [sent] + dropped)
  }

  /** WHO: only a joined channel is asked; a user target is ignored. */
  function Who(w: Worker, target: string): (r: Step)
    requires Valid(w)
    ensures r.w == w && !r.stop
    ensures IsChannelName(target) && HasName(w.channels, target) ==>
      var i := FindName(w.channels, target).value;
      r.out == [Handles.EntryWho(w.chans, w.channels[i].entry)]
    ensures !(IsChannelName(target) && HasName(w.channels, target)) ==> r.out == []
  {
    FindNameIff(w.channels, target);
    if IsChannelName(target) then
      match FindName(w.channels, target)
      case Some(i) =>
        var (h, out) := ThroughClone(w.chans, w.channels[i].entry, UseWho);
        Step(w.(chans := h), out, false)
      case None => Step(w, [], false)
    else Step(w, [], false)
  }

  /** The text of a PRIVMSG: the parameters after the target and the
      trailing words, each joined by spaces, then run together. */
  function MessageText(cmd: LineFsm.ParsedCommand): string
    requires |cmd.params| > 0
  {
    JoinWith(cmd.params[1..], " ") + JoinWith(cmd.trailing, " ")
  }

  /** PRIVMSG from a registered user. */
  function Privmsg(w: Worker, data: UserData, cmd: LineFsm.ParsedCommand, ans: Answers): (r: Step)
    requires Valid(w) && |cmd.params| > 0
    requires IsChannelName(cmd.params[0]) ==> HasName(w.channels, cmd.params[0])
    ensures r.w == w && !r.stop && |r.out| == 1
    ensures var mask := Masks.ForPrivmsg(GenMask(data, w.config));
      && (IsChannelName(cmd.params[0]) ==>
            var i := FindName(w.channels, cmd.params[0]).value;
            r.out[0] == Handles.EntryPrivmsg(w.chans, w.channels[i].entry, mask, MessageText(cmd)))
      && (!IsChannelName(cmd.params[0]) && ans.target.Some? ==>
            r.out[0] == Notify(ans.target.value, UserMsg.Privmsg(mask, MessageText(cmd))))
      && (!IsChannelName(cmd.params[0]) && ans.target.None? ==>
            r.out[0] == Write(Wire.RPL.NickNotFound(cmd.params[0])))
  {
    var mask := Masks.ForPrivmsg(GenMask(data, w.config));
    var text := MessageText(cmd);
    var target := cmd.params[0];
    FindNameIff(w.channels, target);
    if IsChannelName(target) then
      var i := FindName(w.channels, target).value;
      var (h, out) := ThroughClone(w.chans, w.channels[i].entry, UsePrivmsg(mask, text));
      Step(w.(chans := h), out, false)
    else match ans.target
      case Some(u) => Step(w, [Notify(u, UserMsg.Privmsg(mask, text))], false)
      case None => Step(w, [Write(Wire.RPL.NickNotFound(target))], false)
  }

  /** JOIN from a registered user. */
  function Join(w: Worker, data: UserData, name: string, ans: Answers): (r: Step)
    requires Valid(w)
    ensures Valid(r.w) && !r.stop
    ensures r.w.self == w.self && r.w.state == w.state && r.w.dirEntry == w.dirEntry && r.w.dirs == w.dirs
    ensures HasName(w.channels, name) ==> r == Step(w, [], false)
    ensures !HasName(w.channels, name) && ans.channel.Ok? && ans.me.Ok? ==>
      r.out == [ToChannel(ans.channel.value, ChannelMsg.Join(ans.me.value))]
    ensures !HasName(w.channels, name) && ans.channel.Ok? && ans.me.Ok? && ans.slot.Some? ==>
      && r.w.channels == w.channels + [StoredChannel(name, |w.chans|)]
      && |r.w.chans| == |w.chans| + 1 && r.w.chans[..|w.chans|] == w.chans
      && Rc.Live(r.w.chans, |w.chans|)
      && Rc.Get(r.w.chans, |w.chans|) == Handles.StoredChannelId(ans.channel.value, None, data.nick, ans.slot.value)
    ensures !(!HasName(w.channels, name) && ans.channel.Ok? && ans.me.Ok? && ans.slot.Some?) ==>
      r.w == w
  {
    FindNameIff(w.channels, name);
    if FindName(w.channels, name).Some? then Step(w, [], false)
    else match ans.channel
      case Err(_) => Step(w, [], false)
      case Ok(ch) =>
        match ans.me
        case Err(_) => Step(w, [], false)
        case Ok(me) =>
          var (h1, res, out) := Handles.ChannelJoin(w.chans, ch, me, ans.slot);
          match res
          case Err(_) => Step(w, out, false)
          case Ok(e) =>
            var h2 := Handles.UpdateMask(h1, e, data.nick);
            assert h2[..|w.chans|] == w.chans by {
              assert forall j :: 0 <= j < |w.chans| ==> h2[j] == h1[j] == w.chans[j];
            }
            OwnedPush(w.channels, w.chans, h2, name);
            Step(w.(chans := h2, channels := w.channels + [StoredChannel(name, e)]), out, false)
  }

  /** The channel a PART names and the reason it gives. */
  function PartTarget(cmd: LineFsm.ParsedCommand): (r: (string, Option<string>))
    requires |cmd.params| == 0 ==> |cmd.trailing| > 0
    ensures |cmd.params| == 0 ==> r == (cmd.trailing[0], None)
    ensures |cmd.params| > 0 ==> r == (cmd.params[0], Some(JoinWith(cmd.trailing, " ")))
  {
    if |cmd.params| == 0 then (cmd.trailing[0], None)
    else (cmd.params[0], Some(JoinWith(cmd.trailing, " ")))
  }

  /** The PART drain: each entry of the list in turn gets the reason and is
      dropped, which (as the only handle) sends the channel a `Part`. */
  function PartEach(h: Handles.ChannelHeap, chs: seq<StoredChannel>, reason: Option<string>): (r: (Handles.ChannelHeap, seq<Envelope>))
    requires Owned(chs, h)
    ensures |r.0| == |h| && |r.1| == |chs|
    ensures forall i :: 0 <= i < |chs| ==>
      r.1[i] == Handles.PartMsg(Rc.Get(h, chs[i].entry).(partReason := reason))
    ensures forall i :: 0 <= i < |chs| ==> r.0[chs[i].entry].None?
    ensures forall j :: 0 <= j < |h| && j !in Entries(chs) ==> r.0[j] == h[j]
    decreases |chs|
  {
    if |chs| == 0 then (h, [])
    else
      var e := chs[0].entry;
      var h1 := Handles.SetPartReason(h, e, reason);
      var (h2, o) := Handles.ReleaseChannelEntry(h1, e);
      OwnedTail(chs, h);
      OwnedFreeOther(chs[1..], h, h2, e);
      var (h3, os) := PartEach(h2, chs[1..], reason);
      PartEachStep(h, chs, reason, h2, o, h3, os);
      (h3, o + os)
  }

  /** The step of `PartEach`: the first entry gets the reason and is
      released, then the rest are parted. */
  lemma PartEachStep(h: Handles.ChannelHeap, chs: seq<StoredChannel>, reason: Option<string>,
                     h2: Handles.ChannelHeap, o: seq<Envelope>, h3: Handles.ChannelHeap, os: seq<Envelope>)
    requires Owned(chs, h) && |chs| > 0
    requires (h2, o) == Handles.ReleaseChannelEntry(Handles.SetPartReason(h, chs[0].entry, reason), chs[0].entry)
    requires Owned(chs[1..], h2)
    requires |h3| == |h2| && |os| == |chs| - 1
    requires forall i :: 0 <= i < |chs| - 1 ==>
      os[i] == Handles.PartMsg(Rc.Get(h2, chs[1..][i].entry).(partReason := reason))
    requires forall i :: 0 <= i < |chs| - 1 ==> h3[chs[1..][i].entry].None?
    requires forall j :: 0 <= j < |h2| && j !in Entries(chs[1..]) ==> h3[j] == h2[j]
    ensures |h3| == |h| && |o + os| == |chs|
    ensures forall i :: 0 <= i < |chs| ==>
      (o + os)[i] == Handles.PartMsg(Rc.Get(h, chs[i].entry).(partReason := reason))
    ensures forall i :: 0 <= i < |chs| ==> h3[chs[i].entry].None?
    ensures forall j :: 0 <= j < |h| && j !in Entries(chs) ==> h3[j] == h[j]
  {
    var e := chs[0].entry;
    assert o == [Handles.PartMsg(Rc.Get(h, e).(partReason := reason))] && h2[e].None?;
    forall i | 1 <= i < |chs|
      ensures (o + os)[i] == Handles.PartMsg(Rc.Get(h, chs[i].entry).(partReason := reason))
      ensures h3[chs[i].entry].None?
    {
      assert chs[1..][i - 1] == chs[i];
      assert chs[i].entry != e;
    }
    forall j | 0 <= j < |h| && j !in Entries(chs)
      ensures h3[j] == h[j]
    {
      assert Entries(chs)[0] == e;
      assert j !in Entries(chs[1..]);
    }
  }

  /** PART from a registered user: a channel not held is ignored;
      otherwise every stored entry of that name is parted with the reason
      and the other entries stay, in order. */
  function Part(w: Worker, cmd: LineFsm.ParsedCommand): (r: Step)
    requires Valid(w) && (|cmd.params| == 0 ==> |cmd.trailing| > 0)
    ensures Valid(r.w) && !r.stop
    ensures var (name, reason) := PartTarget(cmd);
      && (!HasName(w.channels, name) ==> r == Step(w, [], false))
      && (HasName(w.channels, name) ==>
            && r.w == w.(channels := Keep(w.channels, name), chans := r.w.chans)
            && |r.out| == |Named(w.channels, name)|
            && forall i :: 0 <= i < |r.out| ==>
                 r.out[i] == Handles.PartMsg(Rc.Get(w.chans, Named(w.channels, name)[i].entry).(partReason := reason)))
  {
    var (name, reason) := PartTarget(cmd);
    FindNameIff(w.channels, name);
    if FindName(w.channels, name).None? then Step(w, [], false)
    else
      var named := Named(w.channels, name);
      NamedOwned(w.channels, name, w.chans);
      var (h1, out) := PartEach(w.chans, named, reason);
      KeepOwned(w.channels, name, w.chans, h1);
      Step(w.(channels := Keep(w.channels, name), chans := h1), out, false)
  }

  /** `UserWorker::handle_command`: dispatch on the upper-cased command
      and the registration state. */
  function HandleCommand(w: Worker, cmd: LineFsm.ParsedCommand, ans: Answers): (r: Step)
    requires Valid(w) && CanHandle(w, cmd)
    ensures Valid(r.w)
    ensures r.w.self == w.self && r.w.config == w.config && r.w.dirEntry == w.dirEntry
    ensures r.stop <==> Upper(cmd.command) == "QUIT" || (Upper(cmd.command) == "PASS" && w.state == NewConnection(None))
    ensures r.w.doUpgrade != w.doUpgrade ==> Upper(cmd.command) == "PASS" && Guess(cmd) == w.config.pass
  {
    var c := Upper(cmd.command);
    match w.state
    case NewConnection(pending) =>
      if pending.None? && c == "PASS" then Pass(w, cmd)
      else if c == "NICK" || c == "USER" then Register(w, cmd, ans)
      else if c == "PING" then Step(w, [Write(Wire.RPL.Pong(JoinWith(cmd.params, " ")))], false)
      else Step(w, [], c == "QUIT")
    case Connected(data) =>
      if c == "PING" then Step(w, [Write(Wire.RPL.Pong(JoinWith(cmd.params, " ")))], false)
      else if c == "MODE" then Step(w, [], false)
      else if c == "WHO" then Who(w, cmd.params[0])
      else if c == "PRIVMSG" then Privmsg(w, data, cmd, ans)
      else if c == "JOIN" then Join(w, data, cmd.params[0], ans)
      else if c == "PART" then Part(w, cmd)
      else Step(w, [], c == "QUIT")
  }

  // ---------------------------------------------------------------------
  // Messages from other actors

  /** `PartSelf` while registered: the client is told, and the first stored
      entry of that channel is swap-removed and dropped, which sends the
      channel a `Part`. */
  function PartSelf(w: Worker, chan: string, reason: string): (r: Step)
    requires Valid(w) && w.state.Connected?
    ensures Valid(r.w) && !r.stop && |r.out| >= 1
    ensures r.out[0] == Write(Wire.RPL.Part(Masks.ForPrivmsg(GenMask(w.state.data, w.config)), chan, reason))
    ensures HasName(w.channels, chan) ==>
      var i := FindName(w.channels, chan).value;
      && r.w == w.(channels := SwapRemove(w.channels, i), chans := r.w.chans)
      && r.out[1..] == [Handles.PartMsg(Rc.Get(w.chans, w.channels[i].entry))]
    ensures !HasName(w.channels, chan) ==> r.w == w && |r.out| == 1
  {
    var said := [Write(Wire.RPL.Part(Masks.ForPrivmsg(GenMask(w.state.data, w.config)), chan, reason))];
    FindNameIff(w.channels, chan);
    match FindName(w.channels, chan)
    case None => Step(w, said, false)
    case Some(i) =>
      var (h1, dropped) := Handles.ReleaseChannelEntry(w.chans, w.channels[i].entry);
      OwnedSwapRemove(w.channels, w.chans, h1, i);
      Step(w.(channels := SwapRemove(w.channels, i), chans := h1), said + dropped, false)
  }

  /** `handle_user_msg`. A `PartSelf` while registered also forgets the
      first stored entry of that channel (`swap_remove`), and dropping it
      sends the channel a `Part`. */
  function HandleUserMsg(w: Worker, m: UserMsg): (r: Step)
    requires Valid(w)
    ensures Valid(r.w)
    ensures r.stop <==> m.Exit?
    ensures !m.PartSelf? ==> r.w == w
    ensures m.GetMask? ==> r.out == [ReplyMask(
      if w.state.Connected? then Ok(GenMask(w.state.data, w.config)) else Err(InvalidState))]
    ensures m.TransmitNames? ==>
      && r.out == WriteAll([Wire.RPL.NameReply(m.chan, m.names), Wire.RPL.EndOfNames(m.chan)])
      && Written(r.out) == [Wire.RPL.NameReply(m.chan, m.names), Wire.RPL.EndOfNames(m.chan)]
    ensures m.JoinOther? ==> r.out == [Write(Wire.RPL.Join(m.mask, m.chan))]
    ensures m.PartOther? ==> r.out == [Write(Wire.RPL.Part(m.mask, m.chan, m.reason))]
    ensures m.Privmsg? ==> r.out == [Write(Wire.RPL.Privmsg(m.src, m.msg))]
    ensures m.PrivmsgChan? ==> r.out == [Write(Wire.RPL.PrivmsgChan(m.mask, m.chan, m.msg))]
    ensures m.JoinSelf? && w.state.Connected? ==>
      r.out == [Write(Wire.RPL.Join(Masks.ForPrivmsg(GenMask(w.state.data, w.config)), m.chan))]
    ensures m.JoinSelf? && w.state.NewConnection? ==> r.out == []
    ensures m.PartSelf? && w.state.NewConnection? ==> r == Step(w, [], false)
    ensures m.PartSelf? && w.state.Connected? ==>
      && |r.out| >= 1
      && r.out[0] == Write(Wire.RPL.Part(Masks.ForPrivmsg(GenMask(w.state.data, w.config)), m.chan, m.reason))
      && (HasName(w.channels, m.chan) ==>
            var i := FindName(w.channels, m.chan).value;
            && r.w == w.(channels := SwapRemove(w.channels, i), chans := r.w.chans)
            && r.out[1..] == [Handles.PartMsg(Rc.Get(w.chans, w.channels[i].entry))])
      && (!HasName(w.channels, m.chan) ==> r.w == w && |r.out| == 1)
  {
    match m
    case JoinOther(mask, chan) => Step(w, [Write(Wire.RPL.Join(mask, chan))], false)
    case JoinSelf(chan) =>
      if w.state.Connected? then
        Step(w, [Write(Wire.RPL.Join(Masks.ForPrivmsg(GenMask(w.state.data, w.config)), chan))], false)
      else Step(w, [], false)
    case PartOther(mask, chan, reason) => Step(w, [Write(Wire.RPL.Part(mask, chan, reason))], false)
    case PartSelf(chan, reason) =>
      if w.state.NewConnection? then Step(w, [], false) else PartSelf(w, chan, reason)
    case TransmitNames(chan, names) =>
      var rs := [Wire.RPL.NameReply(chan, names), Wire.RPL.EndOfNames(chan)];
      WrittenWriteAll(rs);
      Step(w, WriteAll(rs), false)
    case GetMask =>
      Step(w, [ReplyMask(if w.state.Connected? then Ok(GenMask(w.state.data, w.config)) else Err(InvalidState))], false)
    case Privmsg(src, msg) => Step(w, [Write(Wire.RPL.Privmsg(src, msg))], false)
    case PrivmsgChan(src, chan, msg) => Step(w, [Write(Wire.RPL.PrivmsgChan(src, chan, msg))], false)
    case Exit => Step(w, [], true)
  }

  /** What another member did, and private messages, reach the client
      whatever the registration state; the worker's own JOIN is echoed only
      once it is registered, under its own prefix. */
  lemma RelaysIgnoreState(w1: Worker, w2: Worker, m: UserMsg)
    requires Valid(w1) && Valid(w2)
    ensures (m.JoinOther? || m.PartOther? || m.Privmsg? || m.PrivmsgChan?) ==>
      HandleUserMsg(w1, m).out == HandleUserMsg(w2, m).out && |Written(HandleUserMsg(w1, m).out)| == 1
    ensures m.JoinSelf? ==>
      (|Written(HandleUserMsg(w1, m).out)| == 1 <==> w1.state.Connected?)
  {
    var o := HandleUserMsg(w1, m).out;
    if m.JoinSelf? && w1.state.Connected? {
      assert Written(o) == [Wire.RPL.Join(Masks.ForPrivmsg(GenMask(w1.state.data, w1.config)), m.chan)];
    }
  }

  // ---------------------------------------------------------------------
  // Properties across commands

  /** PING is answered in any state and changes nothing. */
  lemma PingAnswered(w: Worker, cmd: LineFsm.ParsedCommand, ans: Answers)
    requires Valid(w) && Upper(cmd.command) == "PING"
    ensures CanHandle(w, cmd)
    ensures var r := HandleCommand(w, cmd, ans);
      r == Step(w, [Write(Wire.RPL.Pong(JoinWith(cmd.params, " ")))], false)
  {
  }

  /** PASS on a fresh connection ends the loop and upgrades exactly when the
      guess is the configured password. */
  lemma PassUpgradesIff(w: Worker, cmd: LineFsm.ParsedCommand, ans: Answers)
    requires Valid(w) && w.state == NewConnection(None) && !w.doUpgrade
    requires Upper(cmd.command) == "PASS"
    ensures CanHandle(w, cmd)
    ensures var r := HandleCommand(w, cmd, ans);
      r.stop && r.out == [] && (r.w.doUpgrade <==> Guess(cmd) == w.config.pass)
  {
  }

  /** Once registered, PASS, NICK and USER are ignored. */
  lemma RegisteredIgnoresRegistration(w: Worker, cmd: LineFsm.ParsedCommand, ans: Answers)
    requires Valid(w) && w.state.Connected?
    requires Upper(cmd.command) in {"PASS", "NICK", "USER"}
    ensures CanHandle(w, cmd) && HandleCommand(w, cmd, ans) == Step(w, [], false)
  {
  }

  function Cmd(command: string, params: seq<string>, trailing: seq<string>): LineFsm.ParsedCommand {
    LineFsm.ParsedCommand(command, params, trailing)
  }

  /** A fresh connection sending `NICK n` and then `USER u :real name`, with
      the claim accepted, ends up registered and greeted. */
  lemma RegistrationScenario(self: UserAddr, id: DirectoryId, config: Config, n: string, u: string,
                             rname: seq<string>, ans: Answers)
    requires |n| > 0 && |u| > 0 && |JoinWith(rname, " ")| > 0 && ans.claim.Ok?
    ensures var w0 := Spawn(self, [], id, config).0;
      var r1 := HandleCommand(w0, Cmd("NICK", [n], []), ans);
      var r2 := HandleCommand(r1.w, Cmd("USER", [u], rname), ans);
      && r1.out == [] && r1.w.state == NewConnection(Some(UserData(n, "", "", "")))
      && r2.w.state == Connected(UserData(n, STAMP, u, JoinWith(rname, " ")))
      && r2.w.modes == ['i']
      && Written(r2.out) == GREETING + [Wire.RPL.ModeSelf('i', true)]
  {
    var w0 := Spawn(self, [], id, config).0;
    ScenarioNick(w0, n, ans);
    var r1 := HandleCommand(w0, Cmd("NICK", [n], []), ans);
    ScenarioUser(r1.w, n, u, rname, ans);
  }

  /** NICK on a fresh connection only records the nick. */
  lemma ScenarioNick(w: Worker, n: string, ans: Answers)
    requires Valid(w) && w.state == NewConnection(None) && |n| > 0
    ensures CanHandle(w, Cmd("NICK", [n], []))
    ensures HandleCommand(w, Cmd("NICK", [n], []), ans)
      == Step(w.(state := NewConnection(Some(UserData(n, "", "", "")))), [], false)
  {
    assert Upper("NICK") == "NICK";
    assert Apply(EMPTY, Cmd("NICK", [n], [])) == UserData(n, "", "", "");
  }

  /** USER after NICK, with the claim accepted, registers and greets. */
  lemma ScenarioUser(w: Worker, n: string, u: string, rname: seq<string>, ans: Answers)
    requires Valid(w) && w.state == NewConnection(Some(UserData(n, "", "", ""))) && w.modes == []
    requires |n| > 0 && |u| > 0 && |JoinWith(rname, " ")| > 0 && ans.claim.Ok?
    ensures CanHandle(w, Cmd("USER", [u], rname))
    ensures var r := HandleCommand(w, Cmd("USER", [u], rname), ans);
      && r.w.state == Connected(UserData(n, STAMP, u, JoinWith(rname, " ")))
      && r.w.modes == ['i']
      && Written(r.out) == GREETING + [Wire.RPL.ModeSelf('i', true)]
  {
    assert Upper("USER") == "USER";
    var cmd := Cmd("USER", [u], rname);
    assert Apply(UserData(n, "", "", ""), cmd) == UserData(n, STAMP, u, JoinWith(rname, " "));
    var r := Register(w, cmd, ans);
    assert HandleCommand(w, cmd, ans) == r;
    WrittenGreeting(r.out);
  }

  /** What the client is written when a claim succeeds: the greeting and
      the `+i` mode, after the two nick updates that write nothing. */
  lemma WrittenGreeting(out: seq<Envelope>)
    requires |out| >= 2 && out[0].ToWriter? && out[0].wmsg.UpdateNick? && !out[1].ToWriter?
    requires out[2..] == WriteAll(GREETING) + [Write(Wire.RPL.ModeSelf('i', true))]
    ensures Written(out) == GREETING + [Wire.RPL.ModeSelf('i', true)]
  {
    var m := Wire.RPL.ModeSelf('i', true);
    WriteAllAppend(GREETING, [m]);
    WrittenAfterUpdates(out, GREETING + [m]);
  }

  /** Two nick updates followed by writes: only the writes reach the client. */
  lemma WrittenAfterUpdates(out: seq<Envelope>, rs: seq<Wire.RPL>)
    requires |out| >= 2 && out[0].ToWriter? && out[0].wmsg.UpdateNick? && !out[1].ToWriter?
    requires out[2..] == WriteAll(rs)
    ensures Written(out) == rs
  {
    var pre := out[..2];
    assert out == pre + WriteAll(rs);
    WrittenAppend(pre, WriteAll(rs));
    assert Written(pre) == [] by {
      assert pre == [pre[0]] + [pre[1]];
      WrittenAppend([pre[0]], [pre[1]]);
    }
    WrittenWriteAll(rs);
  }

  lemma WriteAllAppend(a: seq<Wire.RPL>, b: seq<Wire.RPL>)
    ensures WriteAll(a + b) == WriteAll(a) + WriteAll(b)
  {
  }

  lemma {:induction false} WrittenWriteAll(rs: seq<Wire.RPL>)
    ensures Written(WriteAll(rs)) == rs
  {
    if |rs| > 0 {
      assert WriteAll(rs) == [Write(rs[0])] + WriteAll(rs[1..]);
      WrittenAppend([Write(rs[0])], WriteAll(rs[1..]));
      WrittenWriteAll(rs[1..]);
    }
  }

  /** A claim the directory refuses keeps the connection unregistered and
      tells the client the nick is taken. */
  lemma CollisionKeepsUnregistered(w: Worker, cmd: LineFsm.ParsedCommand, ans: Answers)
    requires Valid(w) && w.state.NewConnection? && cmd.command == "NICK" && |cmd.params| > 0
    requires IsReady(Apply(w.state.pending.GetOr(EMPTY), cmd))
    requires ans.claim == Err(Handles.NickCollision)
    ensures CanHandle(w, cmd)
    ensures var r := HandleCommand(w, cmd, ans);
      && r.w.state == NewConnection(Some(Apply(w.state.pending.GetOr(EMPTY), cmd)))
      && Written(r.out) == [Wire.RPL.NickInUse]
  {
    assert Upper("NICK") == "NICK";
    var r := HandleCommand(w, cmd, ans);
    assert r.out == r.out[..2] + [Write(Wire.RPL.NickInUse)];
    assert r.out[..2] == [r.out[0]] + [r.out[1]];
    WrittenAppend(r.out[..2], [Write(Wire.RPL.NickInUse)]);
    WrittenAppend([r.out[0]], [r.out[1]]);
  }

  /** After a successful JOIN, joining the same channel again is a no-op. */
  lemma JoinTwiceSameAsOnce(w: Worker, data: UserData, name: string, ans: Answers)
    requires Valid(w) && ans.channel.Ok? && ans.me.Ok? && ans.slot.Some?
    ensures var r1 := Join(w, data, name, ans);
      Join(r1.w, data, name, ans) == Step(r1.w, [], false)
  {
    var r1 := Join(w, data, name, ans);
    if !HasName(w.channels, name) {
      assert r1.w.channels[|w.channels|].name == name;
    }
  }

  /** A successful JOIN followed by a PART of the same channel restores the
      channel list and sends that channel exactly one `Part`, for the slot
      it assigned, with the user's nick and the reason given. */
  lemma JoinThenPart(w: Worker, data: UserData, name: string, why: seq<string>, ans: Answers)
    requires Valid(w) && !HasName(w.channels, name)
    requires ans.channel.Ok? && ans.me.Ok? && ans.slot.Some?
    ensures var r1 := Join(w, data, name, ans);
      var r2 := Part(r1.w, Cmd("PART", [name], why));
      && r2.w.channels == w.channels
      && r2.out == [ToChannel(ans.channel.value,
           ChannelMsg.Part(ans.slot.value, data.nick, Some(JoinWith(why, " "))))]
  {
    var w1 := Join(w, data, name, ans).w;
    PartOfAppended(w1, w.channels, StoredChannel(name, |w.chans|), why);
  }

  /** PART of a channel whose one entry is the last in the list drops that
      entry alone and parts it with the reason. */
  lemma PartOfAppended(w: Worker, cs: seq<StoredChannel>, x: StoredChannel, why: seq<string>)
    requires Valid(w) && w.channels == cs + [x]
    requires forall i :: 0 <= i < |cs| ==> cs[i].name != x.name
    ensures var r := Part(w, Cmd("PART", [x.name], why));
      && r.w.channels == cs
      && r.out == [Handles.PartMsg(Rc.Get(w.chans, x.entry).(partReason := Some(JoinWith(why, " "))))]
  {
    KeepAbsent(cs, x.name);
    KeepNamedSnoc(cs, x, x.name);
    var cmd := Cmd("PART", [x.name], why);
    assert PartTarget(cmd).0 == x.name;
    assert w.channels[|cs|] == x;
    assert HasName(w.channels, x.name);
  }

  /** After a PART of a held channel no entry of that name is left. */
  lemma PartForgets(w: Worker, cmd: LineFsm.ParsedCommand)
    requires Valid(w) && (|cmd.params| == 0 ==> |cmd.trailing| > 0)
    ensures !HasName(Part(w, cmd).w.channels, PartTarget(cmd).0)
  {
    var name := PartTarget(cmd).0;
    var r := Part(w, cmd);
    if HasName(w.channels, name) {
      assert r.w.channels == Keep(w.channels, name);
    }
  }
}
