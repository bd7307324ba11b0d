/** The local stand-ins for users of a linked server: `VirtualUser`
    (`components/server/virtual_user.rs`), owned by the link worker, and
    `VirtualUserWorker` (`components/server/virtual_user_thread.rs`), a
    proxy with an actor of its own.

    Both register with the directory, claim the remote nick, and keep a
    list of joined channels. A failed lookup or join is unimplemented in
    both, so the answers to a join are always the successful ones. */
module RemoteUser {
  import opened Base
  import opened Messages
  import Masks
  import Rc
  import Handles
  import opened Membership

  /** The successful answers a join collects: the channel the directory
      names, this user's own handle, and the slot the channel assigns. */
  datatype JoinAnswer = JoinAnswer(channel: ChannelAddr, me: UserAddr, slot: ChannelId)

  /** The join both proxies perform: ask the channel, label the new entry
      with the nick, and append it. There is no check for a channel already
      held. */
  function JoinStored(h: Handles.ChannelHeap, chs: seq<StoredChannel>, nick: string, name: string, a: JoinAnswer)
    : (r: (Handles.ChannelHeap, seq<StoredChannel>, seq<Envelope>))
    ensures r.2 == [ToChannel(a.channel, ChannelMsg.Join(a.me))]
    ensures r.1 == chs + [StoredChannel(name, |h|)]
    ensures |r.0| == |h| + 1 && r.0[..|h|] == h
    ensures Rc.Live(r.0, |h|) && r.0[|h|].value.count == 1
    ensures Rc.Get(r.0, |h|) == Handles.StoredChannelId(a.channel, None, nick, a.slot)
    ensures Owned(chs, h) ==> Owned(r.1, r.0)
  {
    var (h1, res, out) := Handles.ChannelJoin(h, a.channel, a.me, Some(a.slot));
    var h2 := Handles.UpdateMask(h1, |h|, nick);
    assert h2[..|h|] == h by {
      assert forall j :: 0 <= j < |h| ==> h2[j] == h1[j] == h[j];
    }
    assert Owned(chs, h) ==> Owned(chs + [StoredChannel(name, |h|)], h2) by {
      if Owned(chs, h) { OwnedPush(chs, h, h2, name); }
    }
    (h2, chs + [StoredChannel(name, |h|)], out)
  }

  /** The messages that register a proxy and claim its nick, in order. */
  function Claim(self: UserAddr, id: DirectoryId, nick: string): seq<Envelope> {
    [ToDirectory(DirectoryMsg.NewUser(self)), ToDirectory(DirectoryMsg.UpdateNick(id, nick))]
  }

  // ---------------------------------------------------------------------
  // VirtualUser

  /** `VirtualUser`: its user address, directory entry, channels and mask. */
  datatype VUser = VUser(self: UserAddr, dirEntry: Handles.DirectoryEntry, channels: seq<StoredChannel>, mask: Masks.Mask)

  /** `VirtualUser::new`: register (the directory answers `id`), then claim
      the mask's nick through the new entry. Both `unwrap`s panic on
      failure, so only the successful path is modelled. */
  function NewVUser(dirs: Handles.DirectoryHeap, self: UserAddr, id: DirectoryId, mask: Masks.Mask)
    : (r: (Handles.DirectoryHeap, VUser, seq<Envelope>))
    ensures r.2 == Claim(self, id, mask.nick)
    ensures r.1 == VUser(self, |dirs|, [], mask)
    ensures |r.0| == |dirs| + 1 && r.0[..|dirs|] == dirs
    ensures Rc.Live(r.0, |dirs|) && r.0[|dirs|].value.count == 1 && Rc.Get(r.0, |dirs|).id == id
  {
    var (dirs1, entry, registered) := Handles.NewUser(dirs, self, Some(id));
    var (_, claimed) := Handles.DirUpdateNick(dirs1, entry.value, mask.nick, Ok(()));
    (dirs1, VUser(self, entry.value, [], mask), registered + claimed)
  }

  /** `VirtualUser::get_mask`. */
  function GetMask(v: VUser): Masks.Mask {
    v.mask
  }

  /** `VirtualUser::join`. */
  function VUserJoin(h: Handles.ChannelHeap, v: VUser, chan: string, a: JoinAnswer): (r: (Handles.ChannelHeap, VUser, seq<Envelope>))
    ensures r.1 == v.(channels := v.channels + [StoredChannel(chan, |h|)])
    ensures r.2 == [ToChannel(a.channel, ChannelMsg.Join(a.me))]
    ensures |r.0| == |h| + 1 && r.0[..|h|] == h
    ensures Rc.Live(r.0, |h|) && Rc.Get(r.0, |h|) == Handles.StoredChannelId(a.channel, None, v.mask.nick, a.slot)
  {
    var (h1, chs, out) := JoinStored(h, v.channels, v.mask.nick, chan, a);
    (h1, v.(channels := chs), out)
  }

  /** Joining never changes what `get_mask` reports. */
  lemma JoinKeepsMask(h: Handles.ChannelHeap, v: VUser, chan: string, a: JoinAnswer)
    ensures GetMask(VUserJoin(h, v, chan, a).1) == GetMask(v)
  {
  }

  /** Joining the same channel twice keeps two entries for it. */
  lemma JoinTwiceKeepsTwo(h: Handles.ChannelHeap, v: VUser, chan: string, a: JoinAnswer, b: JoinAnswer)
    requires forall i :: 0 <= i < |v.channels| ==> v.channels[i].name != chan
    ensures var (h1, v1, _) := VUserJoin(h, v, chan, a);
      var (_, v2, _) := VUserJoin(h1, v1, chan, b);
      Named(v2.channels, chan) == [StoredChannel(chan, |h|), StoredChannel(chan, |h| + 1)]
  {
    var (h1, v1, _) := VUserJoin(h, v, chan, a);
    KeepAbsent(v.channels, chan);
    KeepNamedSnoc(v.channels, StoredChannel(chan, |h|), chan);
    KeepNamedSnoc(v1.channels, StoredChannel(chan, |h1|), chan);
  }

  // ---------------------------------------------------------------------
  // VirtualUserWorker

  /** `VirtualUserWorker`, with the heaps of the handles it holds. */
  datatype VWorker = VWorker(
    self: UserAddr,
    mask: Masks.Mask,
    dirEntry: Handles.DirectoryEntry,
    channels: seq<StoredChannel>,
    chans: Handles.ChannelHeap,
    dirs: Handles.DirectoryHeap)

  datatype VStep = VStep(w: VWorker, out: seq<Envelope>, stop: bool)

  /** The worker holds the only handle on its directory entry and on each
      stored channel entry. */
  predicate Valid(w: VWorker) {
    && Owned(w.channels, w.chans)
    && Rc.Live(w.dirs, w.dirEntry) && w.dirs[w.dirEntry].value.count == 1
  }

  /** `VirtualUserThreadFactory::new` then `VirtualUserWorker::new`: the
      factory registers the user, the worker claims the nick before it
      handles any message. */
  function SpawnWorker(self: UserAddr, id: DirectoryId, mask: Masks.Mask): (r: (VWorker, seq<Envelope>))
    ensures r.1 == Claim(self, id, mask.nick)
    ensures Valid(r.0) && r.0.mask == mask && r.0.channels == [] && Rc.Get(r.0.dirs, r.0.dirEntry).id == id
  {
    var (dirs, entry, registered) := Handles.NewUser([], self, Some(id));
    var (_, claimed) := Handles.DirUpdateNick(dirs, entry.value, mask.nick, Ok(()));
    (VWorker(self, mask, entry.value, [], [], dirs), registered + claimed)
  }

  /** `handle_user_msg`. Relayed private messages are unimplemented, so
      they are excluded. */
  function HandleUserMsg(w: VWorker, m: UserMsg): (r: VStep)
    requires !m.Privmsg? && !m.PrivmsgChan?
    ensures r.w == w
    ensures r.stop <==> m.Exit?
    ensures m.GetMask? ==> r.out == [ReplyMask(Ok(w.mask))]
    ensures !m.GetMask? ==> r.out == []
  {
    match m
    case GetMask => VStep(w, [ReplyMask(Ok(w.mask))], false)
    case Exit => VStep(w, [], true)
    case _ => VStep(w, [], false)
  }

  /** `VirtualUserWorker::join`. */
  function WorkerJoin(w: VWorker, chan: string, a: JoinAnswer): (r: VStep)
    requires Valid(w)
    ensures Valid(r.w) && !r.stop
    ensures r.w == w.(channels := w.channels + [StoredChannel(chan, |w.chans|)], chans := r.w.chans)
    ensures r.out == [ToChannel(a.channel, ChannelMsg.Join(a.me))]
    ensures |r.w.chans| == |w.chans| + 1 && r.w.chans[..|w.chans|] == w.chans
    ensures Rc.Live(r.w.chans, |w.chans|)
    ensures Rc.Get(r.w.chans, |w.chans|) == Handles.StoredChannelId(a.channel, None, w.mask.nick, a.slot)
  {
    var (h1, chs, out) := JoinStored(w.chans, w.channels, w.mask.nick, chan, a);
    VStep(w.(channels := chs, chans := h1), out, false)
  }

  /** `VirtualUserWorker::part`: the first entry of that name is
      swap-removed and dropped, which parts the channel; no entry, no
      effect. */
  function WorkerPart(w: VWorker, chan: string): (r: VStep)
    requires Valid(w)
    ensures Valid(r.w) && !r.stop
    ensures !HasName(w.channels, chan) ==> r == VStep(w, [], false)
    ensures HasName(w.channels, chan) ==>
      var i := FindName(w.channels, chan).value;
      && r.w == w.(channels := SwapRemove(w.channels, i), chans := r.w.chans)
      && r.out == [Handles.PartMsg(Rc.Get(w.chans, w.channels[i].entry))]
  {
    FindNameIff(w.channels, chan);
    match FindName(w.channels, chan)
    case None => VStep(w, [], false)
    case Some(i) =>
      var (h1, dropped) := Handles.ReleaseChannelEntry(w.chans, w.channels[i].entry);
      OwnedSwapRemove(w.channels, w.chans, h1, i);
      VStep(w.(channels := SwapRemove(w.channels, i), chans := h1), dropped, false)
  }

  /** `handle_vuser_msg`. */
  function HandleVUserMsg(w: VWorker, m: VUserMsg, a: JoinAnswer): (r: VStep)
    requires Valid(w)
    ensures Valid(r.w)
    ensures r.stop <==> m.Exit?
    ensures m.Join? ==> r == WorkerJoin(w, m.chan, a)
    ensures m.Part? ==> r == WorkerPart(w, m.chan)
    ensures m.Exit? ==> r.w == w && r.out == []
  {
    match m
    case Join(chan) => WorkerJoin(w, chan, a)
    case Part(chan) => WorkerPart(w, chan)
    case Exit => VStep(w, [], true)
  }

  /** A join followed by a part of the same, previously absent, channel
      restores the channel list and parts the channel once, under the nick,
      with no reason. */
  lemma WorkerJoinThenPart(w: VWorker, chan: string, a: JoinAnswer)
    requires Valid(w) && !HasName(w.channels, chan)
    ensures var r1 := HandleVUserMsg(w, VUserMsg.Join(chan), a);
      var r2 := HandleVUserMsg(r1.w, VUserMsg.Part(chan), a);
      && r2.w.channels == w.channels
      && r2.out == [ToChannel(a.channel, ChannelMsg.Part(a.slot, w.mask.nick, None))]
  {
    var r1 := HandleVUserMsg(w, VUserMsg.Join(chan), a);
    assert forall i :: 0 <= i < |w.channels| ==> w.channels[i].name != chan;
    assert r1.w.channels[|w.channels|].name == chan;
    assert FindName(r1.w.channels, chan) == Some(|w.channels|);
  }
}
