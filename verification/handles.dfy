/** The capability handles of `components/channel_traits`: a `ChannelEntry`
    is a shared handle on a channel membership, a `DirectoryEntry` a shared
    handle on a directory registration. Both live in an `Rc` heap; the last
    release of a `ChannelEntry` sends the channel one `Part`, the last
    release of a `DirectoryEntry` sends the directory one `DestroyUser`. */
module Handles {
  import opened Base
  import opened Messages
  import Rc

  /** `channel_traits::Error`. */
  datatype ChanError = NickCollision | SendError | RecvError

  // ---------------------------------------------------------------------
  // ChannelEntry

  /** `StoredChannelId`: the channel, the reason to give when parting, the
      mask to announce and the slot the channel assigned. */
  datatype StoredChannelId = StoredChannelId(
    channel: ChannelAddr,
    partReason: Option<string>,
    mask: string,
    id: ChannelId)

  type ChannelHeap = Rc.Heap<StoredChannelId>

  /** A handle: the key of its shared cell. */
  type ChannelEntry = nat

  /** `ChannelEntry::new`: no pending reason and an empty mask. */
  function NewChannelEntry(h: ChannelHeap, channel: ChannelAddr, id: ChannelId): (r: (ChannelHeap, ChannelEntry))
    ensures Rc.Live(r.0, r.1) && r.0[r.1].value.count == 1
    ensures Rc.Get(r.0, r.1) == StoredChannelId(channel, None, "", id)
    ensures |r.0| == |h| + 1 && r.0[..|h|] == h
  {
    Rc.Alloc(h, StoredChannelId(channel, None, "", id))
  }

  /** `Channel::join`: sends `Join(user)` and wraps the id of the reply in a
      new entry. `reply` is the channel's answer; `None` stands for a
      failed request, which allocates nothing. */
  function ChannelJoin(h: ChannelHeap, channel: ChannelAddr, user: UserAddr, reply: Option<ChannelId>)
    : (r: (ChannelHeap, Result<ChannelEntry, ChanError>, seq<Envelope>))
    ensures r.2 == [ToChannel(channel, ChannelMsg.Join(user))]
    ensures reply.None? ==> r.0 == h && r.1 == Err(RecvError)
    ensures reply.Some? ==>
      && r.1 == Ok(|h|) && Rc.Live(r.0, |h|) && r.0[|h|].value.count == 1
      && Rc.Get(r.0, |h|) == StoredChannelId(channel, None, "", reply.value)
      && |r.0| == |h| + 1 && r.0[..|h|] == h
  {
    var out := [ToChannel(channel, ChannelMsg.Join(user))];
    match reply
    case None => (h, Err(RecvError), out)
    case Some(id) =>
      var (h1, e) := NewChannelEntry(h, channel, id);
      (h1, Ok(e), out)
  }

  /** `ChannelEntry::update_mask`. */
  function UpdateMask(h: ChannelHeap, e: ChannelEntry, mask: string): (r: ChannelHeap)
    requires Rc.Live(h, e)
    ensures Rc.Live(r, e) && Rc.Get(r, e) == Rc.Get(h, e).(mask := mask)
    ensures r[e].value.count == h[e].value.count
    ensures |r| == |h| && forall j :: 0 <= j < |h| && j != e ==> r[j] == h[j]
  {
    Rc.Set(h, e, Rc.Get(h, e).(mask := mask))
  }

  /** `ChannelEntry::part_reason`. */
  function SetPartReason(h: ChannelHeap, e: ChannelEntry, reason: Option<string>): (r: ChannelHeap)
    requires Rc.Live(h, e)
    ensures Rc.Live(r, e) && Rc.Get(r, e) == Rc.Get(h, e).(partReason := reason)
    ensures r[e].value.count == h[e].value.count
    ensures |r| == |h| && forall j :: 0 <= j < |h| && j != e ==> r[j] == h[j]
  {
    Rc.Set(h, e, Rc.Get(h, e).(partReason := reason))
  }

  /** `ChannelEntry::privmsg`: a message to the entry's channel, tagged with
      the entry's slot. */
  function EntryPrivmsg(h: ChannelHeap, e: ChannelEntry, mask: string, msg: string): (r: Envelope)
    requires Rc.Live(h, e)
    ensures r.ToChannel? && r.channel == Rc.Get(h, e).channel
    ensures r.cmsg == ChannelMsg.Privmsg(Rc.Get(h, e).id, mask, msg)
  {
    var s := Rc.Get(h, e);
    ToChannel(s.channel, ChannelMsg.Privmsg(s.id, mask, msg))
  }

  /** `ChannelEntry::who`. */
  function EntryWho(h: ChannelHeap, e: ChannelEntry): (r: Envelope)
    requires Rc.Live(h, e)
    ensures r.ToChannel? && r.channel == Rc.Get(h, e).channel && r.cmsg == Who(Rc.Get(h, e).id)
  {
    var s := Rc.Get(h, e);
    ToChannel(s.channel, Who(s.id))
  }

  /** What dropping the last holder sends (`Drop for StoredChannelId` and
      `Channel::part`). */
  function PartMsg(s: StoredChannelId): Envelope {
    ToChannel(s.channel, ChannelMsg.Part(s.id, s.mask, s.partReason))
  }

  /** Dropping one holder of a `ChannelEntry`. */
  function ReleaseChannelEntry(h: ChannelHeap, e: ChannelEntry): (r: (ChannelHeap, seq<Envelope>))
    requires Rc.Live(h, e)
    ensures |r.0| == |h| && forall j :: 0 <= j < |h| && j != e ==> r.0[j] == h[j]
    ensures h[e].value.count == 1 ==> r.1 == [PartMsg(Rc.Get(h, e))] && r.0[e].None?
    ensures h[e].value.count > 1 ==> r.1 == [] && Rc.Live(r.0, e) && Rc.Get(r.0, e) == Rc.Get(h, e)
  {
    var (h1, freed) := Rc.Release(h, e);
    match freed
    case None => (h1, [])
    case Some(s) => (h1, [PartMsg(s)])
  }

  /** Dropping one entry leaves every other live entry live. */
  lemma ReleaseKeepsOthers(h: ChannelHeap, e: ChannelEntry, es: seq<ChannelEntry>)
    requires Rc.Live(h, e)
    requires forall i :: 0 <= i < |es| ==> Rc.Live(h, es[i]) && es[i] != e
    ensures forall i :: 0 <= i < |es| ==> Rc.Live(ReleaseChannelEntry(h, e).0, es[i])
  {
    var h1 := ReleaseChannelEntry(h, e).0;
    forall i | 0 <= i < |es| ensures Rc.Live(h1, es[i]) {
      assert h1[es[i]] == h[es[i]];
    }
  }

  /** Every clone released, with the mask and reason last written through
      any of them: exactly one `Part` is sent, carrying the entry's slot,
      that mask and that reason, at the last release. */
  lemma LastReleaseParts(h: ChannelHeap, e: ChannelEntry, mask: string, reason: Option<string>)
    requires Rc.Live(h, e)
    ensures var h1 := SetPartReason(UpdateMask(h, e, mask), e, reason);
      var (h2, outs) := Rc.ReleaseTimes(h1, e, h1[e].value.count);
      && outs[|outs| - 1] == Some(Rc.Get(h, e).(mask := mask, partReason := reason))
      && (forall i :: 0 <= i < |outs| - 1 ==> outs[i].None?)
      && PartMsg(outs[|outs| - 1].value)
         == ToChannel(Rc.Get(h, e).channel, ChannelMsg.Part(Rc.Get(h, e).id, mask, reason))
  {
    var h1 := SetPartReason(UpdateMask(h, e, mask), e, reason);
    Rc.ReleaseAllOnce(h1, e);
  }

  /** The reason written last is the one released, and `None` resets it. */
  lemma LastReasonWins(h: ChannelHeap, e: ChannelEntry, first: Option<string>, second: Option<string>)
    requires Rc.Live(h, e)
    ensures SetPartReason(SetPartReason(h, e, first), e, second) == SetPartReason(h, e, second)
  {
  }

  // ---------------------------------------------------------------------
  // DirectoryEntry

  /** `StoredDirectoryId`: the id the directory handed out. */
  datatype StoredDirectoryId = StoredDirectoryId(id: DirectoryId)

  type DirectoryHeap = Rc.Heap<StoredDirectoryId>
  type DirectoryEntry = nat

  /** `Directory::new_user`: sends `NewUser(user)` and wraps exactly the id
      of the reply in a new entry. */
  function NewUser(h: DirectoryHeap, user: UserAddr, reply: Option<DirectoryId>)
    : (r: (DirectoryHeap, Result<DirectoryEntry, ChanError>, seq<Envelope>))
    ensures r.2 == [ToDirectory(DirectoryMsg.NewUser(user))]
    ensures reply.None? ==> r.0 == h && r.1 == Err(RecvError)
    ensures reply.Some? ==>
      && r.1 == Ok(|h|) && Rc.Live(r.0, |h|) && r.0[|h|].value.count == 1
      && Rc.Get(r.0, |h|).id == reply.value
      && |r.0| == |h| + 1 && r.0[..|h|] == h
  {
    var out := [ToDirectory(DirectoryMsg.NewUser(user))];
    match reply
    case None => (h, Err(RecvError), out)
    case Some(id) =>
      var (h1, e) := Rc.Alloc(h, StoredDirectoryId(id));
      (h1, Ok(e), out)
  }

  /** `DirectoryEntry::update_nick`: sends `UpdateNick(stored id, nick)` and
      passes the directory's answer through unchanged. */
  function DirUpdateNick(h: DirectoryHeap, e: DirectoryEntry, nick: string, answer: Result<(), ChanError>)
    : (r: (Result<(), ChanError>, seq<Envelope>))
    requires Rc.Live(h, e)
    ensures r.0 == answer
    ensures r.1 == [ToDirectory(DirectoryMsg.UpdateNick(Rc.Get(h, e).id, nick))]
  {
    (answer, [ToDirectory(DirectoryMsg.UpdateNick(Rc.Get(h, e).id, nick))])
  }

  /** Dropping one holder of a `DirectoryEntry` (`Drop for
      StoredDirectoryId` and `Directory::destroy_user`). */
  function ReleaseDirectoryEntry(h: DirectoryHeap, e: DirectoryEntry): (r: (DirectoryHeap, seq<Envelope>))
    requires Rc.Live(h, e)
    ensures |r.0| == |h| && forall j :: 0 <= j < |h| && j != e ==> r.0[j] == h[j]
    ensures h[e].value.count == 1 ==> r.1 == [ToDirectory(DestroyUser(Rc.Get(h, e).id))] && r.0[e].None?
    ensures h[e].value.count > 1 ==> r.1 == [] && Rc.Live(r.0, e) && Rc.Get(r.0, e) == Rc.Get(h, e)
  {
    var (h1, freed) := Rc.Release(h, e);
    match freed
    case None => (h1, [])
    case Some(s) => (h1, [ToDirectory(DestroyUser(s.id))])
  }

  /** All clones of a directory entry share its id: a clone sends the same
      `UpdateNick` as the original. */
  lemma ClonesShareId(h: DirectoryHeap, e: DirectoryEntry, nick: string, answer: Result<(), ChanError>)
    requires Rc.Live(h, e)
    ensures DirUpdateNick(Rc.Clone(h, e), e, nick, answer) == DirUpdateNick(h, e, nick, answer)
  {
  }

  /** Releasing `n` clones of a directory entry, in order. */
  function ReleaseDirectoryTimes(h: DirectoryHeap, e: DirectoryEntry, n: nat): (r: (DirectoryHeap, seq<Envelope>))
    requires Rc.Live(h, e) && n <= h[e].value.count
    decreases n
  {
    if n == 0 then (h, [])
    else
      var (h1, out) := ReleaseDirectoryEntry(h, e);
      if n == 1 then (h1, out)
      else
        var (h2, outs) := ReleaseDirectoryTimes(h1, e, n - 1);
        (h2, out + outs)
  }

  /** Releasing every clone sends exactly one `DestroyUser(id)`; releasing
      fewer sends nothing. */
  lemma {:induction false} DestroyedOnce(h: DirectoryHeap, e: DirectoryEntry, n: nat)
    requires Rc.Live(h, e) && n <= h[e].value.count
    ensures n < h[e].value.count ==> ReleaseDirectoryTimes(h, e, n).1 == []
    ensures n == h[e].value.count ==> ReleaseDirectoryTimes(h, e, n).1 == [ToDirectory(DestroyUser(Rc.Get(h, e).id))]
    decreases n
  {
    if n > 1 {
      var (h1, out) := ReleaseDirectoryEntry(h, e);
      DestroyedOnce(h1, e, n - 1);
    }
  }
}
