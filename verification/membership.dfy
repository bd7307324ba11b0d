/** The list of joined channels that a user worker, a virtual user and a
    virtual-user worker each keep (`StoredChannel` in
    `components/user/user_thread.rs`, `components/server/virtual_user.rs`
    and `components/server/virtual_user_thread.rs`), and the `Vec`
    operations they apply to it. */
module Membership {
  import opened Base
  import opened Messages
  import Rc
  import Handles

  datatype StoredChannel = StoredChannel(name: string, entry: Handles.ChannelEntry)

  /** Index of the first stored channel called `name` (`iter().find`). */
  function FindName(chs: seq<StoredChannel>, name: string): (r: Option<nat>)
    ensures r.Some? ==> r.value < |chs| && chs[r.value].name == name
    ensures r.Some? ==> forall i :: 0 <= i < r.value ==> chs[i].name != name
    ensures r.None? <==> forall i :: 0 <= i < |chs| ==> chs[i].name != name
  {
    if |chs| == 0 then None
    else if chs[0].name == name then Some(0)
    else match FindName(chs[1..], name)
      case None => None
      case Some(k) => Some(k + 1)
  }

  predicate HasName(chs: seq<StoredChannel>, name: string) {
    exists i :: 0 <= i < |chs| && chs[i].name == name
  }

  lemma FindNameIff(chs: seq<StoredChannel>, name: string)
    ensures FindName(chs, name).Some? <==> HasName(chs, name)
  {
  }

  /** `Vec::swap_remove`: the last element takes the place of the removed one. */
  function SwapRemove<T>(s: seq<T>, i: nat): (r: seq<T>)
    requires i < |s|
    ensures |r| == |s| - 1
    ensures multiset(r) + multiset{s[i]} == multiset(s)
    ensures forall k :: 0 <= k < |r| && k != i ==> r[k] == s[k]
    ensures i < |r| ==> r[i] == s[|s| - 1]
  {
    var last := |s| - 1;
    if i == last then
      assert s == s[..last] + [s[last]];
      s[..last]
    else
      var r := s[..last][i := s[last]];
      assert s == s[..i] + [s[i]] + s[i + 1..last] + [s[last]];
      assert r == s[..i] + [s[last]] + s[i + 1..last];
      r
  }

  /** The entries whose name differs, in their order (the `drain` and
      `filter` of a PART). */
  function Keep(chs: seq<StoredChannel>, name: string): (r: seq<StoredChannel>)
    ensures |r| <= |chs|
    ensures forall i :: 0 <= i < |r| ==> r[i].name != name && r[i] in chs
    ensures forall i :: 0 <= i < |chs| && chs[i].name != name ==> chs[i] in r
  {
    if |chs| == 0 then []
    else if chs[0].name == name then Keep(chs[1..], name)
    else [chs[0]] + Keep(chs[1..], name)
  }

  /** The entries with that name, in their order: the ones a PART drops. */
  function Named(chs: seq<StoredChannel>, name: string): (r: seq<StoredChannel>)
    ensures |r| <= |chs|
    ensures forall i :: 0 <= i < |r| ==> r[i].name == name && r[i] in chs
    ensures forall i :: 0 <= i < |chs| && chs[i].name == name ==> chs[i] in r
  {
    if |chs| == 0 then []
    else if chs[0].name == name then [chs[0]] + Named(chs[1..], name)
    else Named(chs[1..], name)
  }

  /** Splitting by name loses and invents nothing. */
  lemma {:induction false} KeepNamedPartition(chs: seq<StoredChannel>, name: string)
    ensures multiset(Keep(chs, name)) + multiset(Named(chs, name)) == multiset(chs)
    ensures |Keep(chs, name)| + |Named(chs, name)| == |chs|
  {
    if |chs| > 0 {
      KeepNamedPartition(chs[1..], name);
      assert chs == [chs[0]] + chs[1..];
    }
  }

  /** A name that is not stored is kept whole. */
  lemma {:induction false} KeepAbsent(chs: seq<StoredChannel>, name: string)
    requires forall i :: 0 <= i < |chs| ==> chs[i].name != name
    ensures Keep(chs, name) == chs && Named(chs, name) == []
  {
    if |chs| > 0 {
      assert forall i :: 0 <= i < |chs| - 1 ==> chs[1..][i] == chs[i + 1];
      KeepAbsent(chs[1..], name);
      assert chs[0].name != name;
      assert Keep(chs, name) == [chs[0]] + Keep(chs[1..], name);
      assert chs == [chs[0]] + chs[1..];
    }
  }

  function Entries(chs: seq<StoredChannel>): (r: seq<Handles.ChannelEntry>)
    ensures |r| == |chs| && forall i :: 0 <= i < |chs| ==> r[i] == chs[i].entry
  {
    seq(|chs|, i requires 0 <= i < |chs| => chs[i].entry)
  }

  /** The list holds the only handle on each of its entries: distinct, live,
      one holder each. */
  predicate Owned(chs: seq<StoredChannel>, h: Handles.ChannelHeap) {
    && (forall i :: 0 <= i < |chs| ==> Rc.Live(h, chs[i].entry) && h[chs[i].entry].value.count == 1)
    && (forall i, j :: 0 <= i < j < |chs| ==> chs[i].entry != chs[j].entry)
  }

  /** Adding a freshly allocated entry keeps ownership. */
  lemma OwnedPush(chs: seq<StoredChannel>, h: Handles.ChannelHeap, h1: Handles.ChannelHeap, name: string)
    requires Owned(chs, h)
    requires |h1| == |h| + 1 && h1[..|h|] == h && Rc.Live(h1, |h|) && h1[|h|].value.count == 1
    ensures Owned(chs + [StoredChannel(name, |h|)], h1)
  {
    var chs1 := chs + [StoredChannel(name, |h|)];
    forall i | 0 <= i < |chs1| ensures Rc.Live(h1, chs1[i].entry) && h1[chs1[i].entry].value.count == 1 {
      if i < |chs| {
        assert h1[chs[i].entry] == h[chs[i].entry];
      }
    }
  }

  /** Changing the payload of a cell keeps ownership. */
  lemma OwnedSet(chs: seq<StoredChannel>, h: Handles.ChannelHeap, k: nat, v: Handles.StoredChannelId)
    requires Owned(chs, h) && Rc.Live(h, k)
    ensures Owned(chs, Rc.Set(h, k, v))
  {
    var h1 := Rc.Set(h, k, v);
    forall i | 0 <= i < |chs| ensures Rc.Live(h1, chs[i].entry) && h1[chs[i].entry].value.count == 1 {
      if chs[i].entry != k { assert h1[chs[i].entry] == h[chs[i].entry]; }
    }
  }

  /** Freeing a cell that none of the list's entries uses keeps ownership. */
  lemma OwnedFreeOther(chs: seq<StoredChannel>, h: Handles.ChannelHeap, h1: Handles.ChannelHeap, k: nat)
    requires Owned(chs, h)
    requires |h1| == |h| && forall j :: 0 <= j < |h| && j != k ==> h1[j] == h[j]
    requires forall i :: 0 <= i < |chs| ==> chs[i].entry != k
    ensures Owned(chs, h1)
  {
    forall i | 0 <= i < |chs| ensures Rc.Live(h1, chs[i].entry) && h1[chs[i].entry].value.count == 1 {
      assert h1[chs[i].entry] == h[chs[i].entry];
    }
  }

  /** A sub-list of an owned list is owned. */
  lemma OwnedSubset(chs: seq<StoredChannel>, sub: seq<StoredChannel>, h: Handles.ChannelHeap)
    requires Owned(chs, h)
    requires forall i :: 0 <= i < |sub| ==> sub[i] in chs
    requires forall i, j :: 0 <= i < j < |sub| ==> sub[i].entry != sub[j].entry
    ensures Owned(sub, h)
  {
    forall i | 0 <= i < |sub| ensures Rc.Live(h, sub[i].entry) && h[sub[i].entry].value.count == 1 {
      var k :| 0 <= k < |chs| && chs[k] == sub[i];
    }
  }

  lemma OwnedTail(chs: seq<StoredChannel>, h: Handles.ChannelHeap)
    requires Owned(chs, h) && |chs| > 0
    ensures Owned(chs[1..], h)
  {
    assert forall i :: 0 <= i < |chs| - 1 ==> chs[1..][i] == chs[i + 1];
  }

  /** An owned list with one more owned entry in front. */
  lemma OwnedCons(x: StoredChannel, rest: seq<StoredChannel>, h: Handles.ChannelHeap)
    requires Owned(rest, h) && Rc.Live(h, x.entry) && h[x.entry].value.count == 1
    requires forall k :: 0 <= k < |rest| ==> rest[k].entry != x.entry
    ensures Owned([x] + rest, h)
  {
    var l := [x] + rest;
    assert forall i :: 1 <= i < |l| ==> l[i] == rest[i - 1];
  }

  /** Entries taken from the tail of an owned list never share the first
      entry's handle. */
  lemma FirstNotLater(chs: seq<StoredChannel>, h: Handles.ChannelHeap, rest: seq<StoredChannel>)
    requires Owned(chs, h) && |chs| > 0
    requires forall k :: 0 <= k < |rest| ==> rest[k] in chs[1..]
    ensures forall k :: 0 <= k < |rest| ==> rest[k].entry != chs[0].entry
  {
    forall k | 0 <= k < |rest| ensures rest[k].entry != chs[0].entry {
      var m :| 0 <= m < |chs[1..]| && chs[1..][m] == rest[k];
      assert chs[m + 1] == rest[k];
    }
  }

  /** The entries a PART drops are owned by themselves. */
  lemma {:induction false} NamedOwned(chs: seq<StoredChannel>, name: string, h: Handles.ChannelHeap)
    requires Owned(chs, h)
    ensures Owned(Named(chs, name), h)
  {
    if |chs| > 0 {
      OwnedTail(chs, h);
      NamedOwned(chs[1..], name, h);
      var rest := Named(chs[1..], name);
      if chs[0].name == name {
        FirstNotLater(chs, h, rest);
        OwnedCons(chs[0], rest, h);
        assert Named(chs, name) == [chs[0]] + rest;
      } else {
        assert Named(chs, name) == rest;
      }
    }
  }

  /** An entry kept by a PART is not one of the entries it drops. */
  lemma KeptNotNamed(chs: seq<StoredChannel>, name: string, h: Handles.ChannelHeap, i: nat)
    requires Owned(chs, h) && i < |chs| && chs[i].name != name
    ensures chs[i].entry !in Entries(Named(chs, name))
  {
    var named := Named(chs, name);
    forall k | 0 <= k < |named| ensures named[k].entry != chs[i].entry {
      var m :| 0 <= m < |chs| && chs[m] == named[k];
      assert m != i;
    }
  }

  /** What a PART keeps is still owned once the dropped entries are gone. */
  lemma {:induction false} KeepOwnedStep(chs: seq<StoredChannel>, name: string, h: Handles.ChannelHeap, h1: Handles.ChannelHeap)
    requires Owned(chs, h) && |h1| == |h|
    requires forall i :: 0 <= i < |chs| && chs[i].name != name ==> h1[chs[i].entry] == h[chs[i].entry]
    ensures Owned(Keep(chs, name), h1)
  {
    if |chs| > 0 {
      OwnedTail(chs, h);
      assert forall i :: 0 <= i < |chs| - 1 ==> chs[1..][i] == chs[i + 1];
      KeepOwnedStep(chs[1..], name, h, h1);
      var rest := Keep(chs[1..], name);
      if chs[0].name != name {
        FirstNotLater(chs, h, rest);
        assert h1[chs[0].entry] == h[chs[0].entry];
        OwnedCons(chs[0], rest, h1);
        assert Keep(chs, name) == [chs[0]] + rest;
      } else {
        assert Keep(chs, name) == rest;
      }
    }
  }

  lemma KeepOwned(chs: seq<StoredChannel>, name: string, h: Handles.ChannelHeap, h1: Handles.ChannelHeap)
    requires Owned(chs, h) && |h1| == |h|
    requires forall j :: 0 <= j < |h| && j !in Entries(Named(chs, name)) ==> h1[j] == h[j]
    ensures Owned(Keep(chs, name), h1)
  {
    forall i | 0 <= i < |chs| && chs[i].name != name ensures h1[chs[i].entry] == h[chs[i].entry] {
      KeptNotNamed(chs, name, h, i);
    }
    KeepOwnedStep(chs, name, h, h1);
  }

  /** After `swap_remove` and the drop of the removed entry, the list is
      still owned. */
  lemma OwnedSwapRemove(chs: seq<StoredChannel>, h: Handles.ChannelHeap, h1: Handles.ChannelHeap, i: nat)
    requires Owned(chs, h) && i < |chs| && |h1| == |h|
    requires forall j :: 0 <= j < |h| && j != chs[i].entry ==> h1[j] == h[j]
    ensures Owned(SwapRemove(chs, i), h1)
  {
    var r := SwapRemove(chs, i);
    var last := |chs| - 1;
    assert forall k :: 0 <= k < |r| ==> r[k] == chs[if k == i then last else k];
    forall k | 0 <= k < |r| ensures Rc.Live(h1, r[k].entry) && h1[r[k].entry].value.count == 1 {
      var src := if k == i then last else k;
      assert r[k] == chs[src] && src != i;
    }
  }

  /** Keep and Named of a list with one more entry at the end. */
  lemma {:induction false} KeepNamedSnoc(chs: seq<StoredChannel>, x: StoredChannel, name: string)
    ensures Keep(chs + [x], name) == Keep(chs, name) + (if x.name == name then [] else [x])
    ensures Named(chs + [x], name) == Named(chs, name) + (if x.name == name then [x] else [])
  {
    if |chs| > 0 {
      assert (chs + [x])[1..] == chs[1..] + [x];
      KeepNamedSnoc(chs[1..], x, name);
    } else {
      assert chs + [x] == [x];
    }
  }

  /** Dropping a user worker, local or remote: its fields go in declaration
      order, so the directory hears `DestroyUser` for the sole handle on its
      entry first, then each stored channel entry sends its `Part`, in list
      order, with the stored mask and pending reason. */
  function DropWorker(dirs: Handles.DirectoryHeap, dirEntry: Handles.DirectoryEntry,
                      chans: Handles.ChannelHeap, chs: seq<StoredChannel>): (r: seq<Envelope>)
    requires Owned(chs, chans)
    requires Rc.Live(dirs, dirEntry) && dirs[dirEntry].value.count == 1
    ensures |r| == 1 + |chs|
    ensures r[0] == ToDirectory(DestroyUser(Rc.Get(dirs, dirEntry).id))
    ensures forall i :: 0 <= i < |chs| ==> r[1 + i] == Handles.PartMsg(Rc.Get(chans, chs[i].entry))
  {
    var (_, destroyed) := Handles.ReleaseDirectoryEntry(dirs, dirEntry);
    var (_, parted) := DropAll(chans, chs);
    destroyed + parted
  }

  /** Dropping each stored entry in list order. */
  function DropAll(h: Handles.ChannelHeap, chs: seq<StoredChannel>): (r: (Handles.ChannelHeap, seq<Envelope>))
    requires Owned(chs, h)
    ensures |r.0| == |h| && |r.1| == |chs|
    ensures forall i :: 0 <= i < |chs| ==> r.1[i] == Handles.PartMsg(Rc.Get(h, chs[i].entry))
    ensures forall i :: 0 <= i < |chs| ==> r.0[chs[i].entry].None?
    ensures forall j :: 0 <= j < |h| && j !in Entries(chs) ==> r.0[j] == h[j]
    decreases |chs|
  {
    if |chs| == 0 then (h, [])
    else
      var e := chs[0].entry;
      var (h1, o) := Handles.ReleaseChannelEntry(h, e);
      OwnedTail(chs, h);
      OwnedFreeOther(chs[1..], h, h1, e);
      var (h2, os) := DropAll(h1, chs[1..]);
      DropAllStep(h, chs, h1, o, h2, os);
      (h2, o + os)
  }

  /** The step of `DropAll`: the first entry's release followed by the
      release of the rest. */
  lemma DropAllStep(h: Handles.ChannelHeap, chs: seq<StoredChannel>, h1: Handles.ChannelHeap, o: seq<Envelope>,
                    h2: Handles.ChannelHeap, os: seq<Envelope>)
    requires Owned(chs, h) && |chs| > 0
    requires (h1, o) == Handles.ReleaseChannelEntry(h, chs[0].entry)
    requires Owned(chs[1..], h1)
    requires |h2| == |h1| && |os| == |chs| - 1
    requires forall i :: 0 <= i < |chs| - 1 ==> os[i] == Handles.PartMsg(Rc.Get(h1, chs[1..][i].entry))
    requires forall i :: 0 <= i < |chs| - 1 ==> h2[chs[1..][i].entry].None?
    requires forall j :: 0 <= j < |h1| && j !in Entries(chs[1..]) ==> h2[j] == h1[j]
    ensures |h2| == |h| && |o + os| == |chs|
    ensures forall i :: 0 <= i < |chs| ==> (o + os)[i] == Handles.PartMsg(Rc.Get(h, chs[i].entry))
    ensures forall i :: 0 <= i < |chs| ==> h2[chs[i].entry].None?
    ensures forall j :: 0 <= j < |h| && j !in Entries(chs) ==> h2[j] == h[j]
  {
    var e := chs[0].entry;
    assert o == [Handles.PartMsg(Rc.Get(h, e))] && h1[e].None?;
    assert Entries(chs) == [e] + Entries(chs[1..]);
    forall i | 1 <= i < |chs|
      ensures (o + os)[i] == Handles.PartMsg(Rc.Get(h, chs[i].entry))
      ensures h2[chs[i].entry].None?
    {
      assert chs[1..][i - 1] == chs[i];
      assert chs[i].entry != e;
    }
    forall j | 0 <= j < |h| && j !in Entries(chs)
      ensures h2[j] == h[j]
    {
      assert Entries(chs)[0] == e;
      assert j !in Entries(chs[1..]);
    }
  }
}
