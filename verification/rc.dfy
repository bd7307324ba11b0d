/** Shared, reference-counted cells: the `Arc` (and `Arc<RwLock<_>>`) that
    `ChannelEntry` and `DirectoryEntry` wrap. Every clone of a handle names
    the same cell, so a write through one clone is seen through all of
    them, and the payload is handed back (to run its `Drop`) exactly when
    the last clone is released. */
module Rc {
  import opened Base

  datatype Cell<T> = Cell(value: T, count: nat)

  /** All cells ever allocated; a freed cell stays `None`. */
  type Heap<T> = seq<Option<Cell<T>>>

  predicate Live<T>(h: Heap<T>, k: nat) {
    k < |h| && h[k].Some? && h[k].value.count > 0
  }

  /** Every cell still held has at least one holder. */
  predicate Valid<T>(h: Heap<T>) {
    forall k :: 0 <= k < |h| && h[k].Some? ==> h[k].value.count > 0
  }

  /** `Arc::new`: a fresh cell with one holder. */
  function Alloc<T>(h: Heap<T>, v: T): (r: (Heap<T>, nat))
    ensures r.1 == |h| && Live(r.0, r.1)
    ensures r.0[r.1].value == Cell(v, 1)
    ensures |r.0| == |h| + 1 && r.0[..|h|] == h
  {
    (h + [Some(Cell(v, 1))], |h|)
  }

  /** `Arc::clone`: one more holder of the same cell. */
  function Clone<T>(h: Heap<T>, k: nat): (r: Heap<T>)
    requires Live(h, k)
    ensures Live(r, k) && r[k].value == h[k].value.(count := h[k].value.count + 1)
    ensures |r| == |h| && forall j :: 0 <= j < |h| && j != k ==> r[j] == h[j]
  {
    h[k := Some(h[k].value.(count := h[k].value.count + 1))]
  }

  /** The payload seen through any holder. */
  function Get<T>(h: Heap<T>, k: nat): T
    requires Live(h, k)
  {
    h[k].value.value
  }

  /** A write through the lock: every holder sees the new payload. */
  function Set<T>(h: Heap<T>, k: nat, v: T): (r: Heap<T>)
    requires Live(h, k)
    ensures Live(r, k) && Get(r, k) == v && r[k].value.count == h[k].value.count
    ensures |r| == |h| && forall j :: 0 <= j < |h| && j != k ==> r[j] == h[j]
  {
    h[k := Some(Cell(v, h[k].value.count))]
  }

  /** Dropping one holder. The last holder's release frees the cell and
      returns its payload; any earlier release returns nothing. */
  function Release<T>(h: Heap<T>, k: nat): (r: (Heap<T>, Option<T>))
    requires Live(h, k)
    ensures |r.0| == |h| && forall j :: 0 <= j < |h| && j != k ==> r.0[j] == h[j]
    ensures h[k].value.count == 1 <==> r.1.Some?
    ensures h[k].value.count == 1 ==> r.1.value == Get(h, k) && r.0[k].None?
    ensures h[k].value.count > 1 ==>
      Live(r.0, k) && Get(r.0, k) == Get(h, k) && r.0[k].value.count == h[k].value.count - 1
  {
    var c := h[k].value;
    if c.count == 1 then (h[k := None], Some(c.value))
    else (h[k := Some(c.(count := c.count - 1))], None)
  }

  /** Releasing `n` holders of cell `k` one after the other: the results of
      the releases in order and the final heap. */
  function ReleaseTimes<T>(h: Heap<T>, k: nat, n: nat): (Heap<T>, seq<Option<T>>)
    requires Live(h, k) && n <= h[k].value.count
    decreases n
  {
    if n == 0 then (h, [])
    else
      var (h1, out) := Release(h, k);
      if n == 1 then (h1, [out])
      else
        var (h2, outs) := ReleaseTimes(h1, k, n - 1);
        (h2, [out] + outs)
  }

  /** Releasing every holder yields the payload exactly once, at the last
      release, frees the cell and leaves every other cell as it was. */
  lemma {:induction false} ReleaseAllOnce<T>(h: Heap<T>, k: nat)
    requires Live(h, k)
    ensures var (h2, outs) := ReleaseTimes(h, k, h[k].value.count);
      && |outs| == h[k].value.count
      && outs[|outs| - 1] == Some(Get(h, k))
      && (forall i :: 0 <= i < |outs| - 1 ==> outs[i].None?)
      && |h2| == |h| && h2[k].None?
      && (forall j :: 0 <= j < |h| && j != k ==> h2[j] == h[j])
    decreases h[k].value.count
  {
    var n := h[k].value.count;
    var (h1, out) := Release(h, k);
    if n > 1 {
      ReleaseAllOnce(h1, k);
    }
  }

  /** Fewer releases than holders never yield the payload and keep it. */
  lemma {:induction false} ReleaseSomeKeeps<T>(h: Heap<T>, k: nat, n: nat)
    requires Live(h, k) && n < h[k].value.count
    ensures var (h2, outs) := ReleaseTimes(h, k, n);
      && |outs| == n
      && (forall i :: 0 <= i < n ==> outs[i].None?)
      && Live(h2, k) && Get(h2, k) == Get(h, k)
      && h2[k].value.count == h[k].value.count - n
    decreases n
  {
    if n > 1 {
      var (h1, out) := Release(h, k);
      ReleaseSomeKeeps(h1, k, n - 1);
    }
  }

  /** A clone that is released again leaves the heap as it was. */
  lemma CloneRelease<T>(h: Heap<T>, k: nat)
    requires Live(h, k)
    ensures Release(Clone(h, k), k) == (h, None)
  {
    var h1 := Clone(h, k);
    assert h1[k := Some(h1[k].value.(count := h1[k].value.count - 1))] == h;
  }

  /** What is written through one holder is what the last release yields. */
  lemma WriteSeenAtRelease<T>(h: Heap<T>, k: nat, v: T)
    requires Live(h, k)
    ensures var h1 := Set(h, k, v);
      var (h2, outs) := ReleaseTimes(h1, k, h1[k].value.count);
      outs[|outs| - 1] == Some(v)
  {
    ReleaseAllOnce(Set(h, k, v), k);
  }
}
