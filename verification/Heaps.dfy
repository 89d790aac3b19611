/** Binary heaps kept in sequences, as the container/heap package keeps them for tx_list.go. */
module Heaps {

  /** `less` is a strict weak order. */
  ghost predicate Order<T(!new)>(less: (T, T) -> bool) {
    && (forall x, y :: less(x, y) ==> !less(y, x))
    && (forall x, y, z :: !less(y, x) && !less(z, y) ==> !less(z, x))
  }

  function Parent(i: nat): (p: nat)
    requires i > 0
  {
    (i - 1) / 2
  }

  /** No element is less than its parent, for the parents from `lo` on. */
  predicate HeapFrom<T>(h: seq<T>, less: (T, T) -> bool, lo: nat) {
    forall i: nat {:trigger Parent(i)} :: 0 < i < |h| && Parent(i) >= lo ==> !less(h[i], h[Parent(i)])
  }

  predicate IsHeap<T>(h: seq<T>, less: (T, T) -> bool) {
    HeapFrom(h, less, 0)
  }

  ghost predicate Same<T>(a: seq<T>, b: seq<T>) {
    |a| == |b| && multiset(a) == multiset(b)
  }

  /** The first element of a heap is a least one. */
  lemma {:induction false} FirstIsLeast<T(!new)>(h: seq<T>, less: (T, T) -> bool, i: nat)
    requires Order(less) && IsHeap(h, less) && i < |h|
    ensures !less(h[i], h[0])
  {
    if i > 0 { FirstIsLeast(h, less, Parent(i)); }
  }

  function Swap<T>(h: seq<T>, i: nat, j: nat): seq<T>
    requires i < |h| && j < |h|
  {
    h[i := h[j]][j := h[i]]
  }

  lemma SwapSame<T>(h: seq<T>, i: nat, j: nat)
    requires i < |h| && j < |h|
    ensures Same(h, Swap(h, i, j))
  {
  }

  /** A heap but for the element at `j`, which may be less than its parent. */
  predicate HeapButUp<T>(h: seq<T>, less: (T, T) -> bool, j: nat) {
    && (forall i: nat {:trigger Parent(i)} :: 0 < i < |h| && i != j ==> !less(h[i], h[Parent(i)]))
    && (forall i: nat {:trigger Parent(i)} ::
          0 < i < |h| && j > 0 && Parent(i) == j && Parent(j) < |h| ==> !less(h[i], h[Parent(j)]))
  }

  lemma UpStep<T(!new)>(h: seq<T>, less: (T, T) -> bool, j: nat)
    requires Order(less) && 0 < j < |h| && HeapButUp(h, less, j) && less(h[j], h[Parent(j)])
    ensures HeapButUp(Swap(h, Parent(j), j), less, Parent(j))
  {
    var p := Parent(j);
    var g := Swap(h, p, j);
    forall i: nat {:trigger Parent(i)} | 0 < i < |g| && i != p ensures !less(g[i], g[Parent(i)]) {
      var q := Parent(i);
      if i == j {
      } else if q == p {
        assert !less(h[i], h[p]);
      } else if q == j {
        assert !less(h[i], h[p]);
      }
    }
    forall i: nat {:trigger Parent(i)} | 0 < i < |g| && p > 0 && Parent(i) == p ensures !less(g[i], g[Parent(p)]) {
      assert !less(h[p], h[Parent(p)]);
      if i != j { assert !less(h[i], h[p]); }
    }
  }

  /** Moves an element up to its place. */
  method Up<T(!new)>(h0: seq<T>, less: (T, T) -> bool, j0: nat) returns (h: seq<T>)
    requires Order(less) && j0 < |h0| && HeapButUp(h0, less, j0)
    ensures IsHeap(h, less) && Same(h0, h)
  {
    h := h0;
    var j: nat := j0;
    while j > 0 && less(h[j], h[Parent(j)])
      invariant j < |h| && HeapButUp(h, less, j) && Same(h0, h)
    {
      UpStep(h, less, j);
      SwapSame(h, Parent(j), j);
      h := Swap(h, Parent(j), j);
      j := Parent(j);
    }
  }

  /** A heap from `lo` on but for the element at `j`, which may be above its children. */
  predicate HeapButDown<T>(h: seq<T>, less: (T, T) -> bool, lo: nat, j: nat) {
    && (forall i: nat {:trigger Parent(i)} :: 0 < i < |h| && Parent(i) >= lo && Parent(i) != j ==> !less(h[i], h[Parent(i)]))
    && (forall i: nat {:trigger Parent(i)} ::
          0 < i < |h| && j > 0 && Parent(j) >= lo && Parent(i) == j ==> !less(h[i], h[Parent(j)]))
  }

  lemma DownStep<T(!new)>(h: seq<T>, less: (T, T) -> bool, lo: nat, j: nat, c: nat)
    requires Order(less) && lo <= j && HeapButDown(h, less, lo, j)
    requires j < c < |h| && Parent(c) == j && less(h[c], h[j])
    requires forall i: nat {:trigger Parent(i)} :: 0 < i < |h| && Parent(i) == j ==> !less(h[i], h[c])
    ensures HeapButDown(Swap(h, j, c), less, lo, c)
  {
    var g := Swap(h, j, c);
    forall i: nat {:trigger Parent(i)} | 0 < i < |g| && Parent(i) >= lo && Parent(i) != c ensures !less(g[i], g[Parent(i)]) {
      var q := Parent(i);
      if q == j {
        if i != c { assert !less(h[i], h[c]); }
      } else if i == j {
        assert !less(h[c], h[Parent(j)]);
      }
    }
    forall i: nat {:trigger Parent(i)} | 0 < i < |g| && Parent(i) == c ensures !less(g[i], g[Parent(c)]) {
      assert !less(h[i], h[c]);
    }
  }

  /** Only the element at `lo` has changed among those whose parents lie before it. */
  predicate Untouched<T(==)>(h0: seq<T>, h: seq<T>, lo: nat) {
    |h| == |h0| && forall k: nat {:trigger Parent(k)} :: 0 < k < |h| && k != lo && Parent(k) < lo ==> h[k] == h0[k]
  }

  /** The new first element comes from a child. */
  ghost predicate FromChild<T>(h0: seq<T>, h: seq<T>, lo: nat) {
    lo < |h| && exists c: nat {:trigger Parent(c)} :: 0 < c < |h0| && Parent(c) == lo && h[lo] == h0[c]
  }

  /** What holds while an element moves down from `lo` and has reached `j`. */
  ghost predicate Sinking<T(!new)>(h0: seq<T>, h: seq<T>, less: (T, T) -> bool, lo: nat, j: nat) {
    && lo <= j < |h| && HeapButDown(h, less, lo, j) && Same(h0, h) && Untouched(h0, h, lo) && h[..lo] == h0[..lo]
    && if j == lo then h == h0 else Parent(j) >= lo && FromChild(h0, h, lo)
  }

  lemma SinkStep<T(!new)>(h0: seq<T>, h: seq<T>, less: (T, T) -> bool, lo: nat, j: nat, c: nat)
    requires Order(less) && Sinking(h0, h, less, lo, j)
    requires j < c < |h| && Parent(c) == j && less(h[c], h[j])
    requires forall i: nat {:trigger Parent(i)} :: 0 < i < |h| && Parent(i) == j ==> !less(h[i], h[c])
    ensures Sinking(h0, Swap(h, j, c), less, lo, c)
  {
    hide HeapButDown, Order;
    DownStep(h, less, lo, j, c);
    SwapSame(h, j, c);
    var g := Swap(h, j, c);
    assert g[..lo] == h[..lo];
    if j == lo { assert g[lo] == h0[c]; } else { assert g[lo] == h[lo]; }
  }

  /** Moves an element down to its place; says whether it moved. */
  method Down<T(!new,==)>(h0: seq<T>, less: (T, T) -> bool, lo: nat) returns (h: seq<T>, moved: bool)
    requires Order(less) && lo < |h0| && HeapButDown(h0, less, lo, lo)
    ensures HeapFrom(h, less, lo) && Same(h0, h) && h[..lo] == h0[..lo] && Untouched(h0, h, lo)
    ensures if moved then FromChild(h0, h, lo) else h == h0
  {
    h := h0;
    var j: nat := lo;
    while 2 * j + 1 < |h|
      invariant Sinking(h0, h, less, lo, j)
      decreases |h| - j
    {
      hide Sinking, Order, HeapButDown, HeapFrom, Same, Untouched, FromChild;
      SinkingIs(h0, h, less, lo, j);
      var c := 2 * j + 1;
      if c + 1 < |h| && less(h[c + 1], h[c]) {
        c := c + 1;
      }
      Children(h, less, j, c);
      if !less(h[c], h[j]) {
        NotBelow(h, less, lo, j, c);
        break;
      }
      assert Parent(c) == j;
      SinkStep(h0, h, less, lo, j, c);
      h := Swap(h, j, c);
      j := c;
    }
    moved := j > lo;
  }

  lemma SinkingIs<T(!new)>(h0: seq<T>, h: seq<T>, less: (T, T) -> bool, lo: nat, j: nat)
    requires Sinking(h0, h, less, lo, j)
    ensures HeapButDown(h, less, lo, j) && j < |h|
  {
  }

  lemma Children<T(!new)>(h: seq<T>, less: (T, T) -> bool, j: nat, c: nat)
    requires Order(less) && 2 * j + 1 < |h| && 2 * j + 1 <= c <= 2 * j + 2 && c < |h|
    requires if c == 2 * j + 2 then less(h[c], h[c - 1]) else c + 1 < |h| ==> !less(h[c + 1], h[c])
    ensures forall i: nat {:trigger Parent(i)} :: 0 < i < |h| && Parent(i) == j ==> !less(h[i], h[c])
  {
    forall i: nat {:trigger Parent(i)} | 0 < i < |h| && Parent(i) == j ensures !less(h[i], h[c]) {
      assert i == 2 * j + 1 || i == 2 * j + 2;
    }
  }

  lemma NotBelow<T(!new)>(h: seq<T>, less: (T, T) -> bool, lo: nat, j: nat, c: nat)
    requires Order(less) && j < |h| && c < |h| && HeapButDown(h, less, lo, j) && !less(h[c], h[j])
    requires forall i: nat {:trigger Parent(i)} :: 0 < i < |h| && Parent(i) == j ==> !less(h[i], h[c])
    ensures HeapFrom(h, less, lo)
  {
  }

  // ---------- the operations of a heap ----------

  /** What is left of a heap without its last element is a heap. */
  lemma PrefixHeap<T>(h: seq<T>, less: (T, T) -> bool, n: nat)
    requires IsHeap(h, less) && n <= |h|
    ensures IsHeap(h[..n], less)
  {
  }

  method Push<T(!new)>(h0: seq<T>, less: (T, T) -> bool, x: T) returns (h: seq<T>)
    requires Order(less) && IsHeap(h0, less)
    ensures IsHeap(h, less) && multiset(h) == multiset(h0) + multiset{x}
  {
    h := Up(h0 + [x], less, |h0|);
  }

  /** Takes the element at `i` out. */
  method RemoveAt<T(!new,==)>(h0: seq<T>, less: (T, T) -> bool, i: nat) returns (h: seq<T>)
    requires Order(less) && IsHeap(h0, less) && i < |h0|
    ensures IsHeap(h, less) && multiset(h0) == multiset(h) + multiset{h0[i]}
  {
    var n := |h0| - 1;
    SwapSame(h0, i, n);
    var g := Swap(h0, i, n);
    assert g == g[..n] + [h0[i]];
    h := g[..n];
    if i == n {
      PrefixHeap(h0, less, n);
      return;
    }
    Replaced(h0, less, i);
    var d, moved := Down(h, less, i);
    if moved {
      MovedDown(h0, less, i, h, d);
      h := d;
    } else {
      h := Up(d, less, i);
    }
  }

  /** With its last element in the place of another, a heap is in order but for that place. */
  lemma Replaced<T(!new)>(h0: seq<T>, less: (T, T) -> bool, i: nat)
    requires Order(less) && IsHeap(h0, less) && i < |h0| - 1
    ensures var h := Swap(h0, i, |h0| - 1)[..|h0| - 1];
      HeapButDown(h, less, i, i) && (HeapFrom(h, less, i) ==> HeapButUp(h, less, i))
  {
  }

  lemma MovedDown<T(!new)>(h0: seq<T>, less: (T, T) -> bool, i: nat, h: seq<T>, d: seq<T>)
    requires Order(less) && IsHeap(h0, less) && i < |h0| - 1 && h == Swap(h0, i, |h0| - 1)[..|h0| - 1]
    requires HeapFrom(d, less, i) && Untouched(h, d, i) && d[..i] == h[..i] && FromChild(h, d, i)
    ensures IsHeap(d, less)
  {
    var c: nat :| 0 < c < |h| && Parent(c) == i && d[i] == h[c];
    forall k: nat {:trigger Parent(k)} | 0 < k < |d| && Parent(k) < i ensures !less(d[k], d[Parent(k)]) {
      assert d[Parent(k)] == d[..i][Parent(k)] == h[Parent(k)] == h0[Parent(k)];
      if k == i {
        assert h[c] == h0[c] && !less(h0[c], h0[i]) && !less(h0[i], h0[Parent(i)]);
      } else {
        assert d[k] == h[k] == h0[k];
      }
    }
  }

  method Pop<T(!new,==)>(h0: seq<T>, less: (T, T) -> bool) returns (x: T, h: seq<T>)
    requires Order(less) && IsHeap(h0, less) && h0 != []
    ensures IsHeap(h, less) && multiset(h0) == multiset(h) + multiset{x} && x == h0[0]
    ensures forall y :: y in h0 ==> !less(y, x)
  {
    x := h0[0];
    forall y | y in h0 ensures !less(y, x) {
      var i :| 0 <= i < |h0| && h0[i] == y;
      FirstIsLeast(h0, less, i);
    }
    h := RemoveAt(h0, less, 0);
  }

  /** Makes a heap of any sequence. */
  method Init<T(!new,==)>(h0: seq<T>, less: (T, T) -> bool) returns (h: seq<T>)
    requires Order(less)
    ensures IsHeap(h, less) && Same(h0, h)
  {
    h := h0;
    var i: nat := |h| / 2;
    while i > 0
      invariant i <= |h| / 2 && HeapFrom(h, less, i) && Same(h0, h)
    {
      i := i - 1;
      var g, _ := Down(h, less, i);
      h := g;
    }
  }
}
