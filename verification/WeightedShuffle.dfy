/** Weighted sampling without replacement over a sum tree kept in an array (utils/weighted_shuffle.go). */
module WeightedShuffles {
  import opened Collections

  type Byte = b: int | 0 <= b < 0x100

  type Digest = s: seq<Byte> | |s| == 32 witness seq(32, _ => 0)

  const UINT32: nat := 0x1_0000_0000

  // ---------- the tree: the children of i are 2i+1 and 2i+2 ----------

  function Parent(j: nat): nat
    requires j > 0
  {
    (j - 1) / 2
  }

  /** `j` lies in the subtree of `i`. */
  predicate Under(i: nat, j: nat)
    decreases j
  {
    j == i || (j > i && Under(i, Parent(j)))
  }

  lemma UnderChild(i: nat, j: nat)
    ensures Under(2 * i + 1, j) ==> Under(i, j) && j != i
    ensures Under(2 * i + 2, j) ==> Under(i, j) && j != i
    decreases j
  {
    if j > 2 * i + 1 { UnderChild(i, Parent(j)); }
  }

  lemma UnderSplits(i: nat, j: nat)
    ensures Under(i, j) <==> j == i || Under(2 * i + 1, j) || Under(2 * i + 2, j)
    ensures !(Under(2 * i + 1, j) && Under(2 * i + 2, j))
    decreases j
  {
    UnderChild(i, j);
    if j > i {
      UnderSplits(i, Parent(j));
      UnderChild(i, Parent(j));
    }
  }

  lemma {:induction false} AllUnderRoot(j: nat)
    ensures Under(0, j)
  {
    if j > 0 { AllUnderRoot(Parent(j)); }
  }

  // ---------- the weights that remain ----------

  function Mine(w: seq<nat>, taken: set<nat>, i: nat): nat {
    if i < |w| && i !in taken then w[i] else 0
  }

  /** The weight that remains in the subtree of `i`. */
  function Rest(w: seq<nat>, taken: set<nat>, i: nat): nat
    decreases if i < |w| then |w| - i else 0
  {
    if i >= |w| then 0 else Mine(w, taken, i) + Rest(w, taken, 2 * i + 1) + Rest(w, taken, 2 * i + 2)
  }

  /** Taking an index lowers just the subtrees it lies in. */
  lemma {:induction false} RestTake(w: seq<nat>, taken: set<nat>, i: nat, c: nat)
    requires c < |w| && c !in taken
    ensures Rest(w, taken + {c}, i) == Rest(w, taken, i) - (if Under(i, c) then w[c] else 0)
    decreases if i < |w| then |w| - i else 0
  {
    if i < |w| {
      UnderSplits(i, c);
      RestTake(w, taken, 2 * i + 1, c);
      RestTake(w, taken, 2 * i + 2, c);
    } else {
      UnderLarger(i, c);
    }
  }

  lemma UnderLarger(i: nat, c: nat)
    ensures Under(i, c) ==> i <= c
  {
  }

  // ---------- the random numbers ----------

  datatype Rand = Rand(seed: Digest, index: nat)

  predicate RandOk(r: Rand) {
    r.index <= 32 && r.index % 4 == 0
  }

  function LittleEndian(b: seq<Byte>): nat
    requires |b| == 4
  {
    var b0: int, b1: int, b2: int, b3: int := b[0], b[1], b[2], b[3];
    b0 + 0x100 * b1 + 0x1_0000 * b2 + 0x100_0000 * b3
  }

  /** The next number, and the state after it; an exhausted seed is replaced by its digest. */
  function Draw(sha: Digest -> Digest, r: Rand): (nat, Rand)
    requires RandOk(r)
  {
    var q := if r.index == 32 then Rand(sha(r.seed), 0) else r;
    (LittleEndian(q.seed[q.index..q.index + 4]), Rand(q.seed, q.index + 4))
  }

  lemma DrawOk(sha: Digest -> Digest, r: Rand)
    requires RandOk(r)
    ensures RandOk(Draw(sha, r).1) && Draw(sha, r).0 < UINT32
  {
  }

  /** The bytes of a number, the least significant one first. */
  lemma LittleEndianIs(b: seq<Byte>)
    requires |b| == 4
    ensures var x := LittleEndian(b);
      x % 256 == b[0] && x / 256 % 256 == b[1] && x / 256 / 256 % 256 == b[2] && x / 256 / 256 / 256 == b[3]
  {
    var b1: int, b2: int, b3: int := b[1], b[2], b[3];
    OneDigit(b[0], b1 + 256 * b2 + 65_536 * b3);
    OneDigit(b[1], b2 + 256 * b3);
    OneDigit(b[2], b3);
  }

  lemma OneDigit(low: Byte, high: nat)
    ensures (low as int + 256 * high) % 256 == low as int && (low as int + 256 * high) / 256 == high
  {
  }

  function Hashed(sha: Digest -> Digest, seed: Digest, times: nat): Digest {
    if times == 0 then seed else sha(Hashed(sha, seed, times - 1))
  }

  /** The state after some numbers of a fresh seed. */
  function Drawn(sha: Digest -> Digest, seed: Digest, n: nat): (r: Rand)
    ensures RandOk(r)
  {
    if n == 0 then Rand(seed, 0)
    else
      DrawOk(sha, Drawn(sha, seed, n - 1));
      Draw(sha, Drawn(sha, seed, n - 1)).1
  }

  lemma DrawIs(sha: Digest -> Digest, seed: Digest, i: nat)
    requires i <= 32 && i % 4 == 0
    ensures var s, k := if i == 32 then sha(seed) else seed, if i == 32 then 0 else i;
      Draw(sha, Rand(seed, i)) == (LittleEndian(s[k..k + 4]), Rand(s, k + 4))
  {
    hide LittleEndian;
  }

  /** The numbers of a seed are its eight words, then those of its digest, and so on. */
  lemma {:induction false} NthDraw(sha: Digest -> Digest, seed: Digest, n: nat)
    ensures Drawn(sha, seed, n + 1) == Rand(Hashed(sha, seed, n / 8), 4 * (n % 8) + 4)
    ensures Draw(sha, Drawn(sha, seed, n)).0 == LittleEndian(Hashed(sha, seed, n / 8)[4 * (n % 8)..4 * (n % 8) + 4])
  {
    hide LittleEndian, Draw, RandOk;
    if n > 0 {
      NthDraw(sha, seed, n - 1);
      DrawIs(sha, Hashed(sha, seed, (n - 1) / 8), 4 * ((n - 1) % 8) + 4);
      WordAfter(n);
    } else {
      DrawIs(sha, seed, 0);
    }
  }

  lemma WordAfter(n: nat)
    requires n > 0
    ensures if n % 8 == 0 then (n - 1) % 8 == 7 && n / 8 == (n - 1) / 8 + 1
      else (n - 1) % 8 + 1 == n % 8 && n / 8 == (n - 1) / 8
  {
  }

  function Residue(x: nat, total: nat): (r: nat)
    requires total > 0
    ensures r < total
  {
    x % total
  }

  /** 32-bit arithmetic. */
  function Wrap(x: int): (r: nat)
    ensures 0 <= x < UINT32 ==> r == x
  {
    x % UINT32
  }

  // ---------- what a permutation is meant to be ----------

  predicate Positive(w: seq<nat>) {
    forall i :: 0 <= i < |w| ==> w[i] > 0
  }

  /** Descends from `i`: a number below the remaining weight picks the node itself, or its left or right subtree. */
  function Pick(sha: Digest -> Digest, w: seq<nat>, taken: set<nat>, i: nat, r: Rand): (p: (nat, Rand))
    requires RandOk(r) && Rest(w, taken, i) > 0
    ensures p.0 < |w| && p.0 !in taken && Under(i, p.0) && RandOk(p.1)
    decreases |w| - i
  {
    DrawOk(sha, r);
    var (x, next) := Draw(sha, r);
    var v := Residue(x, Rest(w, taken, i));
    if v < Mine(w, taken, i) then (i, next)
    else if v < Mine(w, taken, i) + Rest(w, taken, 2 * i + 1) then
      var p := Pick(sha, w, taken, 2 * i + 1, next);
      UnderChild(i, p.0);
      p
    else
      var p := Pick(sha, w, taken, 2 * i + 2, next);
      UnderChild(i, p.0);
      p
  }

  /** The first `size` entries of the permutation, without the taken indices. */
  function Permutation(sha: Digest -> Digest, w: seq<nat>, taken: set<nat>, r: Rand, size: nat): (p: seq<nat>)
    requires RandOk(r) && Positive(w) && taken <= Range(|w|) && |taken| + size <= |w|
    ensures |p| == size
    decreases size
  {
    if size == 0 then []
    else
      SomeLeft(w, taken);
      var (c, next) := Pick(sha, w, taken, 0, r);
      assert c in Range(|w|);
      assert |taken + {c}| == |taken| + 1;
      [c] + Permutation(sha, w, taken + {c}, next, size - 1)
  }

  /** While an index is left, so is some weight. */
  lemma SomeLeft(w: seq<nat>, taken: set<nat>)
    requires Positive(w) && taken <= Range(|w|) && |taken| < |w|
    ensures Rest(w, taken, 0) > 0
  {
    if Range(|w|) <= taken { Fewer(Range(|w|), taken); }
    assert !(Range(|w|) <= taken);
    var j :| j in Range(|w|) && j !in taken;
    AllUnderRoot(j);
    RestHas(w, taken, 0, j);
  }

  lemma {:induction false} RestHas(w: seq<nat>, taken: set<nat>, i: nat, j: nat)
    requires Under(i, j) && j < |w|
    ensures Rest(w, taken, i) >= Mine(w, taken, j)
    decreases |w| - i
  {
    UnderLarger(i, j);
    UnderSplits(i, j);
    if j != i {
      if Under(2 * i + 1, j) {
        UnderLarger(2 * i + 1, j);
        RestHas(w, taken, 2 * i + 1, j);
      } else {
        UnderLarger(2 * i + 2, j);
        RestHas(w, taken, 2 * i + 2, j);
      }
    }
  }

  // ---------- what it guarantees ----------

  /** The first entry is picked, and the others without it. */
  lemma PermutationStep(sha: Digest -> Digest, w: seq<nat>, taken: set<nat>, r: Rand, size: nat) returns (c: nat, next: Rand)
    requires RandOk(r) && Positive(w) && taken <= Range(|w|) && |taken| + size <= |w| && size > 0
    ensures Rest(w, taken, 0) > 0 && (c, next) == Pick(sha, w, taken, 0, r)
    ensures c < |w| && c !in taken && RandOk(next) && taken + {c} <= Range(|w|) && |taken + {c}| == |taken| + 1
    ensures forall k: nat :: 0 < k && |taken| + k <= |w| ==>
      Permutation(sha, w, taken, r, k) == [c] + Permutation(sha, w, taken + {c}, next, k - 1)
  {
    SomeLeft(w, taken);
    var p := Pick(sha, w, taken, 0, r);
    c, next := p.0, p.1;
    assert c in Range(|w|);
    assert |taken + {c}| == |taken| + 1;
  }

  /** The entries are distinct indices, none of them taken before. */
  lemma {:induction false} PermutationDistinct(sha: Digest -> Digest, w: seq<nat>, taken: set<nat>, r: Rand, size: nat)
    requires RandOk(r) && Positive(w) && taken <= Range(|w|) && |taken| + size <= |w|
    ensures var p := Permutation(sha, w, taken, r, size);
      Distinct(p) && forall i :: 0 <= i < |p| ==> p[i] < |w| && p[i] !in taken
    decreases size
  {
    hide Pick, Rest, Permutation, Positive, RandOk, Distinct;
    if size == 0 {
      DistinctNone();
      PermutationNone(sha, w, taken, r);
    } else {
      var c, next := PermutationStep(sha, w, taken, r, size);
      PermutationDistinct(sha, w, taken + {c}, next, size - 1);
      DistinctFront(c, Permutation(sha, w, taken + {c}, next, size - 1), taken, |w|);
      assert Permutation(sha, w, taken, r, size) == [c] + Permutation(sha, w, taken + {c}, next, size - 1);
    }
  }

  lemma DistinctNone()
    ensures Distinct<nat>([])
  {
  }

  lemma DistinctFront(c: nat, p: seq<nat>, taken: set<nat>, n: nat)
    requires Distinct(p) && c < n && c !in taken && forall i :: 0 <= i < |p| ==> p[i] < n && p[i] !in taken + {c}
    ensures var q: seq<nat> := [c] + p; Distinct(q) && forall i :: 0 <= i < |q| ==> q[i] < n && q[i] !in taken
  {
    var q: seq<nat> := [c] + p;
    forall i | 0 <= i < |p| ensures q[i + 1] == p[i] && p[i] != c {
      assert p[i] !in taken + {c};
    }
    assert forall i :: 0 < i < |q| ==> q[i] == p[i - 1];
  }

  /** With as many entries as indices, every index occurs. */
  lemma PermutationFull(sha: Digest -> Digest, w: seq<nat>, r: Rand, i: nat)
    requires RandOk(r) && Positive(w) && i < |w|
    ensures i in Permutation(sha, w, {}, r, |w|)
  {
    hide Pick, Rest, Permutation, Positive, RandOk, Distinct;
    var p := Permutation(sha, w, {}, r, |w|);
    PermutationDistinct(sha, w, {}, r, |w|);
    SetOfSize(p);
    if i !in p {
      assert SetOf(p) <= Range(|w|) - {i};
      Fewer(SetOf(p), Range(|w|) - {i});
    }
  }

  lemma {:induction false} SetOfSize(p: seq<nat>)
    requires Distinct(p)
    ensures |SetOf(p)| == |p|
  {
    if p != [] {
      var k := |p| - 1;
      SetOfSize(p[..k]);
      SetOfLast(p);
    }
  }

  lemma SetOfLast(p: seq<nat>)
    requires Distinct(p) && p != []
    ensures var k := |p| - 1; SetOf(p) == SetOf(p[..k]) + {p[k]} && p[k] !in SetOf(p[..k])
  {
    assert p == p[..|p| - 1] + [p[|p| - 1]];
  }

  lemma {:induction false} Fewer(a: set<nat>, b: set<nat>)
    requires a <= b
    ensures |a| <= |b|
  {
    if a != {} {
      var x :| x in a;
      Fewer(a - {x}, b - {x});
    }
  }

  /** For one seed a shorter permutation is a prefix of a longer one. */
  lemma {:induction false} PermutationPrefix(sha: Digest -> Digest, w: seq<nat>, taken: set<nat>, r: Rand, k: nat, size: nat)
    requires RandOk(r) && Positive(w) && taken <= Range(|w|) && k <= size && |taken| + size <= |w|
    ensures Permutation(sha, w, taken, r, k) == Permutation(sha, w, taken, r, size)[..k]
    decreases size
  {
    hide Pick, Rest, Permutation, Positive, RandOk;
    if k > 0 {
      var c, next := PermutationStep(sha, w, taken, r, size);
      PermutationPrefix(sha, w, taken + {c}, next, k - 1, size - 1);
    } else {
      PermutationNone(sha, w, taken, r);
    }
  }

  lemma PermutationNone(sha: Digest -> Digest, w: seq<nat>, taken: set<nat>, r: Rand)
    requires RandOk(r) && Positive(w) && taken <= Range(|w|) && |taken| <= |w|
    ensures Permutation(sha, w, taken, r, 0) == []
  {
  }

  /** Where a number below the remaining weight takes the descent. */
  function Turn(w: seq<nat>, taken: set<nat>, i: nat, x: nat): nat {
    if x < Mine(w, taken, i) then i
    else if x < Mine(w, taken, i) + Rest(w, taken, 2 * i + 1) then 2 * i + 1
    else 2 * i + 2
  }

  /** A pick goes where its number takes it, and goes on there with the next one. */
  lemma PickTurns(sha: Digest -> Digest, w: seq<nat>, taken: set<nat>, i: nat, r: Rand)
    requires RandOk(r) && Rest(w, taken, i) > 0
    ensures var x, next := Draw(sha, r).0 % Rest(w, taken, i), Draw(sha, r).1;
      var k := Turn(w, taken, i, x);
      && RandOk(next) && (k != i ==> Rest(w, taken, k) > 0)
      && Pick(sha, w, taken, i, r) == if k == i then (i, next) else Pick(sha, w, taken, k, next)
  {
    hide Draw, RandOk;
    DrawOk(sha, r);
  }

  /** The numbers that take the descent from `i` to `k`. */
  function Turns(w: seq<nat>, taken: set<nat>, i: nat, k: nat): set<nat> {
    set x | 0 <= x < Rest(w, taken, i) && Turn(w, taken, i, x) == k
  }

  function Between(a: nat, b: nat): (r: set<nat>)
    requires a <= b
    ensures |r| == b - a && forall x: nat :: x in r <==> a <= x < b
  {
    if a == b then {} else Between(a, b - 1) + {b - 1}
  }

  /** There are as many of them as the weight there. */
  lemma TurnsSize(w: seq<nat>, taken: set<nat>, i: nat)
    requires Rest(w, taken, i) > 0
    ensures |Turns(w, taken, i, i)| == Mine(w, taken, i)
    ensures |Turns(w, taken, i, 2 * i + 1)| == Rest(w, taken, 2 * i + 1)
    ensures |Turns(w, taken, i, 2 * i + 2)| == Rest(w, taken, 2 * i + 2)
  {
    hide Mine, Rest, Between, Turn;
    var a, b, c := Mine(w, taken, i), Mine(w, taken, i) + Rest(w, taken, 2 * i + 1), Rest(w, taken, i);
    RestParts(w, taken, i);
    forall k | k in {i, 2 * i + 1, 2 * i + 2}
      ensures Turns(w, taken, i, k) == if k == i then Between(0, a) else if k == 2 * i + 1 then Between(a, b) else Between(b, c)
    {
      forall x ensures 0 <= x < c && Turn(w, taken, i, x) == k <==>
        if k == i then 0 <= x < a else if k == 2 * i + 1 then a <= x < b else b <= x < c
      {
        if x >= 0 { TurnIs(w, taken, i, x); }
      }
    }
  }

  lemma TurnIs(w: seq<nat>, taken: set<nat>, i: nat, x: nat)
    ensures Turn(w, taken, i, x) ==
      if x < Mine(w, taken, i) then i
      else if x < Mine(w, taken, i) + Rest(w, taken, 2 * i + 1) then 2 * i + 1 else 2 * i + 2
  {
    hide Mine, Rest;
  }

  lemma RestParts(w: seq<nat>, taken: set<nat>, i: nat)
    requires Rest(w, taken, i) > 0
    ensures Rest(w, taken, i) == Mine(w, taken, i) + Rest(w, taken, 2 * i + 1) + Rest(w, taken, 2 * i + 2)
  {
  }

  /** The chance that a descent from `i` ends at `j` if each number below the remaining weight is equally likely: at each
      node, the share of the numbers that take it the right way. */
  ghost function Chance(w: seq<nat>, taken: set<nat>, i: nat, j: nat): real
    requires Rest(w, taken, i) > 0
    decreases |w| - i
  {
    var total := Rest(w, taken, i);
    if j == i then Share(|Turns(w, taken, i, i)|, total, 1.0)
    else if Under(2 * i + 1, j) && Rest(w, taken, 2 * i + 1) > 0 then
      Share(|Turns(w, taken, i, 2 * i + 1)|, total, Chance(w, taken, 2 * i + 1, j))
    else if Under(2 * i + 2, j) && Rest(w, taken, 2 * i + 2) > 0 then
      Share(|Turns(w, taken, i, 2 * i + 2)|, total, Chance(w, taken, 2 * i + 2, j))
    else 0.0
  }

  /** `part` out of `total` equally likely numbers, and then a chance of `rest`. */
  function Share(part: nat, total: nat, rest: real): real
    requires total > 0
  {
    part as real / total as real * rest
  }

  /** Every remaining index is picked with a chance proportional to its weight. */
  lemma {:induction false} ChanceIsShare(w: seq<nat>, taken: set<nat>, i: nat, j: nat)
    requires Rest(w, taken, i) > 0 && Under(i, j) && j < |w|
    ensures Chance(w, taken, i, j) == Mine(w, taken, j) as real / Rest(w, taken, i) as real
    decreases |w| - i
  {
    hide Chance, Rest, Mine, Under, Share;
    RestPositive(w, taken, i);
    if j == i {
      ChanceHere(w, taken, i);
      return;
    }
    UnderSplits(i, j);
    var k := if Under(2 * i + 1, j) then 2 * i + 1 else 2 * i + 2;
    RestHas(w, taken, k, j);
    ChanceStep(w, taken, i, j, k);
    if Rest(w, taken, k) > 0 {
      RestPositive(w, taken, k);
      ChanceIsShare(w, taken, k, j);
      Cancel(Rest(w, taken, k), Rest(w, taken, i), Mine(w, taken, j), Chance(w, taken, k, j));
    } else {
      NoShare(Rest(w, taken, i));
    }
  }

  lemma ChanceHere(w: seq<nat>, taken: set<nat>, i: nat)
    requires Rest(w, taken, i) > 0
    ensures Chance(w, taken, i, i) == Mine(w, taken, i) as real / Rest(w, taken, i) as real
  {
    hide Rest, Mine, Under, Turns;
    RestPositive(w, taken, i);
    TurnsSize(w, taken, i);
  }

  lemma NoShare(total: nat)
    requires total > 0
    ensures 0.0 == 0 as real / total as real
  {
  }

  lemma RestPositive(w: seq<nat>, taken: set<nat>, i: nat)
    requires Rest(w, taken, i) > 0
    ensures i < |w|
  {
  }

  lemma ChanceStep(w: seq<nat>, taken: set<nat>, i: nat, j: nat, k: nat)
    requires Rest(w, taken, i) > 0 && j != i && (k == 2 * i + 1 || k == 2 * i + 2) && Under(k, j)
    ensures Chance(w, taken, i, j)
      == if Rest(w, taken, k) > 0 then Share(Rest(w, taken, k), Rest(w, taken, i), Chance(w, taken, k, j)) else 0.0
  {
    hide Share, Rest, Mine, Under, Turns;
    UnderSplits(i, j);
    RestPositive(w, taken, i);
    TurnsSize(w, taken, i);
  }

  lemma Cancel(part: nat, total: nat, mine: nat, rest: real)
    requires part > 0 && total > 0 && rest == mine as real / part as real
    ensures Share(part, total, rest) == mine as real / total as real
  {
    CancelReals(part as real, total as real, mine as real);
  }

  lemma CancelReals(a: real, b: real, x: real)
    requires a > 0.0 && b > 0.0
    ensures a / b * (x / a) == x / b
  {
  }

  // ---------- the array ----------

  datatype Node = Node(thisWeight: int, leftWeight: int, rightWeight: int)

  function NodeAt(w: seq<nat>, taken: set<nat>, i: nat): Node {
    Node(Mine(w, taken, i), Rest(w, taken, 2 * i + 1), Rest(w, taken, 2 * i + 2))
  }

  /** Nodes above or beside an index do not change when it is taken, except for the weight below them. */
  lemma NodeTake(w: seq<nat>, taken: set<nat>, i: nat, c: nat)
    requires c < |w| && c !in taken && i < |w|
    ensures var was, now := NodeAt(w, taken, i), NodeAt(w, taken + {c}, i);
      now == if c == i then was.(thisWeight := 0)
             else if Under(2 * i + 1, c) then was.(leftWeight := was.leftWeight - w[c])
             else if Under(2 * i + 2, c) then was.(rightWeight := was.rightWeight - w[c])
             else was
    ensures Under(2 * i + 1, c) ==> Rest(w, taken, 2 * i + 1) >= w[c]
    ensures Under(2 * i + 2, c) ==> Rest(w, taken, 2 * i + 2) >= w[c]
  {
    hide Rest, Mine, Under;
    UnderSplits(i, c);
    UnderChild(i, c);
    SideTake(w, taken, 2 * i + 1, c);
    SideTake(w, taken, 2 * i + 2, c);
    MineTake(w, taken, i, c);
  }

  lemma SideTake(w: seq<nat>, taken: set<nat>, i: nat, c: nat)
    requires c < |w| && c !in taken
    ensures Rest(w, taken + {c}, i) == Rest(w, taken, i) - (if Under(i, c) then w[c] else 0)
    ensures Under(i, c) ==> Rest(w, taken, i) >= w[c]
  {
    RestTake(w, taken, i, c);
    UnderLarger(i, c);
    if Under(i, c) { RestHas(w, taken, i, c); }
  }

  lemma MineTake(w: seq<nat>, taken: set<nat>, i: nat, c: nat)
    ensures Mine(w, taken + {c}, i) == if c == i then 0 else Mine(w, taken, i)
  {
  }

  /** The nodes of the subtree of `i` have seen the index taken, the others have not yet. */
  ghost predicate Seen(nodes: seq<Node>, w: seq<nat>, taken: set<nat>, i: nat, c: nat) {
    |nodes| == |w| && forall k: nat {:trigger Under(i, k)} :: k < |w| ==>
      nodes[k] == NodeAt(w, if Under(i, k) then taken + {c} else taken, k)
  }

  /** All nodes hold the weights that remain. */
  ghost predicate Holds(nodes: seq<Node>, w: seq<nat>, taken: set<nat>) {
    |nodes| == |w| && forall k: nat :: k < |w| ==> nodes[k] == NodeAt(w, taken, k)
  }

  lemma SeenRoot(nodes: seq<Node>, w: seq<nat>, taken: set<nat>, c: nat)
    requires Seen(nodes, w, taken, 0, c)
    ensures Holds(nodes, w, taken + {c})
  {
    forall k: nat | k < |w| ensures nodes[k] == NodeAt(w, taken + {c}, k) {
      AllUnderRoot(k);
    }
  }

  /** The index itself has been taken. */
  lemma SeenHere(nodes: seq<Node>, w: seq<nat>, taken: set<nat>, i: nat)
    requires Holds(nodes, w, taken) && i < |w| && i !in taken
    ensures Seen(nodes[i := nodes[i].(thisWeight := 0)], w, taken, i, i)
  {
    forall k: nat {:trigger Under(i, k)} | k < |w|
      ensures nodes[i := nodes[i].(thisWeight := 0)][k] == NodeAt(w, if Under(i, k) then taken + {i} else taken, k)
    {
      NodeTake(w, taken, k, i);
      UnderBelow(k, i);
    }
  }

  /** Nothing below an index contains it. */
  lemma UnderBelow(k: nat, i: nat)
    ensures Under(i, k) ==> !Under(2 * k + 1, i) && !Under(2 * k + 2, i)
  {
    UnderLarger(i, k);
    UnderLarger(2 * k + 1, i);
    UnderLarger(2 * k + 2, i);
  }

  /** The parent of a subtree that has seen the index lowers the weight on that side. */
  lemma SeenAbove(nodes: seq<Node>, w: seq<nat>, taken: set<nat>, i: nat, child: nat, c: nat)
    requires i < |w| && c < |w| && c !in taken && (child == 2 * i + 1 || child == 2 * i + 2) && Under(child, c)
    requires Seen(nodes, w, taken, child, c)
    ensures var n := nodes[i];
      var m := if child == 2 * i + 1 then n.(leftWeight := n.leftWeight - w[c]) else n.(rightWeight := n.rightWeight - w[c]);
      (if child == 2 * i + 1 then n.leftWeight >= w[c] else n.rightWeight >= w[c]) && Seen(nodes[i := m], w, taken, i, c)
  {
    UnderSplits(i, c);
    UnderLarger(child, i);
    assert !Under(child, i);
    NodeTake(w, taken, i, c);
    var n := nodes[i];
    var m := if child == 2 * i + 1 then n.(leftWeight := n.leftWeight - w[c]) else n.(rightWeight := n.rightWeight - w[c]);
    forall k: nat {:trigger Under(i, k)} | k < |w|
      ensures nodes[i := m][k] == NodeAt(w, if Under(i, k) then taken + {c} else taken, k)
    {
      UnderSplits(i, k);
      if k == i {
        assert Under(i, i);
      } else if Under(i, k) && !Under(child, k) {
        Beside(i, child, k, c);
        NodeTake(w, taken, k, c);
      }
    }
  }

  /** A node beside the subtree with the index does not contain the index. */
  lemma Beside(i: nat, child: nat, k: nat, c: nat)
    requires (child == 2 * i + 1 || child == 2 * i + 2) && Under(child, c) && Under(i, k) && !Under(child, k) && k != i
    ensures k != c && !Under(2 * k + 1, c) && !Under(2 * k + 2, c)
  {
    UnderSplits(i, k);
    UnderSplits(i, c);
    var other := if child == 2 * i + 1 then 2 * i + 2 else 2 * i + 1;
    assert Under(other, k) && !Under(other, c);
    UnderChild(k, c);
    UnderTransitive(other, k, c);
  }

  lemma {:induction false} UnderTransitive(a: nat, b: nat, c: nat)
    requires Under(a, b)
    ensures Under(b, c) ==> Under(a, c)
    decreases c
  {
    UnderLarger(a, b);
    UnderLarger(b, c);
    if c > b { UnderTransitive(a, b, Parent(c)); }
  }

  class ShuffleTree {
    const sha: Digest -> Digest
    const weights: seq<nat>
    const nodes: array<Node>
    var seed: Digest
    var seedIndex: nat

    ghost predicate Valid(taken: set<nat>)
      reads this, nodes
    {
      nodes.Length == |weights| && Holds(nodes[..], weights, taken) && RandOk(State())
    }

    function State(): Rand
      reads this
    {
      Rand(seed, seedIndex)
    }

    constructor (sha: Digest -> Digest, weights: seq<nat>, seed: Digest)
      ensures this.sha == sha && this.weights == weights && State() == Rand(seed, 0)
      ensures nodes.Length == |weights| && fresh(nodes)
    {
      this.sha, this.weights, this.seed, this.seedIndex := sha, weights, seed, 0;
      nodes := new Node[|weights|](_ => Node(0, 0, 0));
    }

    method Rand32() returns (x: nat)
      requires RandOk(State())
      modifies this`seed, this`seedIndex
      ensures (x, State()) == Draw(sha, old(State())) && x < UINT32 && RandOk(State())
    {
      DrawOk(sha, State());
      if seedIndex == 32 {
        seed := sha(seed);
        seedIndex := 0;
      }
      x := LittleEndian(seed[seedIndex..seedIndex + 4]);
      seedIndex := seedIndex + 4;
    }

    /** Fills the nodes of the subtree of `i`; returns the weight in it. */
    method Build(i: nat) returns (total: nat)
      requires Positive(weights) && nodes.Length == |weights|
      modifies nodes
      ensures total == Rest(weights, {}, i)
      ensures forall k: nat {:trigger Under(i, k)} :: k < |weights| ==>
        nodes[k] == if Under(i, k) then NodeAt(weights, {}, k) else old(nodes[k])
      decreases if i < |weights| then |weights| - i else 0
    {
      if i >= |weights| {
        forall k: nat ensures Under(i, k) ==> k >= |weights| {
          UnderLarger(i, k);
        }
        return 0;
      }
      var leftWeight := Build(2 * i + 1);
      var rightWeight := Build(2 * i + 2);
      nodes[i] := Node(weights[i], leftWeight, rightWeight);
      total := weights[i] + leftWeight + rightWeight;
      forall k: nat {:trigger Under(i, k)} | k < |weights|
        ensures nodes[k] == if Under(i, k) then NodeAt(weights, {}, k) else old(nodes[k])
      {
        UnderSplits(i, k);
      }
    }

    /** Descends from `i`, takes the index it ends at, and lowers the weights on the way back. */
    method Retrieve(i: nat, ghost taken: set<nat>) returns (chosen: nat)
      requires Valid(taken) && Rest(weights, taken, i) > 0 && Rest(weights, taken, i) < UINT32
      modifies this, nodes
      ensures RandOk(State()) && (chosen, State()) == Pick(sha, weights, taken, i, old(State()))
      ensures Seen(nodes[..], weights, taken, i, chosen)
      decreases |weights| - i
    {
      hide Pick, Rest, Mine, Under, Seen, Holds, NodeAt, Draw, RandOk, Wrap, Residue;
      PickIs(sha, weights, taken, i, State());
      NodeIs(nodes[..], weights, taken, i);
      var node := nodes[i];
      var total := Wrap(node.rightWeight + node.leftWeight + node.thisWeight);
      var x := Rand32();
      var r := Residue(x, total);
      if r < node.thisWeight {
        SeenHere(nodes[..], weights, taken, i);
        SetNode(i, nodes[i].(thisWeight := 0));
        chosen := i;
      } else if r < node.thisWeight + node.leftWeight {
        chosen := Retrieve(2 * i + 1, taken);
        SeenAbove(nodes[..], weights, taken, i, 2 * i + 1, chosen);
        SetNode(i, nodes[i].(leftWeight := nodes[i].leftWeight - weights[chosen]));
      } else {
        chosen := Retrieve(2 * i + 2, taken);
        SeenAbove(nodes[..], weights, taken, i, 2 * i + 2, chosen);
        SetNode(i, nodes[i].(rightWeight := nodes[i].rightWeight - weights[chosen]));
      }
    }

    method SetNode(i: nat, node: Node)
      requires i < nodes.Length
      modifies nodes
      ensures nodes[..] == old(nodes[..])[i := node]
    {
      nodes[i] := node;
    }
  }

  /** A descent, by cases. */
  lemma PickIs(sha: Digest -> Digest, w: seq<nat>, taken: set<nat>, i: nat, r: Rand)
    requires RandOk(r) && Rest(w, taken, i) > 0
    ensures i < |w| && RandOk(Draw(sha, r).1)
    ensures Mine(w, taken, i) + Rest(w, taken, 2 * i + 1) + Rest(w, taken, 2 * i + 2) == Rest(w, taken, i)
    ensures Rest(w, taken, 2 * i + 1) > 0 ==> 2 * i + 1 < |w|
    ensures Rest(w, taken, 2 * i + 2) > 0 ==> 2 * i + 2 < |w|
    ensures Mine(w, taken, i) > 0 ==> i !in taken
    ensures var (x, next) := Draw(sha, r);
      var v := Residue(x, Rest(w, taken, i));
      if v < Mine(w, taken, i) then Pick(sha, w, taken, i, r) == (i, next)
      else if v < Mine(w, taken, i) + Rest(w, taken, 2 * i + 1) then
        Rest(w, taken, 2 * i + 1) > 0 && Pick(sha, w, taken, i, r) == Pick(sha, w, taken, 2 * i + 1, next)
      else
        Rest(w, taken, 2 * i + 2) > 0 && Pick(sha, w, taken, i, r) == Pick(sha, w, taken, 2 * i + 2, next)
  {
    DrawOk(sha, r);
  }

  lemma NodeIs(nodes: seq<Node>, w: seq<nat>, taken: set<nat>, i: nat)
    requires Holds(nodes, w, taken) && i < |w|
    ensures |nodes| == |w| && nodes[i] == Node(Mine(w, taken, i), Rest(w, taken, 2 * i + 1), Rest(w, taken, 2 * i + 2))
  {
  }

  lemma BuiltAll(nodes: seq<Node>, w: seq<nat>)
    requires |nodes| == |w|
    requires forall k: nat {:trigger Under(0, k)} :: k < |w| ==> Under(0, k) ==> nodes[k] == NodeAt(w, {}, k)
    ensures Holds(nodes, w, {})
  {
    forall k: nat | k < |w| ensures nodes[k] == NodeAt(w, {}, k) {
      AllUnderRoot(k);
    }
  }

  lemma Unseeded(seed: Digest, n: nat)
    ensures RandOk(Rand(seed, 0)) && {} <= Range(n)
  {
  }

  /** The weight that remains only falls. */
  lemma RestFalls(w: seq<nat>, taken: set<nat>, c: nat)
    requires c < |w| && c !in taken
    ensures Rest(w, taken + {c}, 0) <= Rest(w, taken, 0)
  {
    RestTake(w, taken, 0, c);
  }

  /** The first `size` entries of the weighted permutation. */
  method WeightedPermutation(sha: Digest -> Digest, size: nat, weights: seq<nat>, seed: Digest) returns (permutation: seq<nat>)
    requires size <= |weights| && Positive(weights) && Rest(weights, {}, 0) < UINT32
    ensures permutation == Permutation(sha, weights, {}, Rand(seed, 0), size)
  {
    hide Permutation, Positive, Rest, Holds, Pick, Seen, NodeAt, Under, Range, RandOk, Mine;
    permutation := [];
    Unseeded(seed, |weights|);
    PermutationNone(sha, weights, {}, Rand(seed, 0));
    if |weights| == 0 {
      return;
    }
    var tree := new ShuffleTree(sha, weights, seed);
    var _ := tree.Build(0);
    BuiltAll(tree.nodes[..], weights);
    ghost var taken: set<nat> := {};
    for i := 0 to size
      invariant tree.Valid(taken) && taken <= Range(|weights|) && |taken| == i && fresh(tree) && fresh(tree.nodes)
      invariant Rest(weights, taken, 0) < UINT32 && tree.sha == sha && tree.weights == weights
      invariant permutation + Permutation(sha, weights, taken, tree.State(), size - i)
        == Permutation(sha, weights, {}, Rand(seed, 0), size)
    {
      ghost var c, next := PermutationStep(sha, weights, taken, tree.State(), size - i);
      var chosen := tree.Retrieve(0, taken);
      SeenRoot(tree.nodes[..], weights, taken, chosen);
      RestFalls(weights, taken, chosen);
      permutation := permutation + [chosen];
      taken := taken + {chosen};
    }
    PermutationNone(sha, weights, taken, tree.State());
  }
}
