/** Vectors of the highest observed events and their merges (vecmt/vector.go, vecmt/vector_ops.go). */
module VectorClocks {

  /** What is observed of a branch: a fork, or its events from `minSeq` to `maxSeq`, none while `maxSeq` is 0. */
  datatype BranchSeq = Fork | Seen(maxSeq: nat, minSeq: nat)

  const UNSEEN: BranchSeq := Seen(0, 0)

  predicate Empty(b: BranchSeq) {
    b.Seen? && b.maxSeq == 0
  }

  /** An unseen branch has no lowest event. */
  predicate Canonical(b: BranchSeq) {
    Empty(b) ==> b == UNSEEN
  }

  function Max(a: nat, b: nat): nat {
    if a < b then b else a
  }

  function Min(a: nat, b: nat): nat {
    if a < b then a else b
  }

  /** What two observers know together. */
  function Join(a: BranchSeq, b: BranchSeq): BranchSeq {
    if a.Fork? || b.Fork? then Fork
    else if Empty(b) then a
    else if Empty(a) then b
    else Seen(Max(a.maxSeq, b.maxSeq), Min(a.minSeq, b.minSeq))
  }

  lemma JoinLaws(a: BranchSeq, b: BranchSeq, c: BranchSeq)
    requires Canonical(a) && Canonical(b) && Canonical(c)
    ensures Join(a, a) == a && Join(a, b) == Join(b, a) && Join(Join(a, b), c) == Join(a, Join(b, c))
    ensures Join(UNSEEN, a) == a && Join(Fork, a) == Fork && Canonical(Join(a, b))
  {
  }

  /** In numbers: a fork of either is one of both; otherwise the highest event is the higher one, and the lowest the lower
      one, of what has been observed. */
  lemma JoinMeans(a: BranchSeq, b: BranchSeq)
    requires Canonical(a) && Canonical(b)
    ensures var r := Join(a, b);
      && (r.Fork? <==> a.Fork? || b.Fork?)
      && (r.Seen? ==> r.maxSeq >= a.maxSeq && r.maxSeq >= b.maxSeq && (r.maxSeq == a.maxSeq || r.maxSeq == b.maxSeq))
      && (r.Seen? && a.maxSeq > 0 && b.maxSeq > 0 ==>
            r.minSeq <= a.minSeq && r.minSeq <= b.minSeq && (r.minSeq == a.minSeq || r.minSeq == b.minSeq))
      && (r.Seen? && a.maxSeq > 0 && b.maxSeq == 0 ==> r == a) && (r.Seen? && a.maxSeq == 0 ==> r == b)
  {
  }

  // ---------- merging many ----------

  function JoinAll(bs: seq<BranchSeq>): BranchSeq {
    if bs == [] then UNSEEN else Join(JoinAll(bs[..|bs| - 1]), bs[|bs| - 1])
  }

  predicate AllCanonical(bs: seq<BranchSeq>) {
    forall b :: b in bs ==> Canonical(b)
  }

  lemma {:induction false} JoinAllCanonical(bs: seq<BranchSeq>)
    requires AllCanonical(bs)
    ensures Canonical(JoinAll(bs))
  {
    if bs != [] { JoinAllCanonical(bs[..|bs| - 1]); }
  }

  /** Merging what is known already changes nothing. */
  lemma {:induction false} Absorbed(bs: seq<BranchSeq>, x: BranchSeq)
    requires AllCanonical(bs) && x in bs
    ensures Join(JoinAll(bs), x) == JoinAll(bs)
  {
    var k := |bs| - 1;
    JoinAllCanonical(bs[..k]);
    JoinLaws(JoinAll(bs[..k]), bs[k], x);
    JoinLaws(JoinAll(bs[..k]), x, bs[k]);
    JoinLaws(bs[k], x, x);
    if x in bs[..k] {
      Absorbed(bs[..k], x);
    } else {
      assert bs == bs[..k] + [bs[k]];
    }
  }

  lemma {:induction false} AbsorbedAll(bs: seq<BranchSeq>, xs: seq<BranchSeq>)
    requires AllCanonical(bs) && AllCanonical(xs) && forall x :: x in xs ==> x in bs
    ensures Join(JoinAll(bs), JoinAll(xs)) == JoinAll(bs)
    decreases |xs|
  {
    JoinAllCanonical(bs);
    if xs != [] {
      var k := |xs| - 1;
      AbsorbedAll(bs, xs[..k]);
      Absorbed(bs, xs[k]);
      JoinAllCanonical(xs[..k]);
      JoinLaws(JoinAll(bs), JoinAll(xs[..k]), xs[k]);
    } else {
      JoinLaws(JoinAll(bs), UNSEEN, UNSEEN);
    }
  }

  /** The result depends only on which values are merged, not on their order or on how often they come. */
  lemma OrderDoesNotMatter(a: seq<BranchSeq>, b: seq<BranchSeq>)
    requires AllCanonical(a) && AllCanonical(b) && forall x :: x in a <==> x in b
    ensures JoinAll(a) == JoinAll(b)
  {
    AbsorbedAll(a, b);
    AbsorbedAll(b, a);
    JoinAllCanonical(a);
    JoinAllCanonical(b);
    JoinLaws(JoinAll(a), JoinAll(b), UNSEEN);
  }

  // ---------- the times ----------

  /** A branch with the creation time of its highest event. */
  datatype Mark = Mark(branch: BranchSeq, time: nat)

  /** The time follows the higher sequence number; a fork keeps whatever time was there. */
  function JoinMark(a: Mark, b: Mark): Mark {
    Mark(Join(a.branch, b.branch),
         if a.branch.Seen? && b.branch.Seen? && a.branch.maxSeq < b.branch.maxSeq then b.time else a.time)
  }

  function JoinMarks(ms: seq<Mark>): Mark {
    if ms == [] then Mark(UNSEEN, 0) else JoinMark(JoinMarks(ms[..|ms| - 1]), ms[|ms| - 1])
  }

  function Branches(ms: seq<Mark>): seq<BranchSeq> {
    seq(|ms|, i requires 0 <= i < |ms| => ms[i].branch)
  }

  /** The sequence number of an event fixes its time. */
  predicate Timed(m: Mark, at: nat -> nat) {
    m.branch.Seen? ==> m.time == at(m.branch.maxSeq)
  }

  lemma {:induction false} JoinMarksIs(ms: seq<Mark>, at: nat -> nat)
    requires AllCanonical(Branches(ms)) && at(0) == 0 && forall m :: m in ms ==> Timed(m, at)
    ensures JoinMarks(ms).branch == JoinAll(Branches(ms)) && Timed(JoinMarks(ms), at)
  {
    if ms != [] {
      var k := |ms| - 1;
      assert Branches(ms)[..k] == Branches(ms[..k]) && Branches(ms)[k] == ms[k].branch;
      assert ms[k] in ms;
      JoinMarksIs(ms[..k], at);
    }
  }

  /** So merging in any order gives the same branches, and the same times but for forks. */
  lemma MarksInAnyOrder(a: seq<Mark>, b: seq<Mark>, at: nat -> nat)
    requires AllCanonical(Branches(a)) && AllCanonical(Branches(b)) && at(0) == 0
    requires (forall m :: m in a <==> m in b) && forall m :: m in a ==> Timed(m, at)
    ensures JoinMarks(a).branch == JoinMarks(b).branch
    ensures JoinMarks(a).branch.Seen? ==> JoinMarks(a) == JoinMarks(b)
  {
    JoinMarksIs(a, at);
    JoinMarksIs(b, at);
    SameBranches(a, b);
    SameBranches(b, a);
    OrderDoesNotMatter(Branches(a), Branches(b));
  }

  lemma SameBranches(a: seq<Mark>, b: seq<Mark>)
    requires forall m :: m in a ==> m in b
    ensures forall x :: x in Branches(a) ==> x in Branches(b)
  {
    forall x | x in Branches(a) ensures x in Branches(b) {
      var i :| 0 <= i < |a| && a[i].branch == x;
      assert a[i] in a;
      var j :| 0 <= j < |b| && b[j] == a[i];
      assert Branches(b)[j] == x;
    }
  }

  /** The `k`-th of some branches, and the first that is as high. */
  ghost predicate FirstHighest(v: HighestBefore, from: seq<nat>, k: nat, m: Mark)
    requires m.branch.Seen?
    reads v
  {
    && k < |from| && v.At(from[k]) == m
    && forall l :: 0 <= l < k ==> v.Seq(from[l]).Seen? && v.Seq(from[l]).maxSeq < m.branch.maxSeq
  }

  /** What is highest among branches without a fork. */
  ghost predicate IsHighest(v: HighestBefore, from: seq<nat>, m: Mark)
    reads v
  {
    && m.branch.Seen? && (forall l :: 0 <= l < |from| ==> v.Seq(from[l]).Seen? && v.Seq(from[l]).maxSeq <= m.branch.maxSeq)
    && if m.branch.maxSeq == 0 then m == Mark(UNSEEN, 0) else exists k :: FirstHighest(v, from, k, m)
  }

  /** With a fork among the branches the result is a fork, at the time of what is highest before the first one. */
  ghost predicate ForkAfter(v: HighestBefore, from: seq<nat>, k: nat, before: Mark)
    reads v
  {
    k < |from| && v.Seq(from[k]).Fork? && IsHighest(v, from[..k], before)
  }

  /** One branch more. */
  lemma HighestNext(v: HighestBefore, from: seq<nat>, k: nat, m: Mark)
    requires k < |from| && IsHighest(v, from[..k], m) && v.Seq(from[k]).Seen?
    ensures IsHighest(v, from[..k + 1], if v.Seq(from[k]).maxSeq > m.branch.maxSeq then v.At(from[k]) else m)
  {
    if v.Seq(from[k]).maxSeq > m.branch.maxSeq {
      assert FirstHighest(v, from[..k + 1], k, v.At(from[k]));
    } else if m.branch.maxSeq > 0 {
      var l :| FirstHighest(v, from[..k], l, m);
      assert FirstHighest(v, from[..k + 1], l, m);
    }
  }

  // ---------- the vectors ----------

  /** Beyond its end a vector reads as unseen, and it grows when written there. */
  class HighestBefore {
    var vseq: seq<BranchSeq>
    var vtime: seq<nat>

    function Seq(i: nat): BranchSeq
      reads this`vseq
    {
      if i < |vseq| then vseq[i] else UNSEEN
    }

    function Time(i: nat): nat
      reads this`vtime
    {
      if i < |vtime| then vtime[i] else 0
    }

    function At(i: nat): Mark
      reads this
    {
      Mark(Seq(i), Time(i))
    }

    method SetSeq(i: nat, b: BranchSeq)
      modifies this`vseq
      ensures forall j: nat :: Seq(j) == if j == i then b else old(Seq(j))
    {
      while i >= |vseq|
        invariant forall j: nat :: Seq(j) == old(Seq(j))
        decreases i + 1 - |vseq|
      {
        vseq := vseq + [UNSEEN];
      }
      vseq := vseq[i := b];
    }

    method SetTime(i: nat, time: nat)
      modifies this`vtime
      ensures forall j: nat :: Time(j) == if j == i then time else old(Time(j))
    {
      while i >= |vtime|
        invariant forall j: nat :: Time(j) == old(Time(j))
        decreases i + 1 - |vtime|
      {
        vtime := vtime + [0];
      }
      vtime := vtime[i := time];
    }

    /** Merges another vector into this one. */
    method CollectFrom(other: HighestBefore, num: nat)
      requires forall i: nat :: Canonical(other.Seq(i)) && Canonical(Seq(i))
      modifies this
      ensures forall i: nat :: At(i) == if i < num then JoinMark(old(At(i)), old(other.At(i))) else old(At(i))
    {
      for i := 0 to num
        invariant forall j: nat :: At(j) == if j < i then JoinMark(old(At(j)), old(other.At(j))) else old(At(j))
      {
        assert At(i) == old(At(i));
        CollectBranch(other, i);
      }
    }

    method CollectBranch(other: HighestBefore, i: nat)
      requires Canonical(other.Seq(i)) && Canonical(Seq(i))
      modifies this
      ensures forall j: nat :: At(j) == if j == i then JoinMark(old(At(i)), old(other.At(i))) else old(At(j))
    {
      var his := other.Seq(i);
      if Empty(his) {
        return;
      }
      var mine := Seq(i);
      if mine.Fork? {
        return;
      }
      if his.Fork? {
        SetSeq(i, Fork);
        return;
      }
      if mine.maxSeq == 0 || mine.minSeq > his.minSeq {
        mine := mine.(minSeq := his.minSeq);
        SetSeq(i, mine);
      }
      if mine.maxSeq < his.maxSeq {
        mine := mine.(maxSeq := his.maxSeq);
        SetSeq(i, mine);
        SetTime(i, other.Time(i));
      }
    }

    /** Takes the highest of some branches of another vector, the first one with the highest sequence number; a fork if there
        is one. */
    method GatherFrom(to: nat, other: HighestBefore, from: seq<nat>)
      modifies this
      ensures forall j: nat :: j != to ==> At(j) == old(At(j))
      ensures Seq(to).Fork? <==> exists k :: 0 <= k < |from| && old(other.Seq(from[k])).Fork?
      ensures Seq(to).Seen? ==> var m := At(to); old(IsHighest(other, from, m))
      ensures Seq(to).Fork? ==> exists k: nat, before :: old(ForkAfter(other, from, k, before)) && Time(to) == before.time
    {
      hide IsHighest;
      var highest, time := UNSEEN, 0;
      ghost var before := Mark(UNSEEN, 0);
      NothingHighest(other);
      assert from[..0] == [];
      var k := 0;
      while k < |from|
        invariant unchanged(this) && unchanged(other)
        invariant k <= |from| && before == Mark(highest, time) && IsHighest(other, from[..k], before)
        invariant highest.Seen? && forall l :: 0 <= l < k ==> other.Seq(from[l]).Seen?
      {
        var vseq, vtime := other.Seq(from[k]), other.Time(from[k]);
        if vseq.Fork? {
          highest := vseq;
          break;
        }
        HighestNext(other, from, k, before);
        if vseq.maxSeq > highest.maxSeq {
          highest, time := vseq, vtime;
        }
        before := Mark(highest, time);
        k := k + 1;
      }
      assert highest.Seen? ==> from[..k] == from;
      assert highest.Fork? ==> ForkAfter(other, from, k, before);
      SetSeq(to, highest);
      SetTime(to, time);
      assert highest.Fork? ==> old(ForkAfter(other, from, k, before));
      assert highest.Seen? ==> At(to) == before && old(IsHighest(other, from, before));
    }
  }

  lemma NothingHighest(v: HighestBefore)
    ensures IsHighest(v, [], Mark(UNSEEN, 0))
  {
  }
}
