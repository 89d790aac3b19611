/** The weighted median of the times claimed by validators (vecmt/median_time.go). */
module MedianTimes {
  import opened Collections
  import opened Sorting
  import opened VectorClocks

  datatype Entry = Entry(creator: nat, weight: nat, time: nat)

  /** What counts for a validator: a cheater weighs nothing; one of whom nothing is seen claims the default time. */
  function EntryOf(creator: nat, weight: nat, mark: Mark, defaultTime: nat): Entry {
    if mark.branch.Fork? then Entry(creator, 0, mark.time)
    else if mark.branch.maxSeq == 0 then Entry(creator, weight, defaultTime)
    else Entry(creator, weight, mark.time)
  }

  function Entries(weights: seq<nat>, marks: seq<Mark>, defaultTime: nat): (es: seq<Entry>)
    requires |weights| == |marks|
    ensures |es| == |weights|
  {
    seq(|weights|, i requires 0 <= i < |weights| => EntryOf(i, weights[i], marks[i], defaultTime))
  }

  /** The weight of the entries that satisfy a condition. */
  function Weigh(es: seq<Entry>, p: Entry -> bool): nat {
    if es == [] then 0 else Weigh(es[..|es| - 1], p) + (if p(es[|es| - 1]) then es[|es| - 1].weight else 0)
  }

  function All(): Entry -> bool {
    (e: Entry) => true
  }

  function Before(time: nat): Entry -> bool {
    (e: Entry) => e.time < time
  }

  function UpTo(time: nat): Entry -> bool {
    (e: Entry) => e.time <= time
  }

  /** The entries before the median weigh less than half, those up to it at least half. With a half of 0 it is the
      earliest time, and 0 if there is no entry. */
  predicate IsMedian(es: seq<Entry>, time: nat) {
    var half := Weigh(es, All()) / 2;
    if half > 0 then Weigh(es, Before(time)) < half <= Weigh(es, UpTo(time))
    else if es == [] then time == 0
    else (exists e :: e in es && e.time == time) && forall e :: e in es ==> time <= e.time
  }

  // ---------- weighing ----------

  lemma {:induction false} WeighConcat(a: seq<Entry>, b: seq<Entry>, p: Entry -> bool)
    ensures Weigh(a + b, p) == Weigh(a, p) + Weigh(b, p)
    decreases |b|
  {
    if b == [] {
      assert a + b == a;
    } else {
      assert (a + b)[..|a + b| - 1] == a + b[..|b| - 1];
      WeighConcat(a, b[..|b| - 1], p);
    }
  }

  lemma WeighOne(e: Entry, p: Entry -> bool)
    ensures Weigh([e], p) == if p(e) then e.weight else 0
  {
    assert [e][..0] == [];
  }

  lemma {:induction false} WeighLess(es: seq<Entry>, p: Entry -> bool, q: Entry -> bool)
    requires forall e :: e in es && p(e) ==> q(e)
    ensures Weigh(es, p) <= Weigh(es, q)
  {
    if es != [] { WeighLess(es[..|es| - 1], p, q); }
  }

  lemma {:induction false} WeighSplit(es: seq<Entry>, p: Entry -> bool, q: Entry -> bool)
    requires forall e :: e in es ==> (p(e) <==> !q(e))
    ensures Weigh(es, p) + Weigh(es, q) == Weigh(es, All())
  {
    if es != [] { WeighSplit(es[..|es| - 1], p, q); }
  }

  /** The order of the entries does not matter. */
  lemma {:induction false} WeighSame(a: seq<Entry>, b: seq<Entry>, p: Entry -> bool)
    requires multiset(a) == multiset(b)
    ensures Weigh(a, p) == Weigh(b, p)
    decreases |a|
  {
    assert |multiset(a)| == |a| && |multiset(b)| == |b|;
    if a != [] {
      var k := |a| - 1;
      assert a == a[..k] + [a[k]];
      assert a[k] in multiset(b);
      var i :| 0 <= i < |b| && b[i] == a[k];
      assert b == b[..i] + ([b[i]] + b[i + 1..]);
      WeighConcat(b[..i], [b[i]] + b[i + 1..], p);
      WeighConcat([b[i]], b[i + 1..], p);
      WeighConcat(b[..i], b[i + 1..], p);
      WeighOne(b[i], p);
      SameWithout(a, b, k, i);
      WeighSame(a[..k], b[..i] + b[i + 1..], p);
    }
  }

  lemma SameWithout(a: seq<Entry>, b: seq<Entry>, k: nat, i: nat)
    requires multiset(a) == multiset(b) && |a| == k + 1 && i < |b| && b[i] == a[k]
    ensures multiset(a[..k]) == multiset(b[..i] + b[i + 1..])
  {
    MultisetDrop(a, k);
    MultisetDrop(b, i);
    assert a[..k] + a[k + 1..] == a[..k];
    MultisetCancel(multiset(a[..k]), multiset(b[..i] + b[i + 1..]), a[k]);
  }

  lemma MultisetCancel(a: multiset<Entry>, b: multiset<Entry>, e: Entry)
    requires a + multiset{e} == b + multiset{e}
    ensures a == b
  {
    forall x ensures a[x] == b[x] {
      assert (a + multiset{e})[x] == (b + multiset{e})[x];
    }
  }

  // ---------- what a median guarantees ----------

  /** There is only one median. */
  lemma MedianUnique(es: seq<Entry>, one: nat, other: nat)
    requires IsMedian(es, one) && IsMedian(es, other)
    ensures one == other
  {
    if one < other { WeighLess(es, UpTo(one), Before(other)); }
    if other < one { WeighLess(es, UpTo(other), Before(one)); }
  }

  /** It depends on what the entries are, not on the order in which equal times come. */
  lemma MedianOfSame(a: seq<Entry>, b: seq<Entry>, time: nat)
    requires multiset(a) == multiset(b)
    ensures IsMedian(a, time) <==> IsMedian(b, time)
  {
    WeighSame(a, b, All());
    WeighSame(a, b, Before(time));
    WeighSame(a, b, UpTo(time));
    forall e ensures e in a <==> e in b {
      assert e in multiset(a) <==> e in multiset(b);
    }
    assert |multiset(a)| == |a| && |multiset(b)| == |b|;
  }

  function Honest(es: seq<Entry>): seq<Entry> {
    if es == [] then []
    else Honest(es[..|es| - 1]) + if es[|es| - 1].weight > 0 then [es[|es| - 1]] else []
  }

  lemma {:induction false} HonestWeigh(es: seq<Entry>, p: Entry -> bool)
    ensures Weigh(Honest(es), p) == Weigh(es, p)
  {
    if es != [] {
      var e := es[|es| - 1];
      HonestWeigh(es[..|es| - 1], p);
      WeighConcat(Honest(es[..|es| - 1]), if e.weight > 0 then [e] else [], p);
      WeighOne(e, p);
    }
  }

  /** From an honest weight of 2 on, those who weigh nothing have no influence. */
  lemma CheatersDoNotMatter(es: seq<Entry>, time: nat)
    requires Weigh(es, All()) >= 2
    ensures IsMedian(es, time) <==> IsMedian(Honest(es), time)
  {
    HonestWeigh(es, All());
    HonestWeigh(es, Before(time));
    HonestWeigh(es, UpTo(time));
  }

  /** Marks that differ only in what does not count: a fork's time, and the time of a validator of whom nothing is seen. */
  predicate CountTheSame(one: seq<Mark>, other: seq<Mark>) {
    && |one| == |other|
    && forall i :: 0 <= i < |one| ==>
         if one[i].branch.Fork? then other[i].branch.Fork?
         else if one[i].branch.maxSeq == 0 then other[i].branch.Seen? && other[i].branch.maxSeq == 0
         else other[i].branch.Seen? && other[i].branch.maxSeq > 0 && other[i].time == one[i].time
  }

  /** The entries of all but the forks, with the weight they have in the set, and with the default time if nothing of them is
      seen. */
  function Claims(weights: seq<nat>, marks: seq<Mark>, defaultTime: nat): seq<(nat, nat)>
    requires |weights| == |marks|
  {
    if marks == [] then []
    else
      var k := |marks| - 1;
      Claims(weights[..k], marks[..k], defaultTime)
      + if marks[k].branch.Fork? || weights[k] == 0 then []
        else [(weights[k], if marks[k].branch.maxSeq == 0 then defaultTime else marks[k].time)]
  }

  function Claim(es: seq<Entry>): seq<(nat, nat)> {
    if es == [] then [] else Claim(es[..|es| - 1]) + [(es[|es| - 1].weight, es[|es| - 1].time)]
  }

  /** What the honest entries claim is what the validators without a fork claim. */
  lemma {:induction false} HonestClaims(weights: seq<nat>, marks: seq<Mark>, defaultTime: nat)
    requires |weights| == |marks|
    ensures Claim(Honest(Entries(weights, marks, defaultTime))) == Claims(weights, marks, defaultTime)
  {
    if marks != [] {
      var k := |marks| - 1;
      HonestClaims(weights[..k], marks[..k], defaultTime);
      var es := Entries(weights, marks, defaultTime);
      assert es[..k] == Entries(weights[..k], marks[..k], defaultTime);
      var honest := Honest(es[..k]);
      if es[k].weight > 0 {
        assert Honest(es) == honest + [es[k]] && (honest + [es[k]])[..|honest|] == honest;
      } else {
        assert Honest(es) == honest + [] == honest;
        assert marks[k].branch.Fork? || weights[k] == 0;
        var claims := Claims(weights[..k], marks[..k], defaultTime);
        assert Claims(weights, marks, defaultTime) == claims + [] == claims;
      }
    }
  }

  lemma {:induction false} CountedTheSame(weights: seq<nat>, one: seq<Mark>, other: seq<Mark>, defaultTime: nat)
    requires |weights| == |one| && CountTheSame(one, other)
    ensures Claims(weights, one, defaultTime) == Claims(weights, other, defaultTime)
  {
    if one != [] { CountedTheSame(weights[..|one| - 1], one[..|one| - 1], other[..|one| - 1], defaultTime); }
  }

  lemma {:induction false} WeighClaims(a: seq<Entry>, b: seq<Entry>, time: nat)
    requires Claim(a) == Claim(b)
    ensures Weigh(a, All()) == Weigh(b, All())
    ensures Weigh(a, Before(time)) == Weigh(b, Before(time)) && Weigh(a, UpTo(time)) == Weigh(b, UpTo(time))
  {
    ClaimSize(a);
    ClaimSize(b);
    if a != [] {
      ClaimSize(a[..|a| - 1]);
      ClaimSize(b[..|b| - 1]);
      assert Claim(a)[..|a| - 1] == Claim(a[..|a| - 1]) && Claim(b)[..|b| - 1] == Claim(b[..|b| - 1]);
      assert Claim(a)[|a| - 1] == Claim(b)[|b| - 1];
      WeighClaims(a[..|a| - 1], b[..|b| - 1], time);
    }
  }

  lemma {:induction false} ClaimSize(es: seq<Entry>)
    ensures |Claim(es)| == |es|
  {
    if es != [] { ClaimSize(es[..|es| - 1]); }
  }

  /** From an honest weight of 2 on, the median of the validators depends neither on what a fork claims nor on the time of one
      that is not seen. */
  lemma OnlyClaimsMatter(weights: seq<nat>, one: seq<Mark>, other: seq<Mark>, defaultTime: nat, time: nat)
    requires |weights| == |one| && CountTheSame(one, other)
    requires Weigh(Entries(weights, one, defaultTime), All()) >= 2
    ensures IsMedian(Entries(weights, one, defaultTime), time) <==> IsMedian(Entries(weights, other, defaultTime), time)
  {
    var es, fs := Entries(weights, one, defaultTime), Entries(weights, other, defaultTime);
    HonestClaims(weights, one, defaultTime);
    HonestClaims(weights, other, defaultTime);
    CountedTheSame(weights, one, other, defaultTime);
    WeighClaims(Honest(es), Honest(fs), time);
    HonestWeigh(es, All());
    HonestWeigh(fs, All());
    CheatersDoNotMatter(es, time);
    CheatersDoNotMatter(fs, time);
  }

  /** With less honest weight the median is the earliest claim of all. With an honest weight of 1 it is that of the honest
      just when one of them claims as early as every cheater; without honest validators, where theirs would be 0, just when
      nobody claims anything or someone claims 0. */
  lemma CheatersMayMatter(es: seq<Entry>, time: nat)
    requires Weigh(es, All()) < 2 && IsMedian(es, time)
    ensures IsMedian(Honest(es), time) <==>
      if Weigh(es, All()) == 0 then es == [] || exists e :: e in es && e.time == 0
      else exists e :: e in es && e.weight > 0 && forall f :: f in es ==> e.time <= f.time
  {
    hide Weigh, Honest, IsMedian;
    HonestWeigh(es, All());
    HonestAre(es);
    EarliestIs(es, time);
    EarliestIs(Honest(es), time);
    if Weigh(es, All()) == 0 {
      NoHonest(es);
    } else {
      WeighEmpty(All());
      if e :| e in es && e.weight > 0 && forall f :: f in es ==> e.time <= f.time {
        assert e in Honest(es) && e.time == time;
      }
    }
  }

  lemma EarliestIs(es: seq<Entry>, time: nat)
    requires Weigh(es, All()) < 2
    ensures IsMedian(es, time) <==>
      if es == [] then time == 0 else (exists e :: e in es && e.time == time) && forall e :: e in es ==> time <= e.time
  {
  }

  lemma {:induction false} NoHonest(es: seq<Entry>)
    requires Weigh(es, All()) == 0
    ensures Honest(es) == []
  {
    if es != [] { NoHonest(es[..|es| - 1]); }
  }

  lemma {:induction false} HonestAre(es: seq<Entry>)
    ensures forall e :: e in Honest(es) <==> e in es && e.weight > 0
  {
    if es != [] {
      HonestAre(es[..|es| - 1]);
      assert es == es[..|es| - 1] + [es[|es| - 1]];
    }
  }

  /** Two inputs where it does matter: of one honest validator that claims 5 and a cheater that claims 3 the median is 3,
      and of the cheater alone as well, where the honest ones would have 5 and 0. */
  lemma CheaterDecides()
    ensures var es := [Entry(0, 0, 3), Entry(1, 1, 5)]; IsMedian(es, 3) && IsMedian(Honest(es), 5) && !IsMedian(es, 5)
    ensures var es := [Entry(0, 0, 3)]; IsMedian(es, 3) && IsMedian(Honest(es), 0) && !IsMedian(es, 0)
  {
    hide Weigh, IsMedian;
    var a, b := Entry(0, 0, 3), Entry(1, 1, 5);
    WeighPair(a, b, All());
    HonestPair(a, b);
    assert a in [a] && a in [a, b] && b in [b];
    EarliestIs([a, b], 3);
    EarliestIs([a, b], 5);
    EarliestIs([b], 5);
    EarliestIs([a], 3);
    EarliestIs([a], 0);
    EarliestIs([], 0);
  }

  lemma WeighPair(a: Entry, b: Entry, p: Entry -> bool)
    ensures Weigh([], p) == 0 && Weigh([a], p) == (if p(a) then a.weight else 0)
    ensures Weigh([b], p) == (if p(b) then b.weight else 0) && Weigh([a, b], p) == Weigh([a], p) + Weigh([b], p)
  {
    assert [a, b] == [a] + [b];
    WeighConcat([a], [b], p);
    WeighOne(a, p);
    WeighOne(b, p);
  }

  lemma HonestPair(a: Entry, b: Entry)
    requires a.weight == 0 && b.weight > 0
    ensures Honest([a]) == [] && Honest([a, b]) == [b]
  {
    assert [a, b][..1] == [a] && [a][..0] == [];
  }

  /** The median lies among the times of any group that leaves out less than half of the weight. */
  lemma MedianInRange(es: seq<Entry>, time: nat, group: Entry -> bool)
    requires IsMedian(es, time) && Weigh(es, (e: Entry) => !group(e)) < Weigh(es, All()) / 2
    ensures exists e :: e in es && group(e) && e.time <= time
    ensures exists e :: e in es && group(e) && time <= e.time
  {
    var outside := (e: Entry) => !group(e);
    if forall e :: e in es && group(e) ==> time < e.time {
      WeighLess(es, UpTo(time), outside);
    }
    if forall e :: e in es && group(e) ==> e.time < time {
      var late := (e: Entry) => time <= e.time;
      WeighSplit(es, Before(time), late);
      WeighLess(es, late, outside);
    }
  }

  // ---------- the computation ----------

  function Time(): Entry -> nat {
    (e: Entry) => e.time
  }

  ghost function Marks(before: HighestBefore, n: nat): (ms: seq<Mark>)
    reads before
    ensures |ms| == n && forall i: nat :: i < n ==> ms[i] == before.At(i)
  {
    if n == 0 then [] else Marks(before, n - 1) + [before.At(n - 1)]
  }

  /** The weighted median of what the validators claim; `failed` says whether its sanity check fires. */
  method MedianTime(weights: seq<nat>, before: HighestBefore, defaultTime: nat) returns (median: nat, failed: bool)
    ensures !failed && IsMedian(Entries(weights, Marks(before, |weights|), defaultTime), median)
  {
    ghost var es := Entries(weights, Marks(before, |weights|), defaultTime);
    var highests: seq<Entry> := [];
    var honestTotal: nat := 0;
    for i := 0 to |weights|
      invariant highests == es[..i] && honestTotal == Weigh(highests, All())
    {
      var highest := Entry(i, weights[i], before.Time(i));
      var branch := before.Seq(i);
      if branch.Fork? {
        highest := highest.(weight := 0);
      } else if branch.maxSeq == 0 {
        highest := highest.(time := defaultTime);
      }
      assert highest == EntryOf(i, weights[i], before.At(i), defaultTime) == es[i];
      assert es[..i + 1] == es[..i] + [es[i]];
      WeighConcat(highests, [highest], All());
      WeighOne(highest, All());
      highests := highests + [highest];
      honestTotal := honestTotal + highest.weight;
    }
    assert highests == es;
    median, failed := Select(highests, honestTotal);
  }

  /** Goes through the sorted entries until half of the weight is reached. */
  method Select(es: seq<Entry>, honestTotal: nat) returns (median: nat, failed: bool)
    requires honestTotal == Weigh(es, All())
    ensures !failed && IsMedian(es, median)
  {
    var sorted := SortBy(es, Time());
    WeighSame(es, sorted, All());
    var half := honestTotal / 2;
    var curr: nat := 0;
    median := 0;
    var i := 0;
    while i < |sorted|
      invariant i <= |sorted| && curr == Weigh(sorted[..i], All())
      invariant i > 0 ==> curr < half
    {
      assert sorted[..i + 1][..i] == sorted[..i];
      curr := curr + sorted[i].weight;
      if curr >= half {
        median := sorted[i].time;
        Reached(sorted, i);
        break;
      }
      i := i + 1;
    }
    assert i == |sorted| ==> sorted[..i] == sorted;
    failed := curr < half || curr > honestTotal;
    MedianOfSame(es, sorted, median);
  }

  /** The entry at which half of the weight is reached has the median time. */
  lemma Reached(sorted: seq<Entry>, i: nat)
    requires InOrder(sorted, Time()) && i < |sorted|
    requires var half := Weigh(sorted, All()) / 2;
      (i > 0 ==> Weigh(sorted[..i], All()) < half) && half <= Weigh(sorted[..i + 1], All())
    ensures IsMedian(sorted, sorted[i].time) && Weigh(sorted[..i + 1], All()) <= Weigh(sorted, All())
  {
    hide Weigh, InOrder;
    SortedAt(sorted, i);
    var t, low, high := sorted[i].time, sorted[..i], sorted[i..];
    var front, back := sorted[..i + 1], sorted[i + 1..];
    assert sorted == low + high && sorted == front + back;
    WeighConcat(low, high, Before(t));
    WeighConcat(front, back, UpTo(t));
    WeighConcat(front, back, All());
    WeighLess(low, Before(t), All());
    WeighNone(high, Before(t));
    WeighLess(front, All(), UpTo(t));
    assert i == 0 ==> low == [];
    WeighEmpty(All());
    assert sorted[i] in sorted;
  }

  lemma SortedAt(sorted: seq<Entry>, i: nat)
    requires InOrder(sorted, Time()) && i < |sorted|
    ensures forall e :: e in sorted[..i + 1] ==> e.time <= sorted[i].time
    ensures forall e :: e in sorted[i..] ==> sorted[i].time <= e.time
  {
  }

  lemma WeighEmpty(p: Entry -> bool)
    ensures Weigh([], p) == 0
  {
  }

  lemma {:induction false} WeighNone(es: seq<Entry>, p: Entry -> bool)
    requires forall e :: e in es ==> !p(e)
    ensures Weigh(es, p) == 0
  {
    if es != [] { WeighNone(es[..|es| - 1], p); }
  }
}
