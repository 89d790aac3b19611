/** The pool's limit on pending transactions as a level: every account that is not local keeps the lesser of what it had
    and the level (evmcore/tx_pool.go, truncatePending). */
module PoolLimits {
  import opened Collections
  import opened TxLists
  import opened PoolState
  import opened PoolSteps
  import MapSum

  type Counts = map<nat, nat>

  function Lens(lists: Lists): Counts {
    map a | a in lists :: |lists[a].items|
  }

  function AtLevel(counts: Counts, locals: set<nat>, level: nat): Counts {
    map a | a in counts :: if a in locals || counts[a] <= level then counts[a] else level
  }

  /** One less for each of some accounts. */
  function Lowered(counts: Counts, cut: set<nat>): Counts {
    map a | a in counts :: if a in cut && counts[a] > 0 then counts[a] - 1 else counts[a]
  }

  /** What truncation is to achieve: the highest level that respects the limit, but never one below the guaranteed slots. */
  ghost predicate Fair(was: Counts, locals: set<nat>, limit: nat, guaranteed: nat, level: nat, now: Counts) {
    && now == AtLevel(was, locals, level) && level >= guaranteed
    && (MapSum.Sum(now) <= limit || level == guaranteed)
    && MapSum.Sum(AtLevel(was, locals, level + 1)) > limit
  }

  /** The lowest nonces of a list. */
  predicate LowPart(kept: Items, items: Items) {
    SubItems(kept, items) && forall m, n :: m in kept && n in items && n !in kept ==> m < n
  }

  /** Every account keeps the lowest nonces of its list. */
  predicate Trimmed(was: Lists, now: Lists) {
    now.Keys == was.Keys && forall a :: a in now ==> LowPart(now[a].items, was[a].items)
  }

  lemma TrimmedSelf(lists: Lists)
    ensures Trimmed(lists, lists)
  {
  }

  lemma TrimmedTwice(was: Lists, mid: Lists, now: Lists)
    requires Trimmed(was, mid) && Trimmed(mid, now)
    ensures Trimmed(was, now)
  {
    forall a | a in now ensures LowPart(now[a].items, was[a].items) {
      LowPartTwice(was[a].items, mid[a].items, now[a].items);
    }
  }

  lemma TrimmedOne(was: Lists, mid: Lists, a: nat, now: Lists)
    requires Trimmed(was, mid) && a in mid && now.Keys == mid.Keys && now - {a} == mid - {a}
    requires LowPart(now[a].items, mid[a].items)
    ensures Trimmed(was, now)
  {
    forall b | b in now ensures LowPart(now[b].items, was[b].items) {
      if b == a {
        LowPartTwice(was[a].items, mid[a].items, now[a].items);
      } else {
        assert now[b] == (now - {a})[b];
      }
    }
  }

  lemma LowPartTwice(items: Items, mid: Items, kept: Items)
    requires LowPart(mid, items) && LowPart(kept, mid)
    ensures LowPart(kept, items)
  {
  }

  lemma LensAt(lists: Lists, a: nat)
    requires a in lists
    ensures a in Lens(lists) && Lens(lists)[a] == |lists[a].items|
  {
  }

  lemma LensIn(lists: Lists, a: nat)
    ensures a in Lens(lists) <==> a in lists
  {
  }

  lemma LoweredNone(counts: Counts)
    ensures Lowered(counts, {}) == counts
  {
  }

  lemma LensKeys(lists: Lists, was: Lists, locals: set<nat>, level: nat, a: nat)
    requires Lens(lists) == AtLevel(Lens(was), locals, level) && a in Lens(was)
    ensures a in lists && |lists[a].items| == AtLevel(Lens(was), locals, level)[a]
  {
    assert a in Lens(lists);
  }

  lemma LensOne(was: Lists, a: nat, now: Lists)
    requires a in was && now.Keys == was.Keys && now - {a} == was - {a} && |now[a].items| == |was[a].items| - 1
    ensures Lens(now) == Lens(was)[a := |was[a].items| - 1] && MapSum.Sum(Lens(now)) == MapSum.Sum(Lens(was)) - 1
  {
    forall b | b in was && b != a ensures now[b] == was[b] {
      assert now[b] == (now - {a})[b];
    }
    assert Lens(now) == Lens(was)[a := |was[a].items| - 1];
    MapSum.SumUpdate(Lens(was), a, |was[a].items| - 1);
  }

  /** Cutting one more account. */
  lemma LoweredOne(counts: Counts, cut: set<nat>, a: nat)
    requires a in counts && a !in cut && counts[a] > 0
    ensures Lowered(counts, cut + {a}) == Lowered(counts, cut)[a := counts[a] - 1]
    ensures a in Lowered(counts, cut) && Lowered(counts, cut)[a] == counts[a]
  {
  }

  /** The lowest nonces kept by a cap. */
  lemma CapKeeps(l: TxList, caps: Items, rest: TxList)
    requires |l.items| >= 1 && IsLowest(l.items, |l.items| - 1, rest.items)
    ensures LowPart(rest.items, l.items) && |rest.items| == |l.items| - 1
    ensures |l.items| >= 2 ==> rest.items != map[]
  {
  }

  lemma CapTaken(l: TxList, caps: Items, rest: TxList)
    requires SubItems(caps, l.items) && rest.items == l.items - caps.Keys
    ensures rest.items.Keys !! caps.Keys
  {
  }

  // ---------- the level ----------

  /** Cutting one transaction from just the accounts above the next level down leads to that level. */
  lemma LevelDown(was: Counts, locals: set<nat>, level: nat, cut: set<nat>)
    requires level > 0 && cut <= was.Keys && cut !! locals
    requires forall a :: a in cut ==> was[a] >= level
    requires forall a :: a in was && a !in locals && a !in cut ==> was[a] < level
    ensures AtLevel(was, locals, level - 1) == Lowered(AtLevel(was, locals, level), cut)
  {
  }

  lemma LevelTop(was: Counts, locals: set<nat>, level: nat)
    requires forall a :: a in was && a !in locals ==> was[a] <= level
    ensures AtLevel(was, locals, level) == was
  {
  }

  lemma {:induction false} SumMonotone(lower: Counts, upper: Counts)
    requires lower.Keys == upper.Keys && forall a :: a in lower ==> lower[a] <= upper[a]
    ensures MapSum.Sum(lower) <= MapSum.Sum(upper)
    decreases |lower|
  {
    if lower == map[] {
      assert upper.Keys == {};
      assert upper == map[];
    } else {
      var a :| a in lower;
      MapSum.SumWithout(lower, a);
      MapSum.SumWithout(upper, a);
      assert (lower - {a}).Keys == lower.Keys - {a} && |lower.Keys - {a}| < |lower.Keys|;
      SumMonotone(lower - {a}, upper - {a});
    }
  }

  /** A fair outcome is the best one: any other level that respects the limit gives no account more. */
  lemma FairIsBest(was: Counts, locals: set<nat>, limit: nat, guaranteed: nat, level: nat, now: Counts, other: nat)
    requires Fair(was, locals, limit, guaranteed, level, now)
    requires MapSum.Sum(AtLevel(was, locals, other)) <= limit
    ensures other <= level
  {
    if other > level { SumMonotone(AtLevel(was, locals, level + 1), AtLevel(was, locals, other)); }
  }

  /** What a fair outcome means for an account. */
  lemma FairMeans(was: Counts, locals: set<nat>, limit: nat, guaranteed: nat, level: nat, now: Counts)
    requires Fair(was, locals, limit, guaranteed, level, now)
    ensures MapSum.Sum(now) <= limit || forall a :: a in now && a !in locals ==> now[a] <= guaranteed
    ensures forall a :: a in was ==> (a in locals || was[a] <= guaranteed ==> now[a] == was[a])
    ensures forall a :: a in was && was[a] >= guaranteed ==> now[a] >= guaranteed
    ensures forall a, b :: a in was && b in was && now[a] < was[a] && b !in locals ==> now[b] <= now[a]
  {
  }

  // ---------- the rounds ----------

  /** The accounts above the guaranteed slots that are not local: offenders already, or still in the spam order. */
  ghost predicate Split(was: Counts, locals: set<nat>, guaranteed: nat, offenders: seq<nat>, spammers: Counts) {
    && Distinct(offenders) && SetOf(offenders) !! spammers.Keys
    && (forall a :: a in spammers ==> a in was && spammers[a] == was[a])
    && (forall a :: a in SetOf(offenders) ==> a in was)
    && (forall a :: a in was ==>
      (a in SetOf(offenders) || a in spammers <==> a !in locals && was[a] > guaranteed))
  }

  /** All offenders but the last are at the level; the last and the spammers were not above it. */
  ghost predicate Leveled(was: Counts, offenders: seq<nat>, spammers: Counts, level: nat) {
    && offenders != []
    && var last := offenders[|offenders| - 1];
    && last in was && was[last] <= level
    && (forall a :: a in SetOf(Init(offenders)) ==> a in was && was[a] >= level)
    && forall a :: a in spammers ==> a in was && was[a] <= was[last]
  }

  function Init(s: seq<nat>): seq<nat>
    requires s != []
  {
    s[..|s| - 1]
  }

  lemma InitLast(s: seq<nat>)
    requires s != []
    ensures SetOf(s) == SetOf(Init(s)) + {s[|s| - 1]} && (Distinct(s) ==> Distinct(Init(s)))
  {
    assert s == Init(s) + [s[|s| - 1]];
  }

  /** The accounts to be penalized, with their counts as priorities. */
  function Spammers(was: Counts, locals: set<nat>, guaranteed: nat): Counts {
    map a | a in was && a !in locals && was[a] > guaranteed :: was[a]
  }

  lemma SplitStart(was: Counts, locals: set<nat>, guaranteed: nat)
    ensures Split(was, locals, guaranteed, [], Spammers(was, locals, guaranteed))
  {
  }

  /** The largest spammer becomes the next offender. */
  lemma SplitNext(was: Counts, locals: set<nat>, guaranteed: nat, offenders: seq<nat>, spammers: Counts, next: nat)
    requires Split(was, locals, guaranteed, offenders, spammers) && next in spammers
    ensures Split(was, locals, guaranteed, offenders + [next], spammers - {next})
    ensures SetOf(offenders + [next]) == SetOf(offenders) + {next} && Init(offenders + [next]) == offenders
  {
    InitLast(offenders + [next]);
    assert SetOf(offenders + [next]) == SetOf(offenders) + {next};
    forall i | 0 <= i < |offenders| ensures offenders[i] != next {
      assert offenders[i] in SetOf(offenders);
    }
  }

  /** With the first offender the level is the largest count. */
  lemma FirstLevel(was: Counts, locals: set<nat>, guaranteed: nat, spammers: Counts, first: nat)
    requires Split(was, locals, guaranteed, [], spammers) && first in spammers
    requires forall a :: a in spammers ==> was[a] <= was[first]
    ensures AtLevel(was, locals, was[first]) == was && AtLevel(was, locals, was[first] + 1) == was
    ensures first in was && was[first] > guaranteed
    ensures Split(was, locals, guaranteed, [first], spammers - {first})
      && Leveled(was, [first], spammers - {first}, was[first])
  {
    SplitNext(was, locals, guaranteed, [], spammers, first);
    assert [] + [first] == [first];
    forall a | a in was && a !in locals ensures was[a] <= was[first] {
      assert a in spammers || was[a] <= guaranteed;
    }
    LevelTop(was, locals, was[first]);
    LevelTop(was, locals, was[first] + 1);
  }

  lemma NextLevel(was: Counts, locals: set<nat>, guaranteed: nat, offenders: seq<nat>, spammers: Counts, level: nat, next: nat)
    requires Split(was, locals, guaranteed, offenders, spammers) && offenders != [] && next in spammers
    requires Leveled(was, offenders, spammers, level) && level == was[offenders[|offenders| - 1]]
    requires forall a :: a in spammers ==> was[a] <= was[next]
    ensures Split(was, locals, guaranteed, offenders + [next], spammers - {next})
      && Leveled(was, offenders + [next], spammers - {next}, level)
  {
    SplitNext(was, locals, guaranteed, offenders, spammers, next);
    InitLast(offenders);
  }

  /** What a round among all offenders but the last does to the level. */
  lemma RoundAbove(was: Counts, locals: set<nat>, guaranteed: nat, offenders: seq<nat>, spammers: Counts, level: nat)
    requires Split(was, locals, guaranteed, offenders, spammers) && offenders != []
    requires Leveled(was, offenders, spammers, level) && level > was[offenders[|offenders| - 1]]
    ensures AtLevel(was, locals, level - 1) == Lowered(AtLevel(was, locals, level), SetOf(Init(offenders)))
    ensures Leveled(was, offenders, spammers, level - 1) && Distinct(Init(offenders))
    ensures was[offenders[|offenders| - 1]] > guaranteed
    ensures forall a :: a in Init(offenders) ==> a in was && AtLevel(was, locals, level)[a] == level
  {
    InitLast(offenders);
    var last := offenders[|offenders| - 1];
    assert last in SetOf(offenders);
    forall a | a in was && a !in locals && a !in SetOf(Init(offenders)) ensures was[a] < level {
      assert a in SetOf(offenders) ==> a == last;
    }
    forall a | a in Init(offenders) ensures a in SetOf(Init(offenders)) && a in was && a !in locals {
      assert a in SetOf(offenders);
    }
    LevelDown(was, locals, level, SetOf(Init(offenders)));
  }

  /** What a round among all offenders does to the level, when no spammers are left. */
  lemma RoundAll(was: Counts, locals: set<nat>, guaranteed: nat, offenders: seq<nat>, level: nat)
    requires Split(was, locals, guaranteed, offenders, map[]) && level > guaranteed
    requires forall a :: a in SetOf(offenders) ==> was[a] >= level
    ensures AtLevel(was, locals, level - 1) == Lowered(AtLevel(was, locals, level), SetOf(offenders))
    ensures forall a :: a in offenders ==> a in was && AtLevel(was, locals, level)[a] == level
  {
    forall a | a in offenders ensures a in SetOf(offenders) {
    }
    LevelDown(was, locals, level, SetOf(offenders));
  }

  lemma AllAtLevel(was: Counts, offenders: seq<nat>, spammers: Counts, level: nat)
    requires Leveled(was, offenders, spammers, level) && level == was[offenders[|offenders| - 1]]
    ensures forall a :: a in SetOf(offenders) ==> a in was && was[a] >= level
  {
    InitLast(offenders);
  }

  /** Where the last two offenders stand. */
  lemma LastTwo(was: Counts, locals: set<nat>, guaranteed: nat, offenders: seq<nat>, spammers: Counts, level: nat)
    requires Split(was, locals, guaranteed, offenders, spammers) && Leveled(was, offenders, spammers, level)
    requires |offenders| > 1
    ensures var last, other := offenders[|offenders| - 1], offenders[|offenders| - 2];
      && last in was && AtLevel(was, locals, level)[last] == was[last] <= level
      && other in was && AtLevel(was, locals, level)[other] == level
  {
    var other := offenders[|offenders| - 2];
    assert Init(offenders)[|offenders| - 2] == other;
    assert other in SetOf(Init(offenders)) && other in SetOf(offenders);
  }

  /** Counts the transactions of all lists. */
  method CountAll(lists: Lists) returns (total: nat)
    ensures total == MapSum.Sum(Lens(lists))
  {
    total := 0;
    var todo := lists;
    while todo.Keys != {}
      invariant total + MapSum.Sum(Lens(todo)) == MapSum.Sum(Lens(lists))
      decreases todo.Keys
    {
      var a :| a in todo;
      LensWithout(todo, a);
      total := total + |todo[a].items|;
      assert (todo - {a}).Keys == todo.Keys - {a};
      todo := todo - {a};
    }
    assert Lens(todo) == map[];
  }

  lemma LensWithout(lists: Lists, a: nat)
    requires a in lists
    ensures MapSum.Sum(Lens(lists)) == |lists[a].items| + MapSum.Sum(Lens(lists - {a}))
  {
    hide Lens;
    LensAt(lists, a);
    LensMinus(lists, a);
    MapSum.SumWithout(Lens(lists), a);
  }

  lemma LensMinus(lists: Lists, a: nat)
    ensures Lens(lists) - {a} == Lens(lists - {a})
  {
  }

  /** Takes an account of the highest priority. */
  method PopLargest(spammers: Counts) returns (a: nat, rest: Counts)
    requires spammers != map[]
    ensures a in spammers && rest == spammers - {a} && forall b :: b in spammers ==> spammers[b] <= spammers[a]
  {
    a :| a in spammers;
    var todo := spammers.Keys;
    while todo != {}
      invariant a in spammers && todo <= spammers.Keys
      invariant forall b :: b in spammers && b !in todo ==> spammers[b] <= spammers[a]
      decreases todo
    {
      var b :| b in todo;
      if spammers[a] < spammers[b] { a := b; }
      todo := todo - {b};
    }
    rest := spammers - {a};
  }

  /** No account has more than all together. */
  lemma LevelOfAll(counts: Counts, locals: set<nat>)
    ensures AtLevel(counts, locals, MapSum.Sum(counts)) == counts
    ensures AtLevel(counts, locals, MapSum.Sum(counts) + 1) == counts
  {
    forall a | a in counts ensures counts[a] <= MapSum.Sum(counts) {
      MapSum.SumWithout(counts, a);
    }
    LevelTop(counts, locals, MapSum.Sum(counts));
  }

  /** Without offenders every account that is not local has no more than the guaranteed slots. */
  lemma NoOffenders(was: Counts, locals: set<nat>, guaranteed: nat)
    requires Split(was, locals, guaranteed, [], map[])
    ensures AtLevel(was, locals, guaranteed) == was && AtLevel(was, locals, guaranteed + 1) == was
  {
    LevelTop(was, locals, guaranteed);
    LevelTop(was, locals, guaranteed + 1);
  }

  lemma AboveGuaranteed(was: Counts, locals: set<nat>, guaranteed: nat, offenders: seq<nat>, spammers: Counts, level: nat)
    requires Split(was, locals, guaranteed, offenders, spammers) && Leveled(was, offenders, spammers, level)
    ensures level > guaranteed
  {
    InitLast(offenders);
    assert offenders[|offenders| - 1] in SetOf(offenders);
  }

  // ---------- the limit on queued transactions ----------

  function Larger(a: nat, b: nat): nat {
    if a < b then b else a
  }

  /** What truncating the queue leaves: the lists of local accounts, and of the others the lowest nonces, taken from
      the accounts with the latest heartbeats first. */
  ghost predicate QueueCut(was: Lists, beats: Counts, locals: set<nat>, now: Lists)
    requires was.Keys <= beats.Keys
  {
    && now.Keys <= was.Keys && (forall a :: a in now ==> LowPart(now[a].items, was[a].items))
    && (forall a :: a in was && a in locals ==> a in now && now[a] == was[a])
    && (forall a, b :: a in was && b in was && Lost(was, a, now) && b !in locals && beats[a] < beats[b] ==> b !in now)
  }

  predicate Lost(was: Lists, a: nat, now: Lists)
    requires a in was
  {
    a !in now || now[a] != was[a]
  }

  /** The accounts still to be looked at, by heartbeat, are as they were; of the others none is left but the last one
      looked at, and that only when nothing remains to be dropped. */
  ghost predicate Cutting(was: Lists, beats: Counts, locals: set<nat>, addresses: seq<nat>, cut: nat, drop: nat, now: Lists)
    requires was.Keys <= beats.Keys
  {
    && now.Keys <= was.Keys && (forall a :: a in now ==> LowPart(now[a].items, was[a].items))
    && (forall a :: a in SetOf(addresses) ==> a in was && a !in locals)
    && (forall a :: a in was && (a in locals || a in SetOf(addresses)) ==> a in now && now[a] == was[a])
    && (forall a :: a in now && a !in locals && a !in SetOf(addresses) ==> a == cut && drop == 0)
    && (forall a, b :: a in SetOf(addresses) && b in was && b !in locals && b !in SetOf(addresses) ==> beats[a] <= beats[b])
    && (forall b :: cut in was && b in was && b !in locals && b !in SetOf(addresses) ==> beats[cut] <= beats[b])
  }

  lemma CuttingLast(was: Lists, beats: Counts, locals: set<nat>, addresses: seq<nat>, cut: nat, drop: nat, now: Lists)
    requires was.Keys <= beats.Keys && Cutting(was, beats, locals, addresses, cut, drop, now) && addresses != []
    ensures addresses[|addresses| - 1] in now
  {
    assert addresses[|addresses| - 1] in SetOf(addresses);
  }

  lemma DistinctInit(s: seq<nat>, beats: Counts)
    requires s != [] && Distinct(s) && ByBeat(s, beats)
    ensures Distinct(Init(s)) && ByBeat(Init(s), beats)
  {
  }

  lemma CutDone(was: Lists, beats: Counts, locals: set<nat>, addresses: seq<nat>, cut: nat, drop: nat, now: Lists)
    requires was.Keys <= beats.Keys && Cutting(was, beats, locals, addresses, cut, drop, now)
    ensures QueueCut(was, beats, locals, now)
  {
    forall a, b | a in was && b in was && Lost(was, a, now) && b !in locals && beats[a] < beats[b] ensures b !in now {
      assert a !in locals && a !in SetOf(addresses);
      assert b !in SetOf(addresses);
    }
  }

  predicate ByBeat(addresses: seq<nat>, beats: Counts) {
    && (forall i :: 0 <= i < |addresses| ==> addresses[i] in beats)
    && forall i, j :: 0 <= i < j < |addresses| ==> beats[addresses[i]] <= beats[addresses[j]]
  }

  /** The last address is looked at: its list is gone, or nothing remains to be dropped. */
  lemma CutNext(was: Lists, beats: Counts, locals: set<nat>, addresses: seq<nat>, cut: nat, drop: nat, mid: Lists,
                a: nat, left: nat, now: Lists)
    requires was.Keys <= beats.Keys && Cutting(was, beats, locals, addresses, cut, drop, mid) && drop > 0
    requires addresses != [] && a == addresses[|addresses| - 1] && ByBeat(addresses, beats) && Distinct(addresses)
    requires now - {a} == mid - {a} && a in mid && (a in now ==> left == 0 && LowPart(now[a].items, mid[a].items))
    ensures Cutting(was, beats, locals, Init(addresses), a, left, now)
  {
    InitLast(addresses);
    NotYet(addresses, |addresses| - 1);
    assert a in SetOf(addresses) && a !in SetOf(Init(addresses));
    forall x | x != a ensures (x in now <==> x in mid) && (x in now ==> now[x] == mid[x]) {
      assert x in now - {a} <==> x in mid - {a};
      if x in now { assert now[x] == (now - {a})[x]; }
    }
    forall x | x in SetOf(Init(addresses)) ensures beats[x] <= beats[a] {
      var i :| 0 <= i < |Init(addresses)| && Init(addresses)[i] == x;
      assert addresses[i] == x;
    }
  }

  lemma CutStart(was: Lists, beats: Counts, locals: set<nat>, addresses: seq<nat>, drop: nat)
    requires was.Keys <= beats.Keys && SetOf(addresses) == was.Keys - locals
    ensures Cutting(was, beats, locals, addresses, 0, drop, was)
  {
  }

  /** Sorts accounts by heartbeat. */
  method SortByBeat(accounts: set<nat>, beats: Counts) returns (sorted: seq<nat>)
    requires accounts <= beats.Keys
    ensures SetOf(sorted) == accounts && Distinct(sorted) && ByBeat(sorted, beats)
  {
    sorted := [];
    var todo := accounts;
    while todo != {}
      invariant todo <= accounts && SetOf(sorted) == accounts - todo && Distinct(sorted) && ByBeat(sorted, beats)
      invariant forall a, i :: a in todo && 0 <= i < |sorted| ==> beats[a] <= beats[sorted[i]]
      decreases todo
    {
      var a := Latest(todo, beats);
      SetOfFront(sorted, a);
      forall i | 0 <= i < |sorted| ensures sorted[i] != a {
        assert sorted[i] in SetOf(sorted);
      }
      sorted := [a] + sorted;
      todo := todo - {a};
    }
  }

  lemma SetOfFront(s: seq<nat>, a: nat)
    ensures SetOf([a] + s) == SetOf(s) + {a}
  {
  }

  method Latest(accounts: set<nat>, beats: Counts) returns (a: nat)
    requires accounts != {} && accounts <= beats.Keys
    ensures a in accounts && forall b :: b in accounts ==> beats[b] <= beats[a]
  {
    a :| a in accounts;
    var todo := accounts;
    while todo != {}
      invariant a in accounts && todo <= accounts
      invariant forall b :: b in accounts && b !in todo ==> beats[b] <= beats[a]
      decreases todo
    {
      var b :| b in todo;
      if beats[a] < beats[b] { a := b; }
      todo := todo - {b};
    }
  }

  /** One list has become shorter, or is gone. */
  lemma LensShorter(was: Lists, a: nat, now: Lists, k: nat)
    requires a in was && now - {a} == was - {a} && k <= |was[a].items|
    requires if a in now then |now[a].items| == |was[a].items| - k else k == |was[a].items|
    ensures MapSum.Sum(Lens(now)) == MapSum.Sum(Lens(was)) - k
  {
    LensWithout(was, a);
    if a in now {
      LensWithout(now, a);
    } else {
      assert now - {a} == now;
    }
  }

  /** The number of transactions of local accounts does not depend on the others. */
  lemma OnlySame(was: Lists, beats: Counts, locals: set<nat>, now: Lists)
    requires was.Keys <= beats.Keys && QueueCut(was, beats, locals, now)
    ensures MapSum.Restrict(Lens(now), locals) == MapSum.Restrict(Lens(was), locals)
  {
  }

  lemma OnlyAtMost(counts: Counts, locals: set<nat>)
    ensures MapSum.Sum(MapSum.Restrict(counts, locals)) <= MapSum.Sum(counts)
    ensures counts.Keys <= locals ==> MapSum.Restrict(counts, locals) == counts
  {
    MapSum.SumSplit(counts, locals);
  }

  lemma LowPartSelf(items: Items)
    ensures LowPart(items, items)
  {
  }

  lemma WithoutHighest(items: Items, n: nat)
    requires n in items && forall m :: m in items ==> m <= n
    ensures LowPart(items - {n}, items) && |items - {n}| == |items| - 1
  {
    TxLists.Without(items, n);
  }

  /** The count after truncating a queue that was over the limit. */
  lemma CutTotal(was: Lists, beats: Counts, locals: set<nat>, addresses: seq<nat>, cut: nat, drop: nat, now: Lists)
    requires was.Keys <= beats.Keys && Cutting(was, beats, locals, addresses, cut, drop, now)
    requires drop == 0 || addresses == []
    ensures MapSum.Sum(Lens(now)) >= MapSum.Sum(MapSum.Restrict(Lens(was), locals))
    ensures drop > 0 ==> MapSum.Sum(Lens(now)) == MapSum.Sum(MapSum.Restrict(Lens(was), locals))
  {
    CutDone(was, beats, locals, addresses, cut, drop, now);
    OnlySame(was, beats, locals, now);
    OnlyAtMost(Lens(now), locals);
  }

  lemma FitTrimmed(items: Items, kept: Items, nonce: nat, balance: nat, maxGas: nat)
    requires Fit(items, nonce, balance, maxGas) && LowPart(kept, items) && kept != map[]
    ensures Fit(kept, nonce, balance, maxGas)
  {
    var m :| m in kept;
    assert m in items && m >= nonce;
  }

  lemma FairWithin(lists: Lists, was: Counts, locals: set<nat>, limit: nat, guaranteed: nat, level: nat)
    requires Fair(was, locals, limit, guaranteed, level, Lens(lists))
    ensures MapSum.Sum(Lens(lists)) <= limit
      || forall a :: a in lists && a !in locals ==> |lists[a].items| <= guaranteed
  {
    hide Fair;
    FairMeans(was, locals, limit, guaranteed, level, Lens(lists));
    forall a | a in lists ensures a in Lens(lists) && Lens(lists)[a] == |lists[a].items| {
    }
  }
}
