/** From a topic pattern to the search and back: what a finished search delivers is the naive filter over the pushed logs
    (topicsdb/topicsdb.go, topicsdb/search_parallel.go). */
module LogPattern {
  import opened Collections
  import opened LogKeys
  import opened LogIndex
  import opened LogSearch
  import opened LogSearchSafety
  import opened LogSearchTheorems

  /** For each position the hashes accepted there; an empty position accepts anything. */
  type Pattern = seq<seq<Hash>>

  const MAX_POSITIONS := MAX_TOPICS + 1

  /** What limitPattern leaves: the first positions, each variant once, in any order. */
  ghost predicate IsLimited(pattern: Pattern, limited: Pattern) {
    && |limited| == (if |pattern| > MAX_POSITIONS then MAX_POSITIONS else |pattern|)
    && (forall p :: 0 <= p < |limited| ==>
          Distinct(limited[p]) && forall h :: h in limited[p] <==> h in pattern[p])
  }

  predicate AllEmpty(pattern: Pattern) {
    forall p :: 0 <= p < |pattern| ==> pattern[p] == []
  }

  /** Each element of `hs` once. */
  method UniqOnly(hs: seq<Hash>) returns (uniq: seq<Hash>)
    ensures Distinct(uniq) && forall h :: h in uniq <==> h in hs
  {
    uniq := [];
    var index: set<Hash> := set h | h in hs;
    while index != {}
      invariant Distinct(uniq)
      invariant forall h :: h in uniq ==> h !in index
      invariant forall h :: h in hs <==> h in uniq || h in index
      decreases index
    {
      var h :| h in index;
      uniq, index := uniq + [h], index - {h};
    }
  }

  /** An error is reported when nothing is left to search for. */
  method LimitPattern(pattern: Pattern) returns (limited: Pattern, emptyTopics: bool)
    ensures IsLimited(pattern, limited)
    ensures emptyTopics <==> AllEmpty(limited)
  {
    var n := if |pattern| > MAX_POSITIONS then MAX_POSITIONS else |pattern|;
    limited, emptyTopics := pattern[..n], true;
    for i := 0 to n
      invariant |limited| == n && limited[i..] == pattern[i..n]
      invariant forall p :: 0 <= p < i ==> Distinct(limited[p]) && forall h :: h in limited[p] <==> h in pattern[p]
      invariant emptyTopics <==> forall p :: 0 <= p < i ==> limited[p] == []
    {
      assert limited[i] == pattern[i];
      emptyTopics := emptyTopics && |limited[i]| == 0;
      if |limited[i]| > 1 {
        var uniq := UniqOnly(limited[i]);
        assert pattern[i][0] in uniq;
        limited := limited[i := uniq];
      }
    }
  }

  /** The naive filter: block range, enough topics, and an accepted hash at every non-empty position. */
  predicate Matches(l: Log, pattern: Pattern, from: uint64, to: uint64) {
    && from <= l.id.block && (to > 0 ==> l.id.block <= to)
    && |l.topics| >= |pattern| - 1
    && (forall p :: 0 <= p < |pattern| && pattern[p] != [] ==> Accepts(l, p, pattern[p]))
  }

  /** What stands at a position is one of these. */
  predicate Accepts(l: Log, p: nat, hs: seq<Hash>) {
    exists h :: h in hs && Stands(l, p, h)
  }

  /** The (position, variant) pairs that get a thread. */
  function Slots(pattern: Pattern): seq<(nat, Hash)> {
    if |pattern| == 0 then [] else Slots(pattern[..|pattern| - 1]) + At(|pattern| - 1, pattern[|pattern| - 1])
  }

  function At(p: nat, hs: seq<Hash>): (r: seq<(nat, Hash)>)
    ensures |r| == |hs|
  {
    seq(|hs|, i requires 0 <= i < |hs| => (p, hs[i]))
  }

  /** The slots are exactly the pairs of the pattern, each once. */
  lemma {:induction false} SlotsAre(pattern: Pattern)
    requires forall p :: 0 <= p < |pattern| ==> Distinct(pattern[p])
    ensures forall p: nat, h :: (p, h) in Slots(pattern) <==> p < |pattern| && h in pattern[p]
    ensures forall i, j :: 0 <= i < j < |Slots(pattern)| ==> Slots(pattern)[i] != Slots(pattern)[j]
  {
    if |pattern| > 0 {
      var n := |pattern| - 1;
      SlotsAre(pattern[..n]);
      var front, last := Slots(pattern[..n]), At(n, pattern[n]);
      forall p: nat, h ensures (p, h) in Slots(pattern) <==> p < |pattern| && h in pattern[p] {
        AtHas(n, pattern[n], p, h);
        assert (p, h) in front + last <==> (p, h) in front || (p, h) in last;
      }
      var all: seq<(nat, Hash)> := front + last;
      forall i, j | 0 <= i < j < |all| ensures all[i] != all[j] {
        if i < |front| <= j {
          assert front[i] in front;
          assert (front[i].0, front[i].1) in front;
        }
      }
    }
  }

  lemma AtHas(n: nat, hs: seq<Hash>, p: nat, h: Hash)
    ensures (p, h) in At(n, hs) <==> p == n && h in hs
  {
    if p == n && h in hs {
      var i :| 0 <= i < |hs| && hs[i] == h;
      assert At(n, hs)[i] == (p, h);
    }
  }

  /** What a thread reads from the topic table. */
  ghost predicate ReadsScan(topic: map<bytes, byte>, variant: Hash, pos: byte, start: uint64, entries: seq<Entry>) {
    exists keys: seq<bytes> :: ScanRead(topic, variant, pos, start, keys, entries)
  }

  ghost predicate ScanRead(topic: map<bytes, byte>, variant: Hash, pos: byte, start: uint64,
                           keys: seq<bytes>, entries: seq<Entry>) {
    && IsScan(topic, variant, pos, start, keys) && |entries| == |keys|
    && (forall i :: 0 <= i < |keys| ==>
          |keys[i]| == TOPIC_KEY_SIZE && keys[i] in topic && entries[i] == Entry(ExtractLogrecId(keys[i]), topic[keys[i]]))
  }

  /** The search searchParallel starts for a limited pattern. */
  ghost predicate IsSearch(c: Config, topic: map<bytes, byte>, pattern: Pattern, from: uint64, to: uint64) {
    && 0 < |pattern| <= MAX_POSITIONS
    && c.blockEnd == to && c.minTopics == |pattern| - 1
    && |c.workers| == |Slots(pattern)|
    && (forall t :: 0 <= t < |c.workers| ==> WorkerReads(c.workers[t], topic, Slots(pattern)[t], from))
  }

  ghost predicate WorkerReads(w: Worker, topic: map<bytes, byte>, slot: (nat, Hash), from: uint64) {
    w.pos == slot.0 && slot.0 < 256 && ReadsScan(topic, slot.1, slot.0, from, w.entries)
  }

  /** The entries are the logs with that field. */
  ghost predicate EntriesAre(w: Worker, logs: Contents, slot: (nat, Hash), from: uint64) {
    && (forall i :: 0 <= i < |w.entries| ==> EntryIs(w.entries[i], logs, slot, from))
    && (forall id :: id in logs && HasField(logs[id], slot.1, slot.0, from) ==>
          exists i :: 0 <= i < |w.entries| && w.entries[i].id == id)
  }

  predicate EntryIs(e: Entry, logs: Contents, slot: (nat, Hash), from: uint64) {
    e.id in logs && HasField(logs[e.id], slot.1, slot.0, from) && e.topics == |logs[e.id].topics|
  }

  lemma WorkerEntries(w: Worker, topic: map<bytes, byte>, logrec: map<bytes, bytes>, logs: Contents,
                      slot: (nat, Hash), from: uint64)
    requires Represents(topic, logrec, logs) && WorkerReads(w, topic, slot, from)
    ensures EntriesAre(w, logs, slot, from) && WorkerOk(w)
  {
    hide Represents, IsScan, HasField, ExtractLogrecId;
    var keys :| ScanRead(topic, slot.1, slot.0, from, keys, w.entries);
    ScanMeaning(topic, logrec, logs, slot.1, slot.0, from, keys, w.entries);
  }

  /** A thread wants exactly the logs of its variant that are in range and have enough topics. */
  lemma WorkerWants(c: Config, w: Worker, topic: map<bytes, byte>, logrec: map<bytes, bytes>, logs: Contents,
                    slot: (nat, Hash), from: uint64, id: ID)
    requires Represents(topic, logrec, logs) && WorkerReads(w, topic, slot, from)
    ensures id in Wanted(c, w) <==>
      id in logs && HasField(logs[id], slot.1, slot.0, from) && Eligible(c, Entry(id, |logs[id].topics|))
  {
    WorkerEntries(w, topic, logrec, logs, slot, from);
    WantedAre(c, w, logs, slot, from, id);
  }

  lemma WantedAre(c: Config, w: Worker, logs: Contents, slot: (nat, Hash), from: uint64, id: ID)
    requires EntriesAre(w, logs, slot, from)
    ensures id in Wanted(c, w) <==>
      id in logs && HasField(logs[id], slot.1, slot.0, from) && Eligible(c, Entry(id, |logs[id].topics|))
  {
    hide HasField, Eligible;
    if id in Wanted(c, w) {
      var i :| 0 <= i < |w.entries| && Eligible(c, w.entries[i]) && w.entries[i].id == id;
      assert EntryIs(w.entries[i], logs, slot, from);
      assert w.entries[i] == Entry(id, |logs[id].topics|);
    }
    if id in logs && HasField(logs[id], slot.1, slot.0, from) && Eligible(c, Entry(id, |logs[id].topics|)) {
      var i :| 0 <= i < |w.entries| && w.entries[i].id == id;
      assert EntryIs(w.entries[i], logs, slot, from);
      assert w.entries[i] == Entry(id, |logs[id].topics|);
    }
  }

  predicate Unique(pattern: Pattern) {
    forall p :: 0 <= p < |pattern| ==> Distinct(pattern[p])
  }

  lemma SearchIsWellFormed(c: Config, topic: map<bytes, byte>, logrec: map<bytes, bytes>, logs: Contents,
                           pattern: Pattern, from: uint64, to: uint64)
    requires Represents(topic, logrec, logs) && IsSearch(c, topic, pattern, from, to)
    requires Unique(pattern) && !AllEmpty(pattern)
    ensures WellFormed(c)
  {
    hide Represents, WorkerReads, Wanted, Slots;
    SlotsAre(pattern);
    var slots := Slots(pattern);
    assert |slots| > 0 by {
      var p :| 0 <= p < |pattern| && pattern[p] != [];
      assert (p, pattern[p][0]) in slots;
    }
    forall t | 0 <= t < |c.workers| ensures WorkerOk(c.workers[t]) {
      WorkerEntries(c.workers[t], topic, logrec, logs, slots[t], from);
    }
    forall t, u | 0 <= t < |c.workers| && 0 <= u < |c.workers| && t != u && c.workers[t].pos == c.workers[u].pos
      ensures Wanted(c, c.workers[t]) !! Wanted(c, c.workers[u])
    {
      SlotPosition(c.workers[t], topic, slots[t], from);
      SlotPosition(c.workers[u], topic, slots[u], from);
      assert slots[t] != slots[u] && slots[t].0 == slots[u].0;
      VariantsApart(c, c.workers[t], c.workers[u], topic, logrec, logs, slots[t], slots[u], from);
    }
  }

  lemma SomeWorker(c: Config)
    requires WellFormed(c)
    ensures |c.workers| > 0
  {
  }

  lemma SlotPosition(w: Worker, topic: map<bytes, byte>, slot: (nat, Hash), from: uint64)
    requires WorkerReads(w, topic, slot, from)
    ensures w.pos == slot.0
  {
  }

  /** Threads for different variants of a position want different logs. */
  lemma VariantsApart(c: Config, w: Worker, v: Worker, topic: map<bytes, byte>, logrec: map<bytes, bytes>, logs: Contents,
                      s: (nat, Hash), t: (nat, Hash), from: uint64)
    requires Represents(topic, logrec, logs) && WorkerReads(w, topic, s, from) && WorkerReads(v, topic, t, from)
    requires s.0 == t.0 && s.1 != t.1
    ensures Wanted(c, w) !! Wanted(c, v)
  {
    hide Represents, WorkerReads, Wanted, Eligible;
    forall id | id in Wanted(c, w) ensures id !in Wanted(c, v) {
      WorkerWants(c, w, topic, logrec, logs, s, from, id);
      WorkerWants(c, v, topic, logrec, logs, t, from, id);
    }
  }

  lemma EverywhereIsMatching(c: Config, topic: map<bytes, byte>, logrec: map<bytes, bytes>, logs: Contents,
                             pattern: Pattern, from: uint64, to: uint64, id: ID)
    requires Represents(topic, logrec, logs) && IsSearch(c, topic, pattern, from, to)
    requires Unique(pattern) && !AllEmpty(pattern)
    ensures Everywhere(c, id) <==> id in logs && Matches(logs[id], pattern, from, to)
  {
    SlotsAre(pattern);
    if Everywhere(c, id) {
      WantedEverywhereMatches(c, topic, logrec, logs, pattern, from, to, id);
    }
    if id in logs && Matches(logs[id], pattern, from, to) {
      forall p | p in Positions(c)
        ensures exists t :: 0 <= t < |c.workers| && c.workers[t].pos == p && id in Wanted(c, c.workers[t])
      {
        var t := MatchIsWanted(c, topic, logrec, logs, pattern, from, to, id, p);
      }
    }
  }

  lemma WantedEverywhereMatches(c: Config, topic: map<bytes, byte>, logrec: map<bytes, bytes>, logs: Contents,
                                pattern: Pattern, from: uint64, to: uint64, id: ID)
    requires Represents(topic, logrec, logs) && IsSearch(c, topic, pattern, from, to)
    requires Unique(pattern) && !AllEmpty(pattern) && Everywhere(c, id)
    ensures id in logs && Matches(logs[id], pattern, from, to)
  {
    SlotsAre(pattern);
    forall p | 0 <= p < |pattern| && pattern[p] != []
      ensures id in logs && p <= |logs[id].topics| && Accepts(logs[id], p, pattern[p])
      ensures from <= id.block && Eligible(c, Entry(id, |logs[id].topics|))
    {
      var t := SlotOf(c, topic, pattern, from, to, p, pattern[p][0]);
      var u := HolderAt(c, id, p);
      WorkerWants(c, c.workers[u], topic, logrec, logs, Slots(pattern)[u], from, id);
      assert (p, Slots(pattern)[u].1) in Slots(pattern);
    }
    var p :| 0 <= p < |pattern| && pattern[p] != [];
    assert logs[id].id == id;
  }

  /** The thread of a variant. */
  lemma SlotOf(c: Config, topic: map<bytes, byte>, pattern: Pattern, from: uint64, to: uint64, p: nat, h: Hash)
    returns (t: nat)
    requires IsSearch(c, topic, pattern, from, to) && Unique(pattern)
    requires p < |pattern| && h in pattern[p]
    ensures t < |c.workers| && Slots(pattern)[t] == (p, h) && c.workers[t].pos == p && p in Positions(c)
    ensures WorkerReads(c.workers[t], topic, (p, h), from)
  {
    SlotsAre(pattern);
    assert (p, h) in Slots(pattern);
    t :| 0 <= t < |Slots(pattern)| && Slots(pattern)[t] == (p, h);
    assert WorkerReads(c.workers[t], topic, Slots(pattern)[t], from);
  }

  lemma MatchIsWanted(c: Config, topic: map<bytes, byte>, logrec: map<bytes, bytes>, logs: Contents,
                      pattern: Pattern, from: uint64, to: uint64, id: ID, p: nat) returns (t: nat)
    requires Represents(topic, logrec, logs) && IsSearch(c, topic, pattern, from, to) && Unique(pattern)
    requires id in logs && Matches(logs[id], pattern, from, to) && p in Positions(c)
    ensures t < |c.workers| && c.workers[t].pos == p && id in Wanted(c, c.workers[t])
  {
    hide Represents, IsSearch, Matches, Unique, Positions, Wanted, Slots, Eligible, WorkerReads;
    SearchedPosition(c, topic, pattern, from, to, p);
    var h := MatchHasField(c, topic, logrec, logs, pattern, from, to, id, p);
    t := SlotOf(c, topic, pattern, from, to, p, h);
    WorkerWants(c, c.workers[t], topic, logrec, logs, (p, h), from, id);
  }

  lemma SearchedPosition(c: Config, topic: map<bytes, byte>, pattern: Pattern, from: uint64, to: uint64, p: nat)
    requires IsSearch(c, topic, pattern, from, to) && Unique(pattern) && p in Positions(c)
    ensures p < |pattern| && pattern[p] != []
  {
    SlotsAre(pattern);
    var u :| 0 <= u < |c.workers| && c.workers[u].pos == p;
    assert WorkerReads(c.workers[u], topic, Slots(pattern)[u], from);
    assert (p, Slots(pattern)[u].1) in Slots(pattern);
  }

  lemma MatchHasField(c: Config, topic: map<bytes, byte>, logrec: map<bytes, bytes>, logs: Contents,
                      pattern: Pattern, from: uint64, to: uint64, id: ID, p: nat) returns (h: Hash)
    requires Represents(topic, logrec, logs) && IsSearch(c, topic, pattern, from, to)
    requires id in logs && Matches(logs[id], pattern, from, to) && p < |pattern| && pattern[p] != []
    ensures h in pattern[p] && HasField(logs[id], h, p, from)
    ensures Eligible(c, Entry(id, |logs[id].topics|))
  {
    hide WorkerReads, Slots, Stands;
    assert logs[id].id == id && Accepts(logs[id], p, pattern[p]);
    h :| h in pattern[p] && Stands(logs[id], p, h);
  }

  /** What a search may hand over: the matching logs, each once. */
  ghost predicate IsAnswer(ids: seq<ID>, logs: Contents, pattern: Pattern, from: uint64, to: uint64) {
    Distinct(ids) && forall id :: id in ids <==> id in logs && Matches(logs[id], pattern, from, to)
  }

  /** The concurrent search equals the naive filter: whatever the interleaving, when the caller stops waiting it was
      handed exactly the matching logs, each once and in block order. */
  lemma SearchIsFilter(c: Config, run: seq<State>, topic: map<bytes, byte>, logrec: map<bytes, bytes>, logs: Contents,
                       pattern: Pattern, from: uint64, to: uint64)
    requires Represents(topic, logrec, logs) && IsSearch(c, topic, pattern, from, to)
    requires Unique(pattern) && !AllEmpty(pattern)
    requires IsRun(c, run) && run[|run| - 1].barrier.threads == 0
    ensures IsAnswer(run[|run| - 1].delivered, logs, pattern, from, to)
    ensures InBlockOrder(run[|run| - 1].delivered)
  {
    hide Represents, IsSearch, Everywhere, WellFormed, Matches, TotalWork, Panics;
    SearchIsWellFormed(c, topic, logrec, logs, pattern, from, to);
    SomeWorker(c);
    EveryRunIsSafe(c, run, 0);
    forall id ensures id in run[|run| - 1].delivered <==> id in logs && Matches(logs[id], pattern, from, to) {
      SearchIsExact(c, run, id);
      EverywhereIsMatching(c, topic, logrec, logs, pattern, from, to, id);
    }
  }

  /** A caller's pattern without the positions that are silently cut off. */
  function FirstPositions(pattern: Pattern): Pattern {
    if |pattern| > 6 then pattern[..6] else pattern
  }

  /** Limiting changes what is searched for only by the positions it cuts off. A log with no more topics than can be stored
      matches no pattern with more positions, so that a search for one delivers exactly what its first positions select
      instead of nothing. */
  lemma LimitedMatches(l: Log, pattern: Pattern, limited: Pattern, from: uint64, to: uint64)
    requires IsLimited(pattern, limited)
    ensures Matches(l, limited, from, to) <==> Matches(l, FirstPositions(pattern), from, to)
    ensures |pattern| <= 6 ==> (Matches(l, limited, from, to) <==> Matches(l, pattern, from, to))
    ensures |pattern| > 6 && |l.topics| <= 5 ==> !Matches(l, pattern, from, to)
  {
    hide Stands;
    var first := FirstPositions(pattern);
    forall p | 0 <= p < |limited|
      ensures limited[p] == [] <==> first[p] == []
      ensures Accepts(l, p, limited[p]) <==> Accepts(l, p, first[p])
    {
      if limited[p] != [] { assert limited[p][0] in first[p]; }
      if first[p] != [] { assert first[p][0] in limited[p]; }
    }
  }

  lemma LimitedAnswer(ids: seq<ID>, logs: Contents, pattern: Pattern, limited: Pattern, from: uint64, to: uint64)
    requires IsLimited(pattern, limited)
    ensures IsAnswer(ids, logs, limited, from, to) <==> IsAnswer(ids, logs, FirstPositions(pattern), from, to)
  {
    hide Matches, IsLimited;
    forall id | id in logs
      ensures Matches(logs[id], limited, from, to) <==> Matches(logs[id], FirstPositions(pattern), from, to)
    {
      LimitedMatches(logs[id], pattern, limited, from, to);
    }
  }

  /** From the caller's pattern to the delivered logs. */
  lemma RequestIsAnswered(c: Config, run: seq<State>, topic: map<bytes, byte>, logrec: map<bytes, bytes>, logs: Contents,
                          pattern: Pattern, limited: Pattern, from: uint64, to: uint64)
    requires Represents(topic, logrec, logs) && IsLimited(pattern, limited) && !AllEmpty(limited)
    requires IsSearch(c, topic, limited, from, to)
    requires IsRun(c, run) && run[|run| - 1].barrier.threads == 0
    ensures IsAnswer(run[|run| - 1].delivered, logs, FirstPositions(pattern), from, to)
    ensures InBlockOrder(run[|run| - 1].delivered)
  {
    hide Represents, IsSearch, IsAnswer, InBlockOrder;
    SearchIsFilter(c, run, topic, logrec, logs, limited, from, to);
    LimitedAnswer(run[|run| - 1].delivered, logs, pattern, limited, from, to);
  }
}
