/** Every reachable state of the concurrent search keeps its invariant, step by step. */
module LogSearchSafety {
  import opened Collections
  import opened LogKeys
  import opened LogIndex
  import opened LogSearch
  import Barrier

  // ---------- what one thread's move changes ----------

  lemma SeenNext(c: Config, w: Worker, n: nat)
    requires n < |w.entries|
    ensures Seen(c, w, n + 1) == Seen(c, w, n) + (if Eligible(c, w.entries[n]) then {w.entries[n].id} else {})
  {
    var more := if Eligible(c, w.entries[n]) then {w.entries[n].id} else {};
    forall id ensures id in Seen(c, w, n + 1) <==> id in Seen(c, w, n) + more {
      if id in Seen(c, w, n + 1) {
        var i :| 0 <= i < n + 1 && Eligible(c, w.entries[i]) && w.entries[i].id == id;
        assert i < n ==> id in Seen(c, w, n);
      }
    }
  }

  /** A move that stays in its block changes no member set. */
  lemma QuietMembers(c: Config, ths: seq<Thread>, t: nat, th: Thread, m: uint64)
    requires t < |ths| == |c.workers|
    requires !ths[t].pc.Done? && !th.pc.Done?
    requires BlockOf(c.workers[t], th, m) == BlockOf(c.workers[t], ths[t], m)
    ensures forall k :: Members(c, ths[t := th], m, k) == Members(c, ths, m, k)
    ensures forall p :: Alive(c, ths[t := th], p) == Alive(c, ths, p)
  {
  }

  lemma QuietMatchers(c: Config, ths: seq<Thread>, t: nat, th: Thread)
    requires t < |ths| == |c.workers|
    requires ths[t].at <= |c.workers[t].entries| && th.at <= |c.workers[t].entries|
    requires Seen(c, c.workers[t], th.at) == Seen(c, c.workers[t], ths[t].at)
    ensures forall id :: Matchers(c, ths[t := th], id) == Matchers(c, ths, id)
  {
    hide Seen;
  }

  /** The barrier part of the invariant depends on the threads only through these sets and its waiters. */
  lemma SameCounts(c: Config, ths: seq<Thread>, ths': seq<Thread>, b: Barrier.State)
    requires |ths| == |ths'| == |c.workers|
    requires CountsInv(c, ths, b) && PositionsInv(c, ths, b)
    requires forall k :: Members(c, ths', b.minBlock, k) == Members(c, ths, b.minBlock, k)
    requires forall p :: Alive(c, ths', p) == Alive(c, ths, p)
    ensures CountsInv(c, ths', b) && PositionsInv(c, ths', b)
  {
    hide Members, Alive, Positions;
  }

  /** The record part depends on the threads only through who has counted what. */
  lemma SameMatchers(c: Config, ths: seq<Thread>, ths': seq<Thread>, found: Found, delivered: seq<ID>, m: uint64)
    requires |ths| == |ths'| == |c.workers|
    requires FoundInv(c, ths, found, m) && DeliveredInv(c, ths, delivered)
    requires forall id :: Matchers(c, ths', id) == Matchers(c, ths, id)
    ensures FoundInv(c, ths', found, m) && DeliveredInv(c, ths', delivered)
    ensures AllCounted(c, ths) ==> AllCounted(c, ths')
  {
    hide Matchers, Holders, Everywhere, Counter, Positions, Distinct, InBlockOrder;
  }

  lemma SetThreadOk(c: Config, ths: seq<Thread>, t: nat, th: Thread, m: uint64)
    requires t < |ths| == |c.workers|
    requires ThreadsInv(c, ths, m) && ThreadOk(c, c.workers[t], th, m)
    ensures ThreadsInv(c, ths[t := th], m)
  {
    hide ThreadOk;
  }

  lemma SetNoWaiter(c: Config, ths: seq<Thread>, t: nat, th: Thread, b: Barrier.State)
    requires t < |ths| == |c.workers| && ChannelsInv(c, ths, b) && !th.pc.Waiting?
    ensures ChannelsInv(c, ths[t := th], b)
  {
    hide WaiterOk;
  }

  predicate Leaving(pc: Pc) {
    pc.SignOff? || pc.Finish? || pc.Done?
  }

  lemma SetLeft(c: Config, ths: seq<Thread>, t: nat, th: Thread, goNext: bool)
    requires t < |ths| == |c.workers| && LeftInv(c, ths, goNext)
    requires Leaving(th.pc) && goNext ==>
      th.at <= |c.workers[t].entries| && Wanted(c, c.workers[t]) <= Seen(c, c.workers[t], th.at)
    ensures LeftInv(c, ths[t := th], goNext)
  {
    hide Wanted, Seen;
  }

  /** A move that neither counts an entry nor changes block keeps the invariant. */
  lemma QuietStep(c: Config, s: State, t: nat, th: Thread)
    requires Inv(c, s) && t < |s.threads|
    requires !s.threads[t].pc.Finish? && !s.threads[t].pc.Done? && !th.pc.Finish? && !th.pc.Done?
    requires ThreadOk(c, c.workers[t], th, s.barrier.minBlock)
    requires BlockOf(c.workers[t], th, s.barrier.minBlock) == BlockOf(c.workers[t], s.threads[t], s.barrier.minBlock)
    requires Seen(c, c.workers[t], th.at) == Seen(c, c.workers[t], s.threads[t].at)
    requires !th.pc.Waiting?
    requires th.pc.SignOff? && s.barrier.goNext ==> Wanted(c, c.workers[t]) <= Seen(c, c.workers[t], th.at)
    ensures Inv(c, Goto(s, t, th))
  {
    var b, ths, ths' := s.barrier, s.threads, s.threads[t := th];
    assert ThreadOk(c, c.workers[t], ths[t], b.minBlock);
    QuietMembers(c, ths, t, th, b.minBlock);
    QuietMatchers(c, ths, t, th);
    assert Unsigned(ths') == Unsigned(ths);
    SameCounts(c, ths, ths', b);
    SameMatchers(c, ths, ths', s.found, s.delivered, b.minBlock);
    SetThreadOk(c, ths, t, th, b.minBlock);
    SetNoWaiter(c, ths, t, th, b);
    SetLeft(c, ths, t, th, b.goNext);
    hide CountsInv, PositionsInv, ChannelsInv, ThreadsInv, FoundInv, DeliveredInv, LeftInv, AllCounted, Unsigned;
  }

  /** All entries from the first one past the end are out of range: the thread has seen all it wants. */
  lemma PastEndIsAll(c: Config, w: Worker, n: nat)
    requires n <= |w.entries| && (n < |w.entries| ==> PastEnd(c, w.entries[n]))
    requires forall i, j :: 0 <= i < j < |w.entries| ==> Ordered(w.entries[i].id, w.entries[j].id)
    ensures Wanted(c, w) <= Seen(c, w, n)
  {
    forall id | id in Wanted(c, w) ensures id in Seen(c, w, n) {
      var i :| 0 <= i < |w.entries| && Eligible(c, w.entries[i]) && w.entries[i].id == id;
      assert i < n;
    }
  }

  /** What a scan does with the entry it is at. */
  lemma ScanMove(c: Config, w: Worker, th: Thread, m: uint64) returns (th': Thread)
    requires th.pc.Scan? && ThreadOk(c, w, th, m) && WorkerOk(w)
    ensures th' == ScanTo(c, w, th) && ThreadOk(c, w, th', m) && !th'.pc.Waiting? && !th'.pc.Finish? && !th'.pc.Done?
    ensures Seen(c, w, th'.at) == Seen(c, w, th.at)
    ensures th'.pc.SignOff? ==> Wanted(c, w) <= Seen(c, w, th'.at)
  {
    hide Seen, Wanted;
    th' := ScanTo(c, w, th);
    if th.at == |w.entries| || PastEnd(c, w.entries[th.at]) {
      PastEndIsAll(c, w, th.at);
    } else if w.entries[th.at].topics < c.minTopics {
      SeenNext(c, w, th.at);
      if th.at + 1 < |w.entries| {
        assert Ordered(w.entries[th.at].id, w.entries[th.at + 1].id);
      }
    }
  }

  function ScanTo(c: Config, w: Worker, th: Thread): Thread
    requires th.at <= |w.entries|
  {
    if th.at == |w.entries| || PastEnd(c, w.entries[th.at]) then th.(pc := SignOff)
    else if w.entries[th.at].topics < c.minTopics then th.(at := th.at + 1)
    else th.(pc := CheckGo)
  }

  lemma ScanIs(c: Config, s: State, t: nat)
    requires t < |s.threads| == |c.workers| && s.threads[t].pc.Scan? && s.threads[t].at <= |c.workers[t].entries|
    ensures !Panics(c, s, t) && Next(c, s, t) == Goto(s, t, ScanTo(c, c.workers[t], s.threads[t]))
  {
    hide BeforeDequeue, Barrier.Dequeue, Barrier.CanDequeue, PastEnd;
  }

  lemma ScanStep(c: Config, s: State, t: nat)
    requires WellFormed(c) && Inv(c, s) && t < |s.threads| && s.threads[t].pc.Scan?
    ensures !Panics(c, s, t) && Inv(c, Next(c, s, t))
  {
    var w, th, m := c.workers[t], s.threads[t], s.barrier.minBlock;
    assert ThreadOk(c, w, th, m);
    assert WorkerOk(w);
    var th' := ScanMove(c, w, th, m);
    assert BlockOf(w, th', m) == m;
    hide *;
    ScanIs(c, s, t);
    QuietStep(c, s, t, th');
  }

  predicate WorkerOk(w: Worker) {
    forall i, j :: 0 <= i < j < |w.entries| ==> Ordered(w.entries[i].id, w.entries[j].id)
  }

  /** The unlocked reads of GoNext, and being woken. */
  lemma ReadStep(c: Config, s: State, t: nat)
    requires Inv(c, s) && t < |s.threads| && !Blocked(s, t)
    requires var pc := s.threads[t].pc; pc.CheckGo? || pc.CheckMin? || pc.ReadGo? || pc.Waiting?
    ensures !Panics(c, s, t) && Inv(c, Next(c, s, t))
  {
    hide Inv, Seen, Wanted, RestInv, CountsInv, PositionsInv, ChannelsInv, BeforeDequeue, Barrier.Dequeue, Barrier.CanDequeue,
      Count, Counter, Eligible;
    InvParts(c, s);
    InvRest(c, s, t);
    WaiterAt(c, s.threads, s.barrier, t);
    QuietStep(c, s, t, Next(c, s, t).threads[t]);
  }

  lemma WaiterAt(c: Config, ths: seq<Thread>, b: Barrier.State, t: nat)
    requires t < |ths| == |c.workers| && ChannelsInv(c, ths, b)
    ensures ths[t].pc.Waiting? ==> WaiterOk(c.workers[t], ths[t], b)
    ensures ths[t].pc.Waiting? && ths[t].pc.wait in b.closed ==>
      ths[t].at < |c.workers[t].entries| && c.workers[t].entries[ths[t].at].id.block == b.minBlock
  {
    if ths[t].pc.Waiting? { assert WaiterOk(c.workers[t], ths[t], b); }
  }

  // ---------- leaving a block ----------

  /** The counters between the enqueue and the dequeue: the least block counts one thread too many. */
  ghost predicate OneTooMany(c: Config, ths: seq<Thread>, b: Barrier.State)
    requires |ths| == |c.workers|
  {
    && b.minBlock in b.blocks
    && b.blocks[b.minBlock].count == |Members(c, ths, b.minBlock, b.minBlock)| + 1
    && (forall k :: k != b.minBlock ==> (k in b.blocks <==> Members(c, ths, b.minBlock, k) != {}))
    && (forall k :: k in b.blocks && k != b.minBlock ==>
          b.blocks[k].count == |Members(c, ths, b.minBlock, k)| && b.minBlock < k)
  }

  /** Everyone who has not finished waits for a later block. */
  ghost predicate AllParked(c: Config, ths: seq<Thread>, m: uint64)
    requires |ths| == |c.workers|
  {
    forall t :: 0 <= t < |ths| && !ths[t].pc.Done? ==>
      ths[t].pc.Waiting? && ths[t].at < |c.workers[t].entries| && m < c.workers[t].entries[ths[t].at].id.block
  }

  ghost predicate LastOut(c: Config, ths: seq<Thread>, b: Barrier.State)
    requires |ths| == |c.workers|
  {
    Members(c, ths, b.minBlock, b.minBlock) == {}
  }

  lemma LastOutParks(c: Config, ths: seq<Thread>, b: Barrier.State)
    requires |ths| == |c.workers|
    requires OneTooMany(c, ths, b) && ChannelsInv(c, ths, b) && LastOut(c, ths, b)
    ensures AllParked(c, ths, b.minBlock)
  {
    forall t | 0 <= t < |ths| && !ths[t].pc.Done?
      ensures ths[t].pc.Waiting? && ths[t].at < |c.workers[t].entries|
      ensures b.minBlock < c.workers[t].entries[ths[t].at].id.block
    {
      assert t !in Members(c, ths, b.minBlock, b.minBlock);
      assert WaiterOk(c.workers[t], ths[t], b);
    }
  }

  /** With everyone parked, nobody's block depends on the least block. */
  lemma ParkedMembers(c: Config, ths: seq<Thread>, m: uint64, n: uint64)
    requires |ths| == |c.workers| && AllParked(c, ths, m)
    ensures forall k :: Members(c, ths, n, k) == Members(c, ths, m, k)
    ensures Members(c, ths, m, m) == {}
  {
  }

  /** Not the last one out: only the counter of the least block changes. */
  lemma DequeueOne(c: Config, ths: seq<Thread>, b: Barrier.State)
    requires |ths| == |c.workers|
    requires OneTooMany(c, ths, b) && !LastOut(c, ths, b)
    ensures Barrier.CanDequeue(b)
    ensures CountsInv(c, ths, Barrier.Dequeue(b))
    ensures Barrier.Dequeue(b) == b.(blocks := Barrier.Dequeue(b).blocks)
    ensures Barrier.Dequeue(b).blocks.Keys == b.blocks.Keys
    ensures forall k :: k in b.blocks ==> Barrier.Dequeue(b).blocks[k].wait == b.blocks[k].wait
  {
    hide Members;
    assert |Members(c, ths, b.minBlock, b.minBlock)| > 0;
  }

  /** The last one out: the least block goes, and the next one, if any, opens. */
  lemma DequeueLast(c: Config, ths: seq<Thread>, b: Barrier.State)
    requires |ths| == |c.workers|
    requires OneTooMany(c, ths, b) && LastOut(c, ths, b) && ChannelsInv(c, ths, b)
    ensures Barrier.CanDequeue(b)
    ensures var a, rest := Barrier.Dequeue(b), b.blocks - {b.minBlock};
      && a.blocks == rest && a.threads == b.threads && a.positions == b.positions && a.channels == b.channels
      && a.goNext == (b.goNext && !Barrier.PositionGone(b))
      && rest.Keys == b.blocks.Keys - {b.minBlock}
      && (rest.Keys == {} ==> a.minBlock == b.minBlock && a.closed == b.closed)
      && (rest.Keys != {} ==>
            (a.minBlock == Barrier.Least(rest.Keys) > b.minBlock && a.closed == b.closed + {rest[a.minBlock].wait}))
  {
    hide Members, WaiterOk;
    assert b.blocks[b.minBlock].count == 1;
    assert (b.blocks - {b.minBlock}).Keys == b.blocks.Keys - {b.minBlock};
  }

  lemma DequeueLastCounts(c: Config, ths: seq<Thread>, b: Barrier.State)
    requires |ths| == |c.workers|
    requires OneTooMany(c, ths, b) && LastOut(c, ths, b) && ChannelsInv(c, ths, b)
    ensures CountsInv(c, ths, Barrier.Dequeue(b))
  {
    DequeueLast(c, ths, b);
    LastOutParks(c, ths, b);
    hide *;
    var a := Barrier.Dequeue(b);
    ParkedMembers(c, ths, b.minBlock, a.minBlock);
    CountsOfRest(c, ths, b, a);
  }

  lemma CountsOfRest(c: Config, ths: seq<Thread>, b: Barrier.State, a: Barrier.State)
    requires |ths| == |c.workers|
    requires OneTooMany(c, ths, b)
    requires a.blocks == b.blocks - {b.minBlock}
    requires a.blocks.Keys != {} ==> a.minBlock == Barrier.Least(a.blocks.Keys)
    requires forall k :: Members(c, ths, a.minBlock, k) == Members(c, ths, b.minBlock, k)
    requires Members(c, ths, b.minBlock, b.minBlock) == {}
    ensures CountsInv(c, ths, a)
  {
    hide Members, Barrier.Least;
  }

  lemma DequeueCounts(c: Config, ths: seq<Thread>, b: Barrier.State)
    requires |ths| == |c.workers|
    requires OneTooMany(c, ths, b) && ChannelsInv(c, ths, b)
    ensures Barrier.CanDequeue(b) && CountsInv(c, ths, Barrier.Dequeue(b))
  {
    assert b.minBlock in b.blocks;
    hide *;
    if LastOut(c, ths, b) {
      DequeueLast(c, ths, b);
      DequeueLastCounts(c, ths, b);
    } else {
      DequeueOne(c, ths, b);
    }
  }

  lemma ChannelsOfOne(c: Config, ths: seq<Thread>, b: Barrier.State, a: Barrier.State)
    requires |ths| == |c.workers| && ChannelsInv(c, ths, b)
    requires a == b.(blocks := a.blocks) && a.blocks.Keys == b.blocks.Keys
    requires forall k :: k in b.blocks ==> a.blocks[k].wait == b.blocks[k].wait
    ensures ChannelsInv(c, ths, a)
  {
    forall t | 0 <= t < |ths| && ths[t].pc.Waiting? ensures WaiterOk(c.workers[t], ths[t], a) {
      assert WaiterOk(c.workers[t], ths[t], b);
    }
    hide WaiterOk;
  }

  lemma ChannelsOfRest(c: Config, ths: seq<Thread>, b: Barrier.State, a: Barrier.State)
    requires |ths| == |c.workers| && ChannelsInv(c, ths, b)
    requires AllParked(c, ths, b.minBlock) && a.channels == b.channels
    requires a.blocks == b.blocks - {b.minBlock}
    requires if a.blocks.Keys == {} then a.closed == b.closed
      else a.minBlock in a.blocks && a.closed == b.closed + {a.blocks[a.minBlock].wait}
    ensures ChannelsInv(c, ths, a)
  {
    forall t | 0 <= t < |ths| && ths[t].pc.Waiting? ensures WaiterOk(c.workers[t], ths[t], a) {
      assert WaiterOk(c.workers[t], ths[t], b);
      assert !ths[t].pc.Done?;
    }
    hide WaiterOk, AllParked;
  }

  /** A dequeue keeps the channels; the one it closes was open. */
  lemma DequeueChannels(c: Config, ths: seq<Thread>, b: Barrier.State)
    requires |ths| == |c.workers|
    requires OneTooMany(c, ths, b) && ChannelsInv(c, ths, b)
    ensures Barrier.CanDequeue(b) && ChannelsInv(c, ths, Barrier.Dequeue(b))
  {
    assert b.minBlock in b.blocks;
    hide *;
    if LastOut(c, ths, b) {
      DequeueLast(c, ths, b);
      LastOutParks(c, ths, b);
      ChannelsOfRest(c, ths, b, Barrier.Dequeue(b));
    } else {
      DequeueOne(c, ths, b);
      ChannelsOfOne(c, ths, b, Barrier.Dequeue(b));
    }
  }

  /** Everything the invariant says of the threads and records, with the least block and goNext given apart. */
  ghost predicate RestInv(c: Config, ths: seq<Thread>, found: Found, delivered: seq<ID>, minBlock: uint64, goNext: bool)
    requires |ths| == |c.workers|
  {
    && ThreadsInv(c, ths, minBlock) && FoundInv(c, ths, found, minBlock) && DeliveredInv(c, ths, delivered)
    && LeftInv(c, ths, goNext) && (!goNext ==> AllCounted(c, ths))
  }

  /** When a block empties and some position has no thread left, nothing can match any more. */
  lemma PositionGoneEnds(c: Config, ths: seq<Thread>, b: Barrier.State, found: Found)
    requires WellFormed(c) && |ths| == |c.workers|
    requires PositionsInv(c, ths, b) && Barrier.PositionGone(b) && AllParked(c, ths, b.minBlock)
    requires FoundInv(c, ths, found, b.minBlock) && LeftInv(c, ths, true)
    ensures AllCounted(c, ths)
  {
    hide Holders, Matchers, Everywhere, FoundInv, LeftInv, AllParked, WellFormed, Alive, Positions;
    var p :| p in b.positions && b.positions[p] < 1;
    GoneIsEmpty(c, ths, b, p);
    forall id | Everywhere(c, id) ensures Holders(c, id) <= Matchers(c, ths, id) {
      GoneSeen(c, ths, b, found, p, id);
      AllHaveCounted(c, ths, b.minBlock, id);
    }
  }

  lemma GoneIsEmpty(c: Config, ths: seq<Thread>, b: Barrier.State, p: nat)
    requires |ths| == |c.workers| && PositionsInv(c, ths, b) && p in b.positions && b.positions[p] < 1
    ensures Alive(c, ths, p) == {} && p in Positions(c)
  {
  }

  /** The threads of a position without threads have seen all they want. */
  lemma GoneSeen(c: Config, ths: seq<Thread>, b: Barrier.State, found: Found, p: nat, id: ID)
    requires WellFormed(c) && |ths| == |c.workers| && Alive(c, ths, p) == {} && p in Positions(c) && Everywhere(c, id)
    requires AllParked(c, ths, b.minBlock) && FoundInv(c, ths, found, b.minBlock) && LeftInv(c, ths, true)
    ensures id.block <= b.minBlock
  {
    var t := HolderAt(c, id, p);
    assert t !in Alive(c, ths, p);
    assert t in Matchers(c, ths, id);
  }

  lemma HolderAt(c: Config, id: ID, p: nat) returns (t: nat)
    requires Everywhere(c, id) && p in Positions(c)
    ensures t < |c.workers| && c.workers[t].pos == p && id in Wanted(c, c.workers[t])
  {
    t :| 0 <= t < |c.workers| && c.workers[t].pos == p && id in Wanted(c, c.workers[t]);
  }

  lemma AllHaveCounted(c: Config, ths: seq<Thread>, m: uint64, id: ID)
    requires WellFormed(c) && |ths| == |c.workers|
    requires AllParked(c, ths, m) && LeftInv(c, ths, true) && id.block <= m
    ensures Holders(c, id) <= Matchers(c, ths, id)
  {
    forall u | u in Holders(c, id) ensures u in Matchers(c, ths, id) {
      if !ths[u].pc.Done? {
        ParkedHasSeen(c, c.workers[u], ths[u].at, id);
      }
    }
  }

  /** What lies below the block of the current entry is already seen. */
  lemma ParkedHasSeen(c: Config, w: Worker, n: nat, id: ID)
    requires n < |w.entries| && id in Wanted(c, w) && id.block < w.entries[n].id.block
    requires forall i, j :: 0 <= i < j < |w.entries| ==> Ordered(w.entries[i].id, w.entries[j].id)
    ensures id in Seen(c, w, n)
  {
    var i :| 0 <= i < |w.entries| && Eligible(c, w.entries[i]) && w.entries[i].id == id;
    assert i < n;
  }

  /** The next least block has not been counted in yet. */
  lemma FoundAtNext(c: Config, ths: seq<Thread>, found: Found, m: uint64, n: uint64)
    requires |ths| == |c.workers| && FoundInv(c, ths, found, m) && m <= n
    ensures FoundInv(c, ths, found, n)
  {
    hide Matchers;
    forall id: ID | id.block == n ensures Counter(found, id) == |Matchers(c, ths, id)| {
      if m < n { assert Matchers(c, ths, id) == {}; }
    }
  }

  lemma ParkedThreadsOk(c: Config, ths: seq<Thread>, m: uint64, a: Barrier.State)
    requires |ths| == |c.workers| && AllParked(c, ths, m) && ThreadsInv(c, ths, m)
    requires CountsInv(c, ths, a)
    ensures ThreadsInv(c, ths, a.minBlock)
  {
    forall t | 0 <= t < |ths| ensures ThreadOk(c, c.workers[t], ths[t], a.minBlock) {
      assert ThreadOk(c, c.workers[t], ths[t], m);
      if !ths[t].pc.Done? {
        assert t in Members(c, ths, a.minBlock, c.workers[t].entries[ths[t].at].id.block);
      }
    }
  }

  lemma LaterStart(c: Config, ths: seq<Thread>, goNext: bool)
    requires |ths| == |c.workers| && LeftInv(c, ths, goNext)
    ensures LeftInv(c, ths, false)
    ensures goNext ==> LeftInv(c, ths, true)
  {
  }

  /** The last one out: `b` before its dequeue, `a` after it. */
  lemma RestAfterLast(c: Config, ths: seq<Thread>, b: Barrier.State, a: Barrier.State, found: Found, delivered: seq<ID>)
    requires WellFormed(c) && |ths| == |c.workers|
    requires PositionsInv(c, ths, b) && AllParked(c, ths, b.minBlock) && CountsInv(c, ths, a)
    requires RestInv(c, ths, found, delivered, b.minBlock, b.goNext)
    requires b.minBlock <= a.minBlock && a.goNext == (b.goNext && !Barrier.PositionGone(b))
    ensures RestInv(c, ths, found, delivered, a.minBlock, a.goNext)
  {
    hide CountsInv, PositionsInv, AllParked, WellFormed, ThreadsInv, FoundInv, DeliveredInv, LeftInv, AllCounted,
      Barrier.PositionGone;
    ParkedThreadsOk(c, ths, b.minBlock, a);
    FoundAtNext(c, ths, found, b.minBlock, a.minBlock);
    LaterStart(c, ths, b.goNext);
    if b.goNext && Barrier.PositionGone(b) {
      PositionGoneEnds(c, ths, b, found);
    }
  }

  lemma DequeueRest(c: Config, ths: seq<Thread>, b: Barrier.State, found: Found, delivered: seq<ID>)
    requires WellFormed(c) && |ths| == |c.workers| && b.minBlock in b.blocks
    requires OneTooMany(c, ths, b) && ChannelsInv(c, ths, b) && PositionsInv(c, ths, b)
    requires RestInv(c, ths, found, delivered, b.minBlock, b.goNext)
    ensures RestInv(c, ths, found, delivered, Barrier.Dequeue(b).minBlock, Barrier.Dequeue(b).goNext)
    ensures Barrier.Dequeue(b).threads == b.threads && Barrier.Dequeue(b).positions == b.positions
  {
    hide *;
    DequeueCounts(c, ths, b);
    if LastOut(c, ths, b) {
      DequeueLast(c, ths, b);
      LastOutParks(c, ths, b);
      RestAfterLast(c, ths, b, Barrier.Dequeue(b), found, delivered);
    } else {
      DequeueOne(c, ths, b);
    }
  }

  lemma SamePositions(c: Config, ths: seq<Thread>, b: Barrier.State, a: Barrier.State)
    requires |ths| == |c.workers| && PositionsInv(c, ths, b) && a.positions == b.positions
    ensures PositionsInv(c, ths, a)
  {
  }

  /** A whole dequeue, from the threads after the move and the barrier before the dequeue. */
  lemma DequeueStep(c: Config, s: State, ths: seq<Thread>, b: Barrier.State)
    requires WellFormed(c) && |ths| == |c.workers| && b.minBlock in b.blocks
    requires OneTooMany(c, ths, b) && ChannelsInv(c, ths, b) && PositionsInv(c, ths, b)
    requires RestInv(c, ths, s.found, s.delivered, b.minBlock, b.goNext)
    requires b.threads == |Unsigned(ths)|
    ensures Barrier.CanDequeue(b)
    ensures Inv(c, s.(threads := ths, barrier := Barrier.Dequeue(b)))
  {
    hide *;
    DequeueCounts(c, ths, b);
    DequeueChannels(c, ths, b);
    DequeueRest(c, ths, b, s.found, s.delivered);
    SamePositions(c, ths, b, Barrier.Dequeue(b));
    MakeInv(c, s, ths, Barrier.Dequeue(b));
  }

  lemma MakeInv(c: Config, s: State, ths: seq<Thread>, b: Barrier.State)
    requires |ths| == |c.workers|
    requires CountsInv(c, ths, b) && ChannelsInv(c, ths, b) && PositionsInv(c, ths, b)
    requires RestInv(c, ths, s.found, s.delivered, b.minBlock, b.goNext)
    requires b.threads == |Unsigned(ths)|
    ensures Inv(c, s.(threads := ths, barrier := b))
  {
    hide CountsInv, ChannelsInv, PositionsInv, ThreadsInv, FoundInv, DeliveredInv, LeftInv, AllCounted, Unsigned;
  }

  // ---------- the locked steps ----------

  lemma AnnounceMembers(c: Config, ths: seq<Thread>, t: nat, th: Thread, m: uint64, n: uint64)
    requires t < |ths| == |c.workers| && m < n
    requires ths[t].pc.Announce? && th.pc.Waiting? && th.at == ths[t].at < |c.workers[t].entries|
    requires c.workers[t].entries[th.at].id.block == n
    ensures t in Members(c, ths, m, m) && Members(c, ths[t := th], m, m) == Members(c, ths, m, m) - {t}
    ensures t !in Members(c, ths, m, n) && Members(c, ths[t := th], m, n) == Members(c, ths, m, n) + {t}
    ensures forall k :: k != m && k != n ==> Members(c, ths[t := th], m, k) == Members(c, ths, m, k)
    ensures forall p :: Alive(c, ths[t := th], p) == Alive(c, ths, p)
    ensures Unsigned(ths[t := th]) == Unsigned(ths)
  {
  }

  /** A thread moved from the least block to block `n`. */
  lemma MovedCounts(c: Config, ths: seq<Thread>, ths': seq<Thread>, t: nat, b: Barrier.State, n: uint64)
    requires |ths| == |ths'| == |c.workers| && CountsInv(c, ths, b) && b.minBlock < n
    requires t in Members(c, ths, b.minBlock, b.minBlock)
    requires Members(c, ths', b.minBlock, b.minBlock) == Members(c, ths, b.minBlock, b.minBlock) - {t}
    requires t !in Members(c, ths, b.minBlock, n)
    requires Members(c, ths', b.minBlock, n) == Members(c, ths, b.minBlock, n) + {t}
    requires forall k :: k != b.minBlock && k != n ==> Members(c, ths', b.minBlock, k) == Members(c, ths, b.minBlock, k)
    ensures OneTooMany(c, ths', Barrier.Enqueue(b, n))
  {
    hide Members;
  }

  lemma EnqueueChannels(c: Config, ths: seq<Thread>, ths': seq<Thread>, t: nat, b: Barrier.State, n: uint64)
    requires |ths| == |ths'| == |c.workers| && ChannelsInv(c, ths, b)
    requires b.minBlock < n
    requires forall u :: 0 <= u < |ths'| && ths'[u].pc.Waiting? ==> WaiterOk(c.workers[u], ths'[u], Barrier.Enqueue(b, n))
    ensures ChannelsInv(c, ths', Barrier.Enqueue(b, n))
  {
    hide WaiterOk;
  }

  lemma WaitersAfterEnqueue(c: Config, ths: seq<Thread>, t: nat, th: Thread, b: Barrier.State, n: uint64)
    requires t < |ths| == |c.workers| && ChannelsInv(c, ths, b) && b.minBlock < n
    requires th.pc.Waiting? && th.at < |c.workers[t].entries| && c.workers[t].entries[th.at].id.block == n
    requires th.pc.wait == Barrier.Enqueue(b, n).blocks[n].wait
    ensures ChannelsInv(c, ths[t := th], Barrier.Enqueue(b, n))
  {
    forall u | 0 <= u < |ths| && ths[t := th][u].pc.Waiting?
      ensures WaiterOk(c.workers[u], ths[t := th][u], Barrier.Enqueue(b, n))
    {
      assert u != t ==> WaiterOk(c.workers[u], ths[u], b);
    }
    EnqueueChannels(c, ths, ths[t := th], t, b, n);
  }

  /** A dequeue leaves the channel of every other block alone. */
  lemma DequeueKeepsWait(b: Barrier.State, n: uint64)
    requires b.minBlock in b.blocks && n in b.blocks && n != b.minBlock
    ensures n in Barrier.Dequeue(b).blocks && Barrier.Dequeue(b).blocks[n].wait == b.blocks[n].wait
  {
  }

  /** The record part of the invariant after a move that counts nothing. */
  lemma RestAfterMove(c: Config, s: State, t: nat, th: Thread)
    requires Inv(c, s) && t < |s.threads|
    requires ThreadOk(c, c.workers[t], th, s.barrier.minBlock) && th.at == s.threads[t].at
    requires Leaving(th.pc) ==> Leaving(s.threads[t].pc)
    ensures RestInv(c, s.threads[t := th], s.found, s.delivered, s.barrier.minBlock, s.barrier.goNext)
  {
    var b, ths, ths' := s.barrier, s.threads, s.threads[t := th];
    assert ThreadOk(c, c.workers[t], ths[t], b.minBlock);
    QuietMatchers(c, ths, t, th);
    SameMatchers(c, ths, ths', s.found, s.delivered, b.minBlock);
    SetThreadOk(c, ths, t, th, b.minBlock);
    SetLeft(c, ths, t, th, b.goNext);
    hide CountsInv, PositionsInv, ChannelsInv, ThreadsInv, FoundInv, DeliveredInv, LeftInv, AllCounted, Unsigned;
  }

  /** Announcing: `th` waits in block `n` and the barrier `b` is as the dequeue finds it. */
  lemma AnnounceMoves(c: Config, s: State, t: nat, th: Thread, n: uint64, b: Barrier.State)
    requires WellFormed(c) && Inv(c, s) && t < |s.threads| && s.threads[t].pc.Announce?
    requires th.at == s.threads[t].at < |c.workers[t].entries| && c.workers[t].entries[th.at].id.block == n
    requires s.barrier.minBlock < n && b == Barrier.Enqueue(s.barrier, n) && b.minBlock in b.blocks
    requires th.pc == Waiting(b.blocks[n].wait) && ThreadOk(c, c.workers[t], th, s.barrier.minBlock)
    ensures Barrier.CanDequeue(b) && Inv(c, s.(threads := s.threads[t := th], barrier := Barrier.Dequeue(b)))
  {
    hide *;
    var ths, ths' := s.threads, s.threads[t := th];
    InvParts(c, s);
    EnqueueKeeps(s.barrier, n);
    WaitingIs(th.pc, b.blocks[n].wait);
    RestAfterMove(c, s, t, th);
    AnnounceMembers(c, ths, t, th, s.barrier.minBlock, n);
    MovedCounts(c, ths, ths', t, s.barrier, n);
    WaitersAfterEnqueue(c, ths, t, th, s.barrier, n);
    MovedPositions(c, ths, ths', s.barrier, b);
    DequeueStep(c, s, ths', b);
  }

  lemma InvParts(c: Config, s: State)
    requires Inv(c, s)
    ensures |s.threads| == |c.workers| && s.barrier.threads == |Unsigned(s.threads)|
    ensures CountsInv(c, s.threads, s.barrier) && PositionsInv(c, s.threads, s.barrier)
      && ChannelsInv(c, s.threads, s.barrier)
  {
    hide CountsInv, PositionsInv, ChannelsInv, Unsigned;
  }

  lemma InvRest(c: Config, s: State, t: nat)
    requires Inv(c, s) && t < |s.threads|
    ensures RestInv(c, s.threads, s.found, s.delivered, s.barrier.minBlock, s.barrier.goNext)
    ensures ThreadOk(c, c.workers[t], s.threads[t], s.barrier.minBlock)
  {
    hide CountsInv, PositionsInv, ChannelsInv, Unsigned, FoundInv, DeliveredInv, LeftInv, AllCounted, ThreadOk;
  }

  lemma EnqueueKeeps(b: Barrier.State, n: uint64)
    ensures var e := Barrier.Enqueue(b, n);
      n in e.blocks && e.minBlock == b.minBlock && e.goNext == b.goNext && e.threads == b.threads && e.positions == b.positions
  {
  }

  lemma WaitingIs(pc: Pc, wait: nat)
    requires pc == Waiting(wait)
    ensures pc.Waiting? && pc.wait == wait && !Leaving(pc)
  {
  }

  lemma MovedPositions(c: Config, ths: seq<Thread>, ths': seq<Thread>, b: Barrier.State, b': Barrier.State)
    requires |ths| == |ths'| == |c.workers| && PositionsInv(c, ths, b) && b'.positions == b.positions
    requires forall p :: Alive(c, ths', p) == Alive(c, ths, p)
    ensures PositionsInv(c, ths', b')
  {
    hide Alive, Positions;
  }

  lemma AnnounceFacts(c: Config, s: State, t: nat, n: uint64)
    requires Inv(c, s) && t < |s.threads| && s.threads[t].pc.Announce?
    requires s.threads[t].at < |c.workers[t].entries| && n == c.workers[t].entries[s.threads[t].at].id.block
    requires s.barrier.minBlock < n
    ensures var b := Barrier.Enqueue(s.barrier, n);
      b == BeforeDequeue(c, s, t) && n in b.blocks && b.minBlock == s.barrier.minBlock && b.minBlock in b.blocks
  {
    hide *;
    InvParts(c, s);
    LeastCounted(c, s.threads, s.barrier, t);
    EnqueueKeeps(s.barrier, n);
    EnqueueMore(s.barrier, n);
    BeforeIs(c, s, t);
  }

  lemma LeastCounted(c: Config, ths: seq<Thread>, b: Barrier.State, t: nat)
    requires t < |ths| == |c.workers| && CountsInv(c, ths, b) && ths[t].pc.Announce?
    ensures b.minBlock in b.blocks
  {
    assert t in Members(c, ths, b.minBlock, b.minBlock);
    hide Members;
  }

  lemma EnqueueMore(b: Barrier.State, n: uint64)
    ensures forall k :: k in b.blocks ==> k in Barrier.Enqueue(b, n).blocks
  {
  }

  lemma BeforeIs(c: Config, s: State, t: nat)
    requires t < |s.threads| == |c.workers| && s.threads[t].pc.Announce? && s.threads[t].at < |c.workers[t].entries|
    ensures BeforeDequeue(c, s, t) == Barrier.Enqueue(s.barrier, c.workers[t].entries[s.threads[t].at].id.block)
  {
    hide Barrier.Enqueue;
  }

  lemma AnnounceIs(c: Config, s: State, t: nat, n: uint64, b: Barrier.State)
    requires t < |s.threads| == |c.workers| && s.threads[t].pc.Announce?
    requires s.threads[t].at < |c.workers[t].entries| && n == c.workers[t].entries[s.threads[t].at].id.block
    requires b == BeforeDequeue(c, s, t) && b.minBlock in b.blocks && n in b.blocks && b.minBlock < n
    requires Barrier.CanDequeue(b)
    ensures !Panics(c, s, t)
    ensures Next(c, s, t) ==
      s.(threads := s.threads[t := s.threads[t].(pc := Waiting(b.blocks[n].wait), prev := s.barrier.minBlock)],
         barrier := Barrier.Dequeue(b))
  {
    hide Barrier.Dequeue, Barrier.CanDequeue, BeforeDequeue;
    DequeueKeepsWait(b, n);
  }

  lemma AnnounceStep(c: Config, s: State, t: nat)
    requires WellFormed(c) && Inv(c, s) && t < |s.threads| && s.threads[t].pc.Announce?
    ensures !Panics(c, s, t) && Inv(c, Next(c, s, t))
  {
    hide *;
    InvParts(c, s);
    InvRest(c, s, t);
    var w, th, m := c.workers[t], s.threads[t], s.barrier.minBlock;
    AnnouncerOk(c, w, th, m);
    var n := w.entries[th.at].id.block;
    AnnounceFacts(c, s, t, n);
    var b := BeforeDequeue(c, s, t);
    var th' := th.(pc := Waiting(b.blocks[n].wait), prev := m);
    WaitingOk(c, w, th, m, th');
    AnnounceMoves(c, s, t, th', n, b);
    AnnounceIs(c, s, t, n, b);
  }

  lemma AnnouncerOk(c: Config, w: Worker, th: Thread, m: uint64)
    requires ThreadOk(c, w, th, m) && th.pc.Announce?
    ensures th.at < |w.entries| && m < w.entries[th.at].id.block
  {
  }

  lemma WaitingOk(c: Config, w: Worker, th: Thread, m: uint64, th': Thread)
    requires ThreadOk(c, w, th, m) && th.pc.Announce? && th' == th.(pc := th'.pc, prev := m) && th'.pc.Waiting?
    ensures ThreadOk(c, w, th', m)
  {
    hide Eligible;
  }

  // ---------- counting, signing off and finishing ----------

  lemma SignOffStep(c: Config, s: State, t: nat)
    requires WellFormed(c) && Inv(c, s) && t < |s.threads| && s.threads[t].pc.SignOff?
    ensures !Panics(c, s, t) && Inv(c, Next(c, s, t))
  {
    hide WellFormed, Inv, RestInv, ThreadOk, Next, Panics, CountsInv, ChannelsInv, PositionsInv, Members, Alive, Unsigned,
      Positions, Barrier.SignOff;
    InvParts(c, s);
    InvRest(c, s, t);
    var w, th, b, ths := c.workers[t], s.threads[t], s.barrier, s.threads;
    var th' := th.(pc := Finish);
    var ths', b' := ths[t := th'], Barrier.SignOff(b);
    FinishOk(c, w, th, b.minBlock);
    OneSignedOff(ths, t, b);
    RestAfterMove(c, s, t, th');
    QuietMembers(c, ths, t, th', b.minBlock);
    SameCounts(c, ths, ths', b);
    SetNoWaiter(c, ths, t, th', b);
    OtherThreads(c, ths', b, b');
    MakeInv(c, s, ths', b');
    SignOffIs(c, s, t);
  }

  lemma FinishOk(c: Config, w: Worker, th: Thread, m: uint64)
    requires ThreadOk(c, w, th, m)
    ensures th.at <= |w.entries| && ThreadOk(c, w, th.(pc := Finish), m)
  {
  }

  lemma OneSignedOff(ths: seq<Thread>, t: nat, b: Barrier.State)
    requires t < |ths| && ths[t].pc.SignOff? && b.threads == |Unsigned(ths)|
    ensures Barrier.SignOff(b) == b.(threads := Barrier.SignOff(b).threads)
    ensures Barrier.SignOff(b).threads == |Unsigned(ths[t := ths[t].(pc := Finish)])|
  {
    var ths' := ths[t := ths[t].(pc := Finish)];
    assert t in Unsigned(ths) && Unsigned(ths') == Unsigned(ths) - {t};
  }

  lemma SignOffIs(c: Config, s: State, t: nat)
    requires t < |s.threads| == |c.workers| && s.threads[t].pc.SignOff? && s.threads[t].at <= |c.workers[t].entries|
    ensures !Panics(c, s, t)
    ensures Next(c, s, t) == s.(threads := s.threads[t := s.threads[t].(pc := Finish)], barrier := Barrier.SignOff(s.barrier))
  {
    hide Barrier.Dequeue, Barrier.CanDequeue, BeforeDequeue;
  }

  /** The wait group is no part of the counters. */
  lemma OtherThreads(c: Config, ths: seq<Thread>, b: Barrier.State, b': Barrier.State)
    requires |ths| == |c.workers| && CountsInv(c, ths, b) && PositionsInv(c, ths, b) && ChannelsInv(c, ths, b)
    requires b' == b.(threads := b'.threads)
    ensures CountsInv(c, ths, b') && PositionsInv(c, ths, b') && ChannelsInv(c, ths, b')
  {
    hide Members, Alive, Positions;
    forall t | 0 <= t < |ths| && ths[t].pc.Waiting? ensures WaiterOk(c.workers[t], ths[t], b') {
      assert WaiterOk(c.workers[t], ths[t], b);
    }
  }

  lemma FinishMembers(c: Config, ths: seq<Thread>, t: nat, th: Thread, m: uint64)
    requires t < |ths| == |c.workers| && ths[t].pc.Finish? && th.pc.Done?
    ensures t in Members(c, ths, m, m) && Members(c, ths[t := th], m, m) == Members(c, ths, m, m) - {t}
    ensures forall k :: k != m ==> Members(c, ths[t := th], m, k) == Members(c, ths, m, k)
    ensures var p := c.workers[t].pos; t in Alive(c, ths, p) && Alive(c, ths[t := th], p) == Alive(c, ths, p) - {t}
    ensures forall p :: p != c.workers[t].pos ==> Alive(c, ths[t := th], p) == Alive(c, ths, p)
    ensures Unsigned(ths[t := th]) == Unsigned(ths)
    ensures c.workers[t].pos in Positions(c)
  {
  }

  lemma FinishCounts(c: Config, ths: seq<Thread>, ths': seq<Thread>, t: nat, b: Barrier.State, p: nat)
    requires |ths| == |ths'| == |c.workers| && CountsInv(c, ths, b) && PositionsInv(c, ths, b)
    requires t in Members(c, ths, b.minBlock, b.minBlock)
    requires Members(c, ths', b.minBlock, b.minBlock) == Members(c, ths, b.minBlock, b.minBlock) - {t}
    requires forall k :: k != b.minBlock ==> Members(c, ths', b.minBlock, k) == Members(c, ths, b.minBlock, k)
    requires p in Positions(c) && t in Alive(c, ths, p) && Alive(c, ths', p) == Alive(c, ths, p) - {t}
    requires forall q :: q != p ==> Alive(c, ths', q) == Alive(c, ths, q)
    ensures p in b.positions && b.minBlock in b.blocks
    ensures OneTooMany(c, ths', Barrier.LeavePosition(b, p))
    ensures PositionsInv(c, ths', Barrier.LeavePosition(b, p))
  {
    hide Members, Alive, Positions;
  }

  lemma FinishChannels(c: Config, ths: seq<Thread>, t: nat, th: Thread, b: Barrier.State, p: nat)
    requires t < |ths| == |c.workers| && ChannelsInv(c, ths, b) && !th.pc.Waiting? && p in b.positions
    ensures ChannelsInv(c, ths[t := th], Barrier.LeavePosition(b, p))
  {
    var b' := Barrier.LeavePosition(b, p);
    forall u | 0 <= u < |ths| && ths[t := th][u].pc.Waiting? ensures WaiterOk(c.workers[u], ths[t := th][u], b') {
      assert WaiterOk(c.workers[u], ths[u], b);
    }
    hide WaiterOk;
  }

  lemma FinishIs(c: Config, s: State, t: nat)
    requires t < |s.threads| == |c.workers| && s.threads[t].pc.Finish? && s.threads[t].at <= |c.workers[t].entries|
    requires c.workers[t].pos in s.barrier.positions
    requires Barrier.CanDequeue(Barrier.LeavePosition(s.barrier, c.workers[t].pos))
    ensures !Panics(c, s, t)
    ensures Next(c, s, t) == s.(threads := s.threads[t := s.threads[t].(pc := Done)],
      barrier := Barrier.Dequeue(Barrier.LeavePosition(s.barrier, c.workers[t].pos)))
  {
    assert BeforeDequeue(c, s, t) == Barrier.LeavePosition(s.barrier, c.workers[t].pos);
    hide BeforeDequeue, Barrier.LeavePosition, Barrier.Dequeue;
  }

  lemma FinishStep(c: Config, s: State, t: nat)
    requires WellFormed(c) && Inv(c, s) && t < |s.threads| && s.threads[t].pc.Finish?
    ensures !Panics(c, s, t) && Inv(c, Next(c, s, t))
  {
    var w, th, b, ths := c.workers[t], s.threads[t], s.barrier, s.threads;
    assert ThreadOk(c, w, th, b.minBlock);
    assert CountsInv(c, ths, b) && PositionsInv(c, ths, b) && ChannelsInv(c, ths, b) && b.threads == |Unsigned(ths)|;
    var th' := th.(pc := Done);
    var ths' := ths[t := th'];
    RestAfterMove(c, s, t, th');
    hide *;
    FinishMembers(c, ths, t, th', b.minBlock);
    FinishCounts(c, ths, ths', t, b, w.pos);
    FinishChannels(c, ths, t, th', b, w.pos);
    var b' := Barrier.LeavePosition(b, w.pos);
    LeavePositionIs(b, w.pos);
    DequeueStep(c, s, ths', b');
    FinishIs(c, s, t);
  }

  lemma LeavePositionIs(b: Barrier.State, p: nat)
    requires p in b.positions
    ensures Barrier.LeavePosition(b, p) == b.(positions := Barrier.LeavePosition(b, p).positions)
  {
  }

  // ---------- counting one match ----------

  lemma SubsetSize<T>(a: set<T>, b: set<T>)
    requires a <= b
    ensures |a| <= |b| && (|a| == |b| ==> a == b)
  {
    assert b == a + (b - a);
    assert |b| == |a| + |b - a|;
  }

  function PositionsOf(c: Config, ts: set<nat>): set<nat>
    requires forall t :: t in ts ==> t < |c.workers|
  {
    set t | t in ts :: c.workers[t].pos
  }

  /** Threads of different positions are as many as their positions. */
  lemma {:induction false} OnePerPosition(c: Config, ts: set<nat>)
    requires forall t :: t in ts ==> t < |c.workers|
    requires forall t, u :: t in ts && u in ts && t != u ==> c.workers[t].pos != c.workers[u].pos
    ensures |PositionsOf(c, ts)| == |ts|
  {
    if ts != {} {
      var t :| t in ts;
      OnePerPosition(c, ts - {t});
      assert PositionsOf(c, ts) == PositionsOf(c, ts - {t}) + {c.workers[t].pos};
      assert c.workers[t].pos !in PositionsOf(c, ts - {t});
    }
  }

  /** At most one thread per position wants an identifier; there is one for every position just when it is everywhere. */
  lemma HoldersAndPositions(c: Config, id: ID)
    requires WellFormed(c)
    ensures |Holders(c, id)| <= |Positions(c)|
    ensures |Holders(c, id)| == |Positions(c)| <==> Everywhere(c, id)
  {
    var hs := Holders(c, id);
    OnePerPosition(c, hs);
    assert PositionsOf(c, hs) <= Positions(c);
    SubsetSize(PositionsOf(c, hs), Positions(c));
    if Everywhere(c, id) {
      forall p | p in Positions(c) ensures p in PositionsOf(c, hs) {
        var t := HolderAt(c, id, p);
        assert t in hs;
      }
      assert PositionsOf(c, hs) == Positions(c);
    }
    if |hs| == |Positions(c)| {
      forall p | p in Positions(c)
        ensures exists t :: 0 <= t < |c.workers| && c.workers[t].pos == p && id in Wanted(c, c.workers[t])
      {
        assert p in PositionsOf(c, hs);
        var t :| t in hs && c.workers[t].pos == p;
      }
    }
  }

  lemma MatchersAreHolders(c: Config, ths: seq<Thread>, id: ID)
    requires |ths| == |c.workers|
    ensures Matchers(c, ths, id) <= Holders(c, id)
  {
  }

  /** The entry a thread counts is one it has not counted before. */
  lemma FreshEntry(c: Config, w: Worker, n: nat)
    requires n < |w.entries|
    requires forall i, j :: 0 <= i < j < |w.entries| ==> Ordered(w.entries[i].id, w.entries[j].id)
    ensures w.entries[n].id !in Seen(c, w, n)
  {
    assert forall i :: 0 <= i < n ==> Ordered(w.entries[i].id, w.entries[n].id);
  }

  lemma CollectMatchers(c: Config, ths: seq<Thread>, t: nat, th: Thread)
    requires WellFormed(c) && t < |ths| == |c.workers|
    requires ths[t].at < |c.workers[t].entries| && th.at == ths[t].at + 1
    requires Eligible(c, c.workers[t].entries[ths[t].at])
    ensures var id := c.workers[t].entries[ths[t].at].id;
      && t !in Matchers(c, ths, id) && Matchers(c, ths[t := th], id) == Matchers(c, ths, id) + {t}
      && forall x :: x != id ==> Matchers(c, ths[t := th], x) == Matchers(c, ths, x)
  {
    hide Seen;
    SeenNext(c, c.workers[t], ths[t].at);
    FreshEntry(c, c.workers[t], ths[t].at);
  }

  /** One more count: only the counter of `id` moves, as far as its block goes. */
  lemma CountIs(found: Found, id: ID, prev: uint64)
    requires prev == 0 || prev < id.block
    ensures Counter(Count(found, id, prev), id) == Counter(found, id) + 1
    ensures forall x: ID :: x.block == id.block && x != id ==> Counter(Count(found, id, prev), x) == Counter(found, x)
    ensures forall k :: k in Count(found, id, prev) ==> k in found || k == id.block
  {
  }

  lemma CollectFound(c: Config, ths: seq<Thread>, ths': seq<Thread>, t: nat, found: Found, id: ID, prev: uint64)
    requires |ths| == |ths'| == |c.workers| && FoundInv(c, ths, found, id.block)
    requires prev == 0 || prev < id.block
    requires t !in Matchers(c, ths, id) && Matchers(c, ths', id) == Matchers(c, ths, id) + {t}
    requires forall x :: x != id ==> Matchers(c, ths', x) == Matchers(c, ths, x)
    ensures FoundInv(c, ths', Count(found, id, prev), id.block)
    ensures Counter(Count(found, id, prev), id) == |Matchers(c, ths', id)|
  {
    hide Matchers, Count, Counter;
    CountIs(found, id, prev);
  }

  /** Before this count the identifier was not delivered. */
  lemma NotYetDelivered(c: Config, ths: seq<Thread>, ths': seq<Thread>, t: nat, delivered: seq<ID>, id: ID)
    requires WellFormed(c) && |ths| == |ths'| == |c.workers| && DeliveredInv(c, ths, delivered)
    requires t !in Matchers(c, ths, id) && Matchers(c, ths', id) == Matchers(c, ths, id) + {t}
    ensures id !in delivered
  {
    hide Matchers, Positions, Holders, Everywhere, WellFormed, Counter, Distinct, InBlockOrder;
    MatchersAreHolders(c, ths', id);
    SubsetSize(Matchers(c, ths', id), Holders(c, id));
    HoldersAndPositions(c, id);
    assert |Matchers(c, ths', id)| == |Matchers(c, ths, id)| + 1 <= |Positions(c)|;
  }

  lemma DeliveredBelow(c: Config, ths: seq<Thread>, found: Found, delivered: seq<ID>, m: uint64, x: ID)
    requires WellFormed(c) && |ths| == |c.workers|
    requires FoundInv(c, ths, found, m) && DeliveredInv(c, ths, delivered) && x in delivered
    ensures x.block <= m
  {
    assert c.workers[0].pos in Positions(c);
    assert |Positions(c)| > 0;
    hide Matchers, Positions, WellFormed, Counter, Distinct, InBlockOrder;
    assert |Matchers(c, ths, x)| > 0;
  }

  lemma DeliverMore(ids: seq<ID>, id: ID)
    requires Distinct(ids) && InBlockOrder(ids) && id !in ids && forall x :: x in ids ==> x.block <= id.block
    ensures Distinct(ids + [id]) && InBlockOrder(ids + [id])
  {
  }

  lemma CollectDelivered(c: Config, ths: seq<Thread>, ths': seq<Thread>, t: nat, found: Found, delivered: seq<ID>, id: ID)
    requires WellFormed(c) && |ths| == |ths'| == |c.workers|
    requires FoundInv(c, ths, found, id.block) && DeliveredInv(c, ths, delivered)
    requires t !in Matchers(c, ths, id) && Matchers(c, ths', id) == Matchers(c, ths, id) + {t}
    requires forall x :: x != id ==> Matchers(c, ths', x) == Matchers(c, ths, x)
    ensures DeliveredInv(c, ths',
      if |Matchers(c, ths', id)| == |Positions(c)| then delivered + [id] else delivered)
  {
    hide Matchers, Positions, WellFormed, FoundInv, Distinct, InBlockOrder;
    NotYetDelivered(c, ths, ths', t, delivered, id);
    forall x | x in delivered ensures x.block <= id.block {
      DeliveredBelow(c, ths, found, delivered, id.block, x);
    }
    DeliverMore(delivered, id);
  }

  lemma CollectAll(c: Config, ths: seq<Thread>, ths': seq<Thread>)
    requires |ths| == |ths'| == |c.workers| && AllCounted(c, ths)
    requires forall x :: Matchers(c, ths, x) <= Matchers(c, ths', x)
    ensures AllCounted(c, ths')
  {
    hide Matchers, Holders, Everywhere;
  }

  lemma CollectIs(c: Config, s: State, t: nat, id: ID)
    requires t < |s.threads| == |c.workers| && s.threads[t].pc.Collect? && s.threads[t].at < |c.workers[t].entries|
    requires id == c.workers[t].entries[s.threads[t].at].id
    ensures !Panics(c, s, t)
    ensures Next(c, s, t) == s.(
      threads := s.threads[t := Thread(Scan, s.threads[t].at + 1, 0)],
      found := Count(s.found, id, s.threads[t].prev),
      delivered := if Counter(Count(s.found, id, s.threads[t].prev), id) == |s.barrier.positions|
        then s.delivered + [id] else s.delivered)
  {
    hide BeforeDequeue, Barrier.Dequeue, Barrier.CanDequeue, Count, Counter;
  }

  lemma CollectThread(c: Config, w: Worker, th: Thread, m: uint64)
    requires ThreadOk(c, w, th, m) && th.pc.Collect?
    requires forall i, j :: 0 <= i < j < |w.entries| ==> Ordered(w.entries[i].id, w.entries[j].id)
    ensures ThreadOk(c, w, Thread(Scan, th.at + 1, 0), m)
  {
    assert th.at + 1 < |w.entries| ==> Ordered(w.entries[th.at].id, w.entries[th.at + 1].id);
  }

  lemma CollectFacts(c: Config, s: State, t: nat)
    requires WellFormed(c) && Inv(c, s) && t < |s.threads| && s.threads[t].pc.Collect?
    ensures var w, th, m := c.workers[t], s.threads[t], s.barrier.minBlock;
      && th.at < |w.entries| && Eligible(c, w.entries[th.at]) && w.entries[th.at].id.block == m
      && (th.prev == 0 || th.prev < m)
      && ThreadOk(c, w, Thread(Scan, th.at + 1, 0), m)
    ensures |s.barrier.positions| == |Positions(c)|
  {
    var w, th, m := c.workers[t], s.threads[t], s.barrier.minBlock;
    assert ThreadOk(c, w, th, m);
    CollectThread(c, w, th, m);
    assert |s.barrier.positions| == |s.barrier.positions.Keys|;
    hide CountsInv, ChannelsInv, ThreadsInv, FoundInv, DeliveredInv, LeftInv, AllCounted, Unsigned, WellFormed, Positions;
  }

  lemma CollectCore(c: Config, s: State, t: nat, id: ID, th: Thread, found: Found, delivered: seq<ID>)
    requires WellFormed(c) && t < |s.threads| == |c.workers| && s.threads[t].pc.Collect?
    requires RestInv(c, s.threads, s.found, s.delivered, s.barrier.minBlock, s.barrier.goNext)
    requires var w, at := c.workers[t], s.threads[t].at;
      at < |w.entries| && Eligible(c, w.entries[at]) && w.entries[at].id == id && th == Thread(Scan, at + 1, 0)
    requires id.block == s.barrier.minBlock && (s.threads[t].prev == 0 || s.threads[t].prev < id.block)
    requires ThreadOk(c, c.workers[t], th, s.barrier.minBlock)
    requires found == Count(s.found, id, s.threads[t].prev)
    requires delivered == if Counter(found, id) == |Positions(c)| then s.delivered + [id] else s.delivered
    ensures RestInv(c, s.threads[t := th], found, delivered, s.barrier.minBlock, s.barrier.goNext)
  {
    hide WellFormed, Eligible, Matchers, Positions, Counter, Count, FoundInv, DeliveredInv, ThreadOk, ThreadsInv, LeftInv,
      AllCounted;
    var ths, ths', b := s.threads, s.threads[t := th], s.barrier;
    CollectMatchers(c, ths, t, th);
    SetLeft(c, ths, t, th, b.goNext);
    SetThreadOk(c, ths, t, th, b.minBlock);
    CollectFound(c, ths, ths', t, s.found, id, s.threads[t].prev);
    CollectDelivered(c, ths, ths', t, s.found, s.delivered, id);
    if !b.goNext { CollectAll(c, ths, ths'); }
  }

  lemma CollectStep(c: Config, s: State, t: nat)
    requires WellFormed(c) && Inv(c, s) && t < |s.threads| && s.threads[t].pc.Collect?
    ensures !Panics(c, s, t) && Inv(c, Next(c, s, t))
  {
    hide WellFormed, Inv, Eligible, Matchers, Positions, Counter, Count, RestInv, ThreadOk, ThreadsInv, LeftInv, AllCounted, Next,
      Panics, FoundInv, DeliveredInv, CountsInv, ChannelsInv, PositionsInv, Members, Alive, Unsigned;
    InvParts(c, s);
    InvRest(c, s, t);
    var w, th, b, ths := c.workers[t], s.threads[t], s.barrier, s.threads;
    CollectFacts(c, s, t);
    var id := w.entries[th.at].id;
    var th' := Thread(Scan, th.at + 1, 0);
    var found := Count(s.found, id, th.prev);
    var delivered := if Counter(found, id) == |Positions(c)| then s.delivered + [id] else s.delivered;
    CollectCore(c, s, t, id, th', found, delivered);
    QuietMembers(c, ths, t, th', b.minBlock);
    SameUnsigned(ths, t, th');
    SameCounts(c, ths, ths[t := th'], b);
    SetNoWaiter(c, ths, t, th', b);
    MakeInv(c, s.(found := found, delivered := delivered), ths[t := th'], b);
    CollectIs(c, s, t, id);
    assert Next(c, s, t) == s.(found := found, delivered := delivered).(threads := ths[t := th'], barrier := b);
  }

  lemma SameUnsigned(ths: seq<Thread>, t: nat, th: Thread)
    requires t < |ths| && !Leaving(ths[t].pc) && !th.pc.Finish? && !th.pc.Done?
    ensures Unsigned(ths[t := th]) == Unsigned(ths)
  {
  }
}
