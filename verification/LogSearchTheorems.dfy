/** What every run of the concurrent search does: no panic, no deadlock, an end, and the exact answer. */
module LogSearchTheorems {
  import opened Collections
  import opened LogKeys
  import opened LogIndex
  import opened LogSearch
  import opened LogSearchSafety
  import Barrier

  // ---------- the start ----------

  function AtPosition(ws: seq<Worker>, p: nat): set<nat> {
    set t | 0 <= t < |ws| && ws[t].pos == p
  }

  lemma LastAtPosition(ws: seq<Worker>, p: nat)
    requires |ws| > 0
    ensures var n := |ws| - 1;
      && n !in AtPosition(ws[..n], p)
      && AtPosition(ws, p) == AtPosition(ws[..n], p) + (if ws[n].pos == p then {n} else {})
  {
  }

  /** Starting the threads one by one counts them all in block 0 ... */
  lemma {:induction false} StartedIs(ws: seq<Worker>)
    ensures var b := Started(ws);
      && b.threads == |ws| && b.goNext && b.minBlock == 0 && b.closed == {}
      && b.blocks == (if |ws| == 0 then map[] else map[0 := Barrier.BlockCounter(0, |ws|)])
      && b.channels == (if |ws| == 0 then 0 else 1)
  {
    if |ws| > 0 {
      StartedIs(ws[..|ws| - 1]);
    }
  }

  /** ... and each at its position. */
  lemma {:induction false} StartedPositions(ws: seq<Worker>, p: nat)
    ensures p in Started(ws).positions <==> AtPosition(ws, p) != {}
    ensures p in Started(ws).positions ==> Started(ws).positions[p] == |AtPosition(ws, p)|
  {
    if |ws| > 0 {
      LastAtPosition(ws, p);
      StartedPositions(ws[..|ws| - 1], p);
    }
    hide AtPosition;
  }

  lemma AllStart(c: Config)
    ensures var ths := Init(c).threads;
      && |ths| == |c.workers|
      && (forall p :: Alive(c, ths, p) == AtPosition(c.workers, p))
      && Members(c, ths, 0, 0) == Range(|c.workers|)
      && (forall k :: k != 0 ==> Members(c, ths, 0, k) == {})
      && (forall id :: Matchers(c, ths, id) == {})
      && Unsigned(ths) == Range(|c.workers|)
  {
  }

  lemma OneBlockCounts(c: Config, ths: seq<Thread>, b: Barrier.State)
    requires |ths| == |c.workers| > 0
    requires b.minBlock == 0 && b.closed == {} && b.channels == 1
    requires b.blocks == map[0 := Barrier.BlockCounter(0, |ths|)]
    requires |Members(c, ths, 0, 0)| == |ths| && forall k :: k != 0 ==> Members(c, ths, 0, k) == {}
    requires forall t :: 0 <= t < |ths| ==> !ths[t].pc.Waiting?
    ensures CountsInv(c, ths, b) && ChannelsInv(c, ths, b)
  {
    hide Members, WaiterOk;
    assert Members(c, ths, 0, 0) != {};
  }

  lemma InitBarrier(c: Config)
    requires WellFormed(c)
    ensures var s := Init(c);
      && |s.threads| == |c.workers|
      && CountsInv(c, s.threads, s.barrier) && ChannelsInv(c, s.threads, s.barrier)
      && s.barrier.threads == |Unsigned(s.threads)|
      && s.barrier.minBlock == 0 && s.barrier.goNext
  {
    StartedIs(c.workers);
    AllStart(c);
    hide Members, Alive, Matchers, Unsigned, AtPosition, Started, Range, CountsInv, ChannelsInv;
    OneBlockCounts(c, Init(c).threads, Init(c).barrier);
  }

  lemma InitPositions(c: Config)
    ensures |Init(c).threads| == |c.workers| && PositionsInv(c, Init(c).threads, Init(c).barrier)
  {
    AllStart(c);
    var b := Init(c).barrier;
    forall p ensures p in b.positions <==> p in Positions(c) {
      StartedPositions(c.workers, p);
      if p in Positions(c) {
        var t :| 0 <= t < |c.workers| && c.workers[t].pos == p;
        assert t in AtPosition(c.workers, p);
      }
      if p in b.positions {
        var t :| t in AtPosition(c.workers, p);
      }
    }
    forall p | p in b.positions ensures b.positions[p] == |Alive(c, Init(c).threads, p)| {
      StartedPositions(c.workers, p);
    }
  }

  lemma NothingCounted(c: Config, ths: seq<Thread>)
    requires |ths| == |c.workers| && |Positions(c)| > 0
    requires forall id :: Matchers(c, ths, id) == {}
    ensures FoundInv(c, ths, map[], 0) && DeliveredInv(c, ths, [])
  {
    hide Matchers, Positions;
  }

  lemma InitRest(c: Config)
    requires WellFormed(c)
    ensures |Init(c).threads| == |c.workers| && RestInv(c, Init(c).threads, map[], [], 0, true)
  {
    hide Started, Members, Alive, WellFormed, Matchers, Positions, FoundInv, DeliveredInv, ThreadsInv, LeftInv, Unsigned;
    AllStart(c);
    InitThreads(c);
    NothingCounted(c, Init(c).threads);
  }

  lemma InitThreads(c: Config)
    requires WellFormed(c)
    ensures ThreadsInv(c, Init(c).threads, 0) && LeftInv(c, Init(c).threads, true) && |Positions(c)| > 0
  {
    assert c.workers[0].pos in Positions(c);
    assert |Positions(c)| > 0;
  }

  lemma InitInv(c: Config)
    requires WellFormed(c)
    ensures Inv(c, Init(c))
  {
    hide CountsInv, ChannelsInv, PositionsInv, RestInv, Unsigned, Started, WellFormed;
    InitBarrier(c);
    InitPositions(c);
    InitRest(c);
    var s := Init(c);
    MakeInv(c, s, s.threads, s.barrier);
    assert s == s.(threads := s.threads, barrier := s.barrier);
  }

  // ---------- every step ----------

  /** No enabled step panics - no missing counter, no channel closed twice - and each keeps the invariant. */
  lemma StepKeepsInv(c: Config, s: State, t: nat)
    requires WellFormed(c) && Inv(c, s) && t < |s.threads| && !Blocked(s, t)
    ensures !Panics(c, s, t) && Inv(c, Next(c, s, t))
  {
    hide Inv, WellFormed, Next, Panics;
    match s.threads[t].pc {
      case Scan => ScanStep(c, s, t);
      case CheckGo => ReadStep(c, s, t);
      case CheckMin => ReadStep(c, s, t);
      case Announce => AnnounceStep(c, s, t);
      case Waiting(_) => ReadStep(c, s, t);
      case ReadGo => ReadStep(c, s, t);
      case Collect => CollectStep(c, s, t);
      case SignOff => SignOffStep(c, s, t);
      case Finish => FinishStep(c, s, t);
    }
  }

  /** Until all threads are done, some thread can move. */
  lemma NoDeadlock(c: Config, s: State)
    requires Inv(c, s)
    ensures (forall t :: 0 <= t < |s.threads| ==> s.threads[t].pc.Done?) || exists t: nat :: t < |s.threads| && !Blocked(s, t)
  {
    var b, ths := s.barrier, s.threads;
    if t :| 0 <= t < |ths| && !ths[t].pc.Done? {
      var k := BlockOf(c.workers[t], ths[t], b.minBlock);
      assert t in Members(c, ths, b.minBlock, k);
      assert b.minBlock in b.blocks;
      var u :| u in Members(c, ths, b.minBlock, b.minBlock);
      if ths[u].pc.Waiting? {
        assert WaiterOk(c.workers[u], ths[u], b);
      }
      assert !Blocked(s, u);
    }
  }

  /** What goNext means: it is given up only when some position has no thread left. */
  lemma GivesUpOnlyWhenGone(c: Config, s: State, t: nat)
    requires |s.threads| == |c.workers| && t < |s.threads| && !Blocked(s, t) && !Panics(c, s, t)
    requires s.barrier.goNext && !Next(c, s, t).barrier.goNext
    ensures exists p :: p in Next(c, s, t).barrier.positions && Next(c, s, t).barrier.positions[p] < 1
  {
    hide Count, Counter, BeforeDequeue, Barrier.PositionGone, Barrier.CanDequeue, Barrier.Dequeue;
    if s.threads[t].pc.Announce? || s.threads[t].pc.Finish? {
      BeforeKeeps(c, s, t);
      GaveUp(BeforeDequeue(c, s, t));
    }
  }

  lemma BeforeKeeps(c: Config, s: State, t: nat)
    requires t < |s.threads| == |c.workers| && !Panics(c, s, t) && (s.threads[t].pc.Announce? || s.threads[t].pc.Finish?)
    ensures BeforeDequeue(c, s, t).goNext == s.barrier.goNext
  {
  }

  lemma GaveUp(b: Barrier.State)
    requires Barrier.CanDequeue(b)
    ensures var after := Barrier.Dequeue(b); after.positions == b.positions && (b.goNext && !after.goNext ==>
      exists p :: p in after.positions && after.positions[p] < 1)
  {
  }

  // ---------- termination ----------

  function PcRank(pc: Pc): nat {
    match pc
    case Scan => 9
    case CheckGo => 8
    case CheckMin => 7
    case Announce => 6
    case Waiting(_) => 5
    case ReadGo => 4
    case Collect => 3
    case SignOff => 2
    case Finish => 1
    case Done => 0
  }

  function Work(w: Worker, th: Thread): nat {
    (if th.at <= |w.entries| then 10 * (|w.entries| - th.at) else 0) + PcRank(th.pc)
  }

  function TotalWork(ws: seq<Worker>, ths: seq<Thread>): nat
    requires |ws| == |ths|
  {
    if |ws| == 0 then 0 else TotalWork(ws[..|ws| - 1], ths[..|ws| - 1]) + Work(ws[|ws| - 1], ths[|ws| - 1])
  }

  lemma {:induction false} WorkFalls(ws: seq<Worker>, ths: seq<Thread>, t: nat, th: Thread)
    requires t < |ws| == |ths| && Work(ws[t], th) < Work(ws[t], ths[t])
    ensures TotalWork(ws, ths[t := th]) < TotalWork(ws, ths)
  {
    hide Work;
    var n := |ws| - 1;
    if t < n {
      assert ths[t := th][..n] == ths[..n][t := th];
      WorkFalls(ws[..n], ths[..n], t, th);
    } else {
      assert ths[t := th][..n] == ths[..n];
    }
  }

  /** Every step of every thread uses up work, so there is no endless run. */
  lemma StepUsesWork(c: Config, s: State, t: nat)
    requires |s.threads| == |c.workers| && t < |s.threads| && !Blocked(s, t) && !Panics(c, s, t)
    ensures |Next(c, s, t).threads| == |c.workers|
    ensures TotalWork(c.workers, Next(c, s, t).threads) < TotalWork(c.workers, s.threads)
  {
    var th' := Next(c, s, t).threads[t];
    assert Next(c, s, t).threads == s.threads[t := th'];
    assert Work(c.workers[t], th') < Work(c.workers[t], s.threads[t]);
    hide Next, Panics;
    WorkFalls(c.workers, s.threads, t, th');
  }

  // ---------- runs ----------

  lemma {:induction false} RunInv(c: Config, run: seq<State>)
    requires WellFormed(c) && IsRun(c, run)
    ensures Inv(c, run[|run| - 1])
    ensures TotalWork(c.workers, run[|run| - 1].threads) + |run| - 1 <= TotalWork(c.workers, Init(c).threads)
  {
    hide Inv, WellFormed, Init;
    if |run| == 1 {
      InitInv(c);
      InvSize(c, run[0]);
    } else {
      var n := |run| - 2;
      var front := run[..n + 1];
      assert forall i :: 0 <= i < |front| - 1 ==> Step(c, run[i], run[i + 1]) ==> Step(c, front[i], front[i + 1]);
      RunInv(c, front);
      InvSize(c, run[n]);
      assert Step(c, run[n], run[n + 1]);
      var t: nat :| t < |run[n].threads| && !Blocked(run[n], t) && !Panics(c, run[n], t) && run[n + 1] == Next(c, run[n], t);
      hide Next, Panics;
      StepKeepsInv(c, run[n], t);
      StepUsesWork(c, run[n], t);
    }
  }

  lemma InvSize(c: Config, s: State)
    requires Inv(c, s)
    ensures |s.threads| == |c.workers|
  {
  }

  /** In every reachable state no thread is about to panic, what is delivered is wanted everywhere,
      and no run is longer than the work there was. */
  lemma EveryRunIsSafe(c: Config, run: seq<State>, t: nat)
    requires WellFormed(c) && IsRun(c, run) && t < |c.workers|
    ensures var s := run[|run| - 1];
      && |s.threads| == |c.workers|
      && (!Blocked(s, t) ==> !Panics(c, s, t))
      && Distinct(s.delivered) && InBlockOrder(s.delivered)
      && (forall id :: id in s.delivered ==> Everywhere(c, id))
      && |run| <= TotalWork(c.workers, Init(c).threads) + 1
  {
    RunInv(c, run);
    var s := run[|run| - 1];
    if !Blocked(s, t) { StepKeepsInv(c, s, t); }
    forall id | id in s.delivered ensures Everywhere(c, id) {
      DeliveredIsWanted(c, s, id);
    }
    hide IsRun, Panics, Everywhere, WellFormed, CountsInv, ChannelsInv, PositionsInv, ThreadsInv, FoundInv, LeftInv, AllCounted,
      TotalWork, Matchers, Positions;
  }

  lemma DeliveredIsWanted(c: Config, s: State, id: ID)
    requires WellFormed(c) && Inv(c, s) && id in s.delivered
    ensures Everywhere(c, id)
  {
    hide Everywhere, WellFormed, CountsInv, ChannelsInv, PositionsInv, ThreadsInv, FoundInv, LeftInv, AllCounted, Matchers,
      Positions, Holders;
    MatchersAreHolders(c, s.threads, id);
    SubsetSize(Matchers(c, s.threads, id), Holders(c, id));
    HoldersAndPositions(c, id);
  }

  /** The wait group is down to zero: every thread has counted all it wants, or nothing is left to count. */
  lemma SignedOffIsAllCounted(c: Config, s: State)
    requires Inv(c, s) && s.barrier.threads == 0
    ensures AllCounted(c, s.threads)
  {
    assert Unsigned(s.threads) == {};
    if s.barrier.goNext {
      forall t | 0 <= t < |s.threads|
        ensures s.threads[t].at <= |c.workers[t].entries| && Wanted(c, c.workers[t]) <= Seen(c, c.workers[t], s.threads[t].at)
      {
        assert t !in Unsigned(s.threads);
      }
      assert forall id :: Holders(c, id) <= Matchers(c, s.threads, id);
    }
  }

  /** When the caller stops waiting, exactly what is wanted everywhere was delivered. */
  lemma SearchIsExact(c: Config, run: seq<State>, id: ID)
    requires WellFormed(c) && IsRun(c, run) && run[|run| - 1].barrier.threads == 0
    ensures id in run[|run| - 1].delivered <==> Everywhere(c, id)
  {
    RunInv(c, run);
    var s := run[|run| - 1];
    if id in s.delivered {
      DeliveredIsWanted(c, s, id);
    }
    SignedOffIsAllCounted(c, s);
    MatchersAreHolders(c, s.threads, id);
    HoldersAndPositions(c, id);
    hide IsRun, Everywhere, WellFormed, CountsInv, ChannelsInv, PositionsInv, ThreadsInv, FoundInv, LeftInv, Matchers,
      Positions, Holders;
    if Everywhere(c, id) {
      assert Matchers(c, s.threads, id) == Holders(c, id);
    }
  }

  ghost predicate CanStep(c: Config, s: State) {
    |s.threads| == |c.workers| && exists t: nat :: t < |s.threads| && !Blocked(s, t) && !Panics(c, s, t)
  }

  /** A run that cannot go on has ended: all threads are done and the wait group is down to zero. */
  lemma StuckMeansEnded(c: Config, run: seq<State>)
    requires WellFormed(c) && IsRun(c, run)
    requires !CanStep(c, run[|run| - 1])
    ensures var s := run[|run| - 1];
      (forall t :: 0 <= t < |s.threads| ==> s.threads[t].pc.Done?) && s.barrier.threads == 0
  {
    RunInv(c, run);
    var s := run[|run| - 1];
    NoDeadlock(c, s);
    if t: nat :| t < |s.threads| && !Blocked(s, t) {
      StepKeepsInv(c, s, t);
    }
    assert Unsigned(s.threads) == {};
  }
}
