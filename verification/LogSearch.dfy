/** The concurrent pattern search as a transition system: one thread per (position, variant), each step
    one lock region or one unlocked read (topicsdb/search_parallel.go on topicsdb/sync.go). */
module LogSearch {
  import opened Collections
  import opened LogKeys
  import opened LogIndex
  import Barrier

  /** What one thread iterates over. */
  datatype Worker = Worker(pos: nat, entries: seq<Entry>)

  /** A zero `blockEnd` means no upper limit. */
  datatype Config = Config(workers: seq<Worker>, minTopics: nat, blockEnd: uint64)

  /** Where a thread stands. `Waiting` holds the channel it blocks on. */
  datatype Pc = Scan | CheckGo | CheckMin | Announce | Waiting(wait: nat) | ReadGo | Collect | SignOff | Finish | Done

  /** `at` is the entry the thread is at, `prev` the block GoNext returned for it. */
  datatype Thread = Thread(pc: Pc, at: nat, prev: uint64)

  type Found = map<uint64, map<ID, nat>>

  datatype State = State(barrier: Barrier.State, found: Found, threads: seq<Thread>, delivered: seq<ID>)

  // ---------- the program ----------

  predicate PastEnd(c: Config, e: Entry) {
    c.blockEnd > 0 && e.id.block > c.blockEnd
  }

  predicate Eligible(c: Config, e: Entry) {
    !PastEnd(c, e) && e.topics >= c.minTopics
  }

  function Counter(found: Found, id: ID): nat {
    if id.block in found && id in found[id.block] then found[id.block][id] else 0
  }

  /** Counts one more match of `id`, dropping the counters of the block left behind. */
  function Count(found: Found, id: ID, prev: uint64): Found {
    var kept := if prev > 0 then found - {prev} else found;
    var inBlock := if id.block in kept then kept[id.block] else map[];
    kept[id.block := inBlock[id := if id in inBlock then inBlock[id] + 1 else 1]]
  }

  /** The records found so far, shared by the handlers of all threads. */
  class Aggregator {
    var foundByBlock: Found

    constructor ()
      ensures foundByBlock == map[]
    {
      foundByBlock := map[];
    }

    /** The handler's lock region: drops the counters of the block left behind and counts one more match of `id`. */
    method Match(id: ID, prevBlock: uint64) returns (matched: nat)
      requires prevBlock == 0 || prevBlock != id.block
      modifies this
      ensures foundByBlock == Count(old(foundByBlock), id, prevBlock)
      ensures matched == Counter(foundByBlock, id) == Counter(old(foundByBlock), id) + 1
    {
      if prevBlock > 0 {
        foundByBlock := foundByBlock - {prevBlock};
      }
      if id.block !in foundByBlock {
        foundByBlock := foundByBlock[id.block := map[]];
      }
      var found: map<ID, nat> := foundByBlock[id.block];
      matched := if id in found then found[id] + 1 else 1;
      found := found[id := matched];
      foundByBlock := foundByBlock[id.block := found];
    }
  }

  predicate Blocked(s: State, t: nat)
    requires t < |s.threads|
  {
    s.threads[t].pc.Done? || (s.threads[t].pc.Waiting? && s.threads[t].pc.wait !in s.barrier.closed)
  }

  /** The barrier as the dequeue of this thread's next lock region finds it. */
  function BeforeDequeue(c: Config, s: State, t: nat): Barrier.State
    requires t < |s.threads| == |c.workers|
  {
    var w := c.workers[t];
    if s.threads[t].pc.Announce? && s.threads[t].at < |w.entries| then
      Barrier.Enqueue(s.barrier, w.entries[s.threads[t].at].id.block)
    else if w.pos in s.barrier.positions then Barrier.LeavePosition(s.barrier, w.pos)
    else s.barrier
  }

  /** The next step would dereference nil, index out of range or close a closed channel. */
  ghost predicate Panics(c: Config, s: State, t: nat)
    requires t < |s.threads| == |c.workers|
  {
    var w, th := c.workers[t], s.threads[t];
    || th.at > |w.entries|
    || (!th.pc.Scan? && !th.pc.SignOff? && !th.pc.Finish? && !th.pc.Done? && th.at == |w.entries|)
    || (th.pc.Finish? && w.pos !in s.barrier.positions)
    || ((th.pc.Announce? || th.pc.Finish?) && !Barrier.CanDequeue(BeforeDequeue(c, s, t)))
    || (th.pc.Announce? && w.entries[th.at].id.block !in Barrier.Dequeue(BeforeDequeue(c, s, t)).blocks)
  }

  function Goto(s: State, t: nat, th: Thread): State
    requires t < |s.threads|
  {
    s.(threads := s.threads[t := th])
  }

  /** One step of thread `t`. */
  ghost function Next(c: Config, s: State, t: nat): State
    requires t < |s.threads| == |c.workers| && !Blocked(s, t) && !Panics(c, s, t)
  {
    var w, th, b := c.workers[t], s.threads[t], s.barrier;
    match th.pc
    case Scan =>
      if th.at == |w.entries| then Goto(s, t, th.(pc := SignOff))
      else if PastEnd(c, w.entries[th.at]) then Goto(s, t, th.(pc := SignOff))
      else if w.entries[th.at].topics < c.minTopics then Goto(s, t, th.(at := th.at + 1))
      else Goto(s, t, th.(pc := CheckGo))
    case CheckGo => Goto(s, t, th.(pc := if b.goNext then CheckMin else SignOff))
    case CheckMin =>
      Goto(s, t, if w.entries[th.at].id.block > b.minBlock then th.(pc := Announce) else th.(pc := ReadGo, prev := 0))
    case Announce =>
      var n := w.entries[th.at].id.block;
      var after := Barrier.Dequeue(BeforeDequeue(c, s, t));
      Goto(s, t, th.(pc := Waiting(after.blocks[n].wait), prev := b.minBlock)).(barrier := after)
    case Waiting(_) => Goto(s, t, th.(pc := ReadGo))
    case ReadGo => Goto(s, t, th.(pc := if b.goNext then Collect else SignOff))
    case Collect =>
      var id := w.entries[th.at].id;
      var found := Count(s.found, id, th.prev);
      var delivered := if Counter(found, id) == |b.positions| then s.delivered + [id] else s.delivered;
      Goto(s, t, Thread(Scan, th.at + 1, 0)).(found := found, delivered := delivered)
    case SignOff => Goto(s, t, th.(pc := Finish)).(barrier := Barrier.SignOff(b))
    case Finish => Goto(s, t, th.(pc := Done)).(barrier := Barrier.Dequeue(BeforeDequeue(c, s, t)))
  }

  ghost predicate Step(c: Config, s: State, s': State) {
    |s.threads| == |c.workers| &&
    exists t: nat :: t < |s.threads| && !Blocked(s, t) && !Panics(c, s, t) && s' == Next(c, s, t)
  }

  /** The barrier after StartThread was called for each worker in turn. */
  function Started(ws: seq<Worker>): Barrier.State {
    if |ws| == 0 then Barrier.EMPTY else Barrier.Start(Started(ws[..|ws| - 1]), ws[|ws| - 1].pos)
  }

  function Init(c: Config): State {
    State(Started(c.workers), map[], seq(|c.workers|, _ => Thread(Scan, 0, 0)), [])
  }

  ghost predicate IsRun(c: Config, run: seq<State>) {
    |run| > 0 && run[0] == Init(c) && forall i :: 0 <= i < |run| - 1 ==> Step(c, run[i], run[i + 1])
  }

  // ---------- what a search is for ----------

  /** The eligible identifiers among the first `n` entries of a worker. */
  function Seen(c: Config, w: Worker, n: nat): set<ID>
    requires n <= |w.entries|
  {
    set i | 0 <= i < n && Eligible(c, w.entries[i]) :: w.entries[i].id
  }

  function Wanted(c: Config, w: Worker): set<ID> {
    Seen(c, w, |w.entries|)
  }

  function Positions(c: Config): set<nat> {
    set t | 0 <= t < |c.workers| :: c.workers[t].pos
  }

  /** `id` is to be found at every position. */
  predicate Everywhere(c: Config, id: ID) {
    forall p :: p in Positions(c) ==> exists t :: 0 <= t < |c.workers| && c.workers[t].pos == p && id in Wanted(c, c.workers[t])
  }

  /** Entries come in block order and once each, and two variants of one position share no log. */
  ghost predicate WellFormed(c: Config) {
    && |c.workers| > 0
    && (forall t, i, j :: 0 <= t < |c.workers| && 0 <= i < j < |c.workers[t].entries| ==>
          Ordered(c.workers[t].entries[i].id, c.workers[t].entries[j].id))
    && (forall t, u :: 0 <= t < |c.workers| && 0 <= u < |c.workers| && t != u && c.workers[t].pos == c.workers[u].pos ==>
          Wanted(c, c.workers[t]) !! Wanted(c, c.workers[u]))
  }

  predicate Ordered(a: ID, b: ID) {
    a != b && a.block <= b.block
  }

  // ---------- the invariant ----------

  /** The block a thread is counted in: the one it waits for, or the least one. */
  function BlockOf(w: Worker, th: Thread, minBlock: uint64): uint64 {
    if th.pc.Waiting? && th.at < |w.entries| then w.entries[th.at].id.block else minBlock
  }

  function Members(c: Config, ths: seq<Thread>, minBlock: uint64, b: uint64): set<nat>
    requires |ths| == |c.workers|
  {
    set t | 0 <= t < |ths| && !ths[t].pc.Done? && BlockOf(c.workers[t], ths[t], minBlock) == b
  }

  function Alive(c: Config, ths: seq<Thread>, pos: nat): set<nat>
    requires |ths| == |c.workers|
  {
    set t | 0 <= t < |ths| && c.workers[t].pos == pos && !ths[t].pc.Done?
  }

  /** The threads the wait group still counts. */
  function Unsigned(ths: seq<Thread>): set<nat> {
    set t | 0 <= t < |ths| && !ths[t].pc.Finish? && !ths[t].pc.Done?
  }

  /** The threads that have counted `id`. */
  function Matchers(c: Config, ths: seq<Thread>, id: ID): set<nat>
    requires |ths| == |c.workers|
  {
    set t | 0 <= t < |ths| && ths[t].at <= |c.workers[t].entries| && id in Seen(c, c.workers[t], ths[t].at)
  }

  function Holders(c: Config, id: ID): set<nat> {
    set t | 0 <= t < |c.workers| && id in Wanted(c, c.workers[t])
  }

  /** Every block counter counts exactly the threads of that block, and no counted block is below the least. */
  ghost predicate CountsInv(c: Config, ths: seq<Thread>, b: Barrier.State)
    requires |ths| == |c.workers|
  {
    && (forall k :: k in b.blocks <==> Members(c, ths, b.minBlock, k) != {})
    && (forall k :: k in b.blocks ==> b.blocks[k].count == |Members(c, ths, b.minBlock, k)| && b.minBlock <= k)
    && (b.blocks.Keys != {} ==> b.minBlock in b.blocks)
  }

  ghost predicate PositionsInv(c: Config, ths: seq<Thread>, b: Barrier.State)
    requires |ths| == |c.workers|
  {
    && b.positions.Keys == Positions(c)
    && (forall p :: p in b.positions ==> b.positions[p] == |Alive(c, ths, p)|)
  }

  /** Channels are fresh and distinct, only the least block's may be closed, and a waiter waits on its block's. */
  ghost predicate ChannelsInv(c: Config, ths: seq<Thread>, b: Barrier.State)
    requires |ths| == |c.workers|
  {
    && (forall k :: k in b.blocks ==> b.blocks[k].wait < b.channels)
    && (forall k, l :: k in b.blocks && l in b.blocks && k != l ==> b.blocks[k].wait != b.blocks[l].wait)
    && (forall w :: w in b.closed ==> w < b.channels)
    && (forall k :: k in b.blocks && k != b.minBlock ==> b.blocks[k].wait !in b.closed)
    && (forall t :: 0 <= t < |ths| && ths[t].pc.Waiting? ==> WaiterOk(c.workers[t], ths[t], b))
  }

  predicate WaiterOk(w: Worker, th: Thread, b: Barrier.State) {
    && th.pc.Waiting? && th.at < |w.entries| && w.entries[th.at].id.block in b.blocks
    && th.pc.wait == b.blocks[w.entries[th.at].id.block].wait
    && (w.entries[th.at].id.block == b.minBlock ==> th.pc.wait in b.closed)
  }

  /** A thread that has not left is at an entry no lower than the least block, and counts only in the least block. */
  predicate ThreadOk(c: Config, w: Worker, th: Thread, minBlock: uint64) {
    var pc := th.pc;
    && th.at <= |w.entries|
    && (pc.CheckGo? || pc.CheckMin? || pc.Announce? || pc.Waiting? || pc.ReadGo? || pc.Collect? ==>
          th.at < |w.entries| && Eligible(c, w.entries[th.at]))
    && (!pc.SignOff? && !pc.Finish? && !pc.Done? && th.at < |w.entries| ==> minBlock <= w.entries[th.at].id.block)
    && (pc.Announce? ==> minBlock < w.entries[th.at].id.block)
    && (pc.ReadGo? || pc.Collect? ==> w.entries[th.at].id.block == minBlock)
    && (pc.Waiting? || pc.ReadGo? || pc.Collect? ==> th.prev == 0 || th.prev < w.entries[th.at].id.block)
  }

  ghost predicate ThreadsInv(c: Config, ths: seq<Thread>, minBlock: uint64)
    requires |ths| == |c.workers|
  {
    forall t :: 0 <= t < |ths| ==> ThreadOk(c, c.workers[t], ths[t], minBlock)
  }

  /** The counters of the least block are the numbers of threads that counted there, and nothing above was counted. */
  ghost predicate FoundInv(c: Config, ths: seq<Thread>, found: Found, minBlock: uint64)
    requires |ths| == |c.workers|
  {
    && (forall k :: k in found ==> k <= minBlock)
    && (forall id :: Matchers(c, ths, id) != {} ==> id.block <= minBlock)
    && (forall id: ID :: id.block == minBlock ==> Counter(found, id) == |Matchers(c, ths, id)|)
  }

  predicate InBlockOrder(ids: seq<ID>) {
    forall i, j :: 0 <= i < j < |ids| ==> ids[i].block <= ids[j].block
  }

  /** Delivered so far, once each and in block order: what as many threads counted as there are positions. */
  ghost predicate DeliveredInv(c: Config, ths: seq<Thread>, delivered: seq<ID>)
    requires |ths| == |c.workers|
  {
    && Distinct(delivered) && InBlockOrder(delivered)
    && (forall id :: id in delivered <==> |Matchers(c, ths, id)| == |Positions(c)|)
  }

  /** A thread leaves early only when the search is over. */
  ghost predicate LeftInv(c: Config, ths: seq<Thread>, goNext: bool)
    requires |ths| == |c.workers|
  {
    forall t :: 0 <= t < |ths| && (ths[t].pc.SignOff? || ths[t].pc.Finish? || ths[t].pc.Done?) && goNext ==>
      ths[t].at <= |c.workers[t].entries| && Wanted(c, c.workers[t]) <= Seen(c, c.workers[t], ths[t].at)
  }

  /** Nothing is left to be delivered. */
  ghost predicate AllCounted(c: Config, ths: seq<Thread>)
    requires |ths| == |c.workers|
  {
    forall id :: Everywhere(c, id) ==> Holders(c, id) <= Matchers(c, ths, id)
  }

  ghost predicate Inv(c: Config, s: State) {
    var b := s.barrier;
    && |s.threads| == |c.workers|
    && CountsInv(c, s.threads, b) && PositionsInv(c, s.threads, b) && ChannelsInv(c, s.threads, b)
    && b.threads == |Unsigned(s.threads)|
    && ThreadsInv(c, s.threads, b.minBlock)
    && FoundInv(c, s.threads, s.found, b.minBlock)
    && DeliveredInv(c, s.threads, s.delivered)
    && LeftInv(c, s.threads, b.goNext)
    && (!b.goNext ==> AllCounted(c, s.threads))
  }
}
