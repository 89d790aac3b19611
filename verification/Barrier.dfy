/** The block barrier that keeps the iterator threads of one search in step (topicsdb/sync.go). */
module Barrier {
  import opened LogKeys

  const MAX_BLOCK: uint64 := 0xFFFF_FFFF_FFFF_FFFF

  /** `wait` names the channel the threads of a block wait on. */
  datatype BlockCounter = BlockCounter(wait: nat, count: int)

  /** The fields of the barrier, with the channels made and closed so far and its wait group. */
  datatype State = State(
    threads: int,
    positions: map<nat, int>,
    goNext: bool,
    minBlock: uint64,
    blocks: map<uint64, BlockCounter>,
    channels: nat,
    closed: set<nat>)

  const EMPTY := State(0, map[], true, 0, map[], 0, {})

  ghost function Least(blocks: set<uint64>): (b: uint64)
    requires blocks != {}
    ensures b in blocks && forall x :: x in blocks ==> b <= x
  {
    var x :| x in blocks;
    if blocks == {x} then x
    else
      var y := Least(blocks - {x});
      assert blocks == (blocks - {x}) + {x};
      if x < y then x else y
  }

  /** Counts one more thread in block `n`, opening a channel for a new block. */
  function Enqueue(s: State, n: uint64): State {
    if n in s.blocks then s.(blocks := s.blocks[n := s.blocks[n].(count := s.blocks[n].count + 1)])
    else s.(blocks := s.blocks[n := BlockCounter(s.channels, 1)], channels := s.channels + 1)
  }

  predicate PositionGone(s: State) {
    exists p :: p in s.positions && s.positions[p] < 1
  }

  /** The counter of the least block is deleted, and goNext given up if some position has no thread left. */
  function DropBlock(s: State): State {
    s.(goNext := s.goNext && !PositionGone(s), blocks := s.blocks - {s.minBlock})
  }

  /** The next block, if there is one, becomes the least and its channel is closed. */
  ghost function OpenNext(s: State): State {
    if s.blocks.Keys == {} then s
    else s.(minBlock := Least(s.blocks.Keys), closed := s.closed + {s.blocks[Least(s.blocks.Keys)].wait})
  }

  ghost predicate CanOpen(s: State) {
    s.blocks.Keys != {} ==> s.blocks[Least(s.blocks.Keys)].wait !in s.closed
  }

  /** Whether dequeueing runs without dereferencing a missing counter or closing a channel twice. */
  ghost predicate CanDequeue(s: State) {
    s.minBlock in s.blocks && (s.blocks[s.minBlock].count <= 1 ==> CanOpen(DropBlock(s)))
  }

  /** One thread leaves the least block; the last to leave it opens the next block. */
  ghost function Dequeue(s: State): State
    requires s.minBlock in s.blocks
  {
    var left := s.blocks[s.minBlock].count - 1;
    if left >= 1 then s.(blocks := s.blocks[s.minBlock := s.blocks[s.minBlock].(count := left)])
    else OpenNext(DropBlock(s))
  }

  function Start(s: State, pos: nat): State {
    var t := Enqueue(s.(threads := s.threads + 1), s.minBlock);
    t.(positions := s.positions[pos := if pos in s.positions then s.positions[pos] + 1 else 1])
  }

  /** The wait group part of finishing a thread, before the lock is taken. */
  function SignOff(s: State): State {
    s.(threads := s.threads - 1)
  }

  function LeavePosition(s: State, pos: nat): State
    requires pos in s.positions
  {
    s.(positions := s.positions[pos := s.positions[pos] - 1])
  }

  /** The barrier as the search uses it: one object, every method body one lock region. */
  class Synchronizator {
    var threads: int
    var positions: map<nat, int>
    var goNext: bool
    var minBlock: uint64
    var blocks: map<uint64, BlockCounter>
    var channels: nat
    var closed: set<nat>

    function Value(): State
      reads this
    {
      State(threads, positions, goNext, minBlock, blocks, channels, closed)
    }

    constructor ()
      ensures Value() == EMPTY
    {
      threads, positions, goNext, minBlock, blocks := 0, map[], true, 0, map[];
      channels, closed := 0, {};
    }

    method StartThread(pos: nat)
      modifies this
      ensures Value() == Start(old(Value()), pos)
    {
      threads := threads + 1;
      EnqueueBlock(minBlock);
      if pos in positions {
        positions := positions[pos := positions[pos] + 1];
      } else {
        positions := positions[pos := 1];
      }
    }

    method FinishThread(pos: nat)
      requires pos in positions && CanDequeue(LeavePosition(SignOff(Value()), pos))
      modifies this
      ensures Value() == Dequeue(LeavePosition(SignOff(old(Value())), pos))
    {
      threads := threads - 1;
      positions := positions[pos := positions[pos] - 1];
      DequeueBlock();
    }

    /** The lock region of GoNext: announce block `n`, leave the current one, and get the channel to wait on. */
    method Announce(n: uint64) returns (prev: uint64, wait: nat)
      requires n > minBlock && CanDequeue(Enqueue(Value(), n))
      modifies this
      ensures Value() == Dequeue(Enqueue(old(Value()), n))
      ensures prev == old(minBlock)
      ensures n in blocks && wait == blocks[n].wait
    {
      prev := minBlock;
      EnqueueBlock(n);
      assert n in blocks && n != minBlock;
      ghost var mid := Value();
      DequeueBlock();
      assert n in Dequeue(mid).blocks;
      wait := blocks[n].wait;
    }

    method EnqueueBlock(n: uint64)
      modifies this
      ensures Value() == Enqueue(old(Value()), n)
    {
      if n in blocks {
        blocks := blocks[n := blocks[n].(count := blocks[n].count + 1)];
      } else {
        blocks := blocks[n := BlockCounter(channels, 1)];
        channels := channels + 1;
      }
    }

    method DequeueBlock()
      requires CanDequeue(Value())
      modifies this
      ensures Value() == Dequeue(old(Value()))
    {
      ghost var was := Value();
      blocks := blocks[minBlock := blocks[minBlock].(count := blocks[minBlock].count - 1)];
      if blocks[minBlock].count < 1 {
        CheckPositions();
        blocks := blocks - {minBlock};
        assert Value() == DropBlock(was) by {
          assert blocks == was.blocks - {minBlock};
          assert PositionGone(was) <==> exists p :: p in positions && positions[p] < 1;
        }
        Reopen();
      }
    }

    method CheckPositions()
      modifies this`goNext
      ensures goNext == (old(goNext) && !exists p :: p in positions && positions[p] < 1)
    {
      var todo := positions.Keys;
      while todo != {}
        invariant todo <= positions.Keys && goNext == old(goNext)
        invariant forall p :: p in positions && p !in todo ==> positions[p] >= 1
        decreases todo
      {
        var pos :| pos in todo;
        if positions[pos] < 1 {
          goNext := false;
          assert pos in positions && positions[pos] < 1;
          assert exists p :: p in positions && positions[p] < 1;
          return;
        }
        todo := todo - {pos};
      }
    }

    method Reopen()
      requires CanOpen(Value())
      modifies this`minBlock, this`closed
      ensures Value() == OpenNext(old(Value()))
    {
      assert |blocks| == |blocks.Keys|;
      if |blocks| < 1 {
        return;
      }
      FindMinBlock();
      Close(blocks[minBlock].wait);
    }

    method FindMinBlock()
      requires blocks.Keys != {}
      modifies this`minBlock
      ensures minBlock == Least(blocks.Keys)
    {
      minBlock := MAX_BLOCK;
      var todo := blocks.Keys;
      while todo != {}
        invariant todo <= blocks.Keys
        invariant forall b :: b in blocks && b !in todo ==> minBlock <= b
        invariant minBlock == MAX_BLOCK || minBlock in blocks
        decreases todo
      {
        var b :| b in todo;
        if minBlock > b {
          minBlock := b;
        }
        todo := todo - {b};
      }
      var least := Least(blocks.Keys);
      assert minBlock <= least;
    }

    /** Closing a closed channel panics. */
    method Close(wait: nat)
      requires wait !in closed
      modifies this`closed
      ensures closed == old(closed) + {wait}
    {
      closed := closed + {wait};
    }
  }
}
