/** The pool together with its price list: what a full pool evicts for a new transaction (evmcore/tx_pool.go, add). */
module PoolPrices {
  import opened Collections
  import opened TxLists
  import opened TxLookups
  import opened PoolState
  import opened PoolSteps
  import opened PoolLimits
  import opened PoolBeats
  import opened TxPoolOps
  import opened PricedLists
  import MapSum

  /** Each remote transaction is in the heaps once, and no other entry has its hash. */
  ghost predicate LiveOnce(entries: multiset<Tx>, remotes: Lookup) {
    forall x: Tx :: x.hash in remotes ==> entries[x] == if remotes[x.hash] == x then 1 else 0
  }

  /** A rebuild puts each remote transaction into the heaps once, and forgetting one does no harm. A new one is there once
      just when no stale entry of the same hash is left: one that was removed and comes back before a rebuild is in twice. */
  lemma StaysOnce(entries: multiset<Tx>, remotes: Lookup, tx: Tx)
    ensures Hashed(remotes) ==> LiveOnce(multiset(remotes.Values), remotes)
    ensures LiveOnce(entries, remotes) ==> LiveOnce(entries, remotes - {tx.hash})
    ensures LiveOnce(entries, remotes) && tx.hash !in remotes ==>
      (LiveOnce(entries + multiset{tx}, remotes[tx.hash := tx]) <==> forall x :: x in entries ==> x.hash != tx.hash)
  {
    if Hashed(remotes) {
      forall x: Tx | x.hash in remotes ensures multiset(remotes.Values)[x] == if remotes[x.hash] == x then 1 else 0 {
        if x in remotes.Values {
          var h :| h in remotes && remotes[h] == x;
        }
      }
    }
    if LiveOnce(entries, remotes) && tx.hash !in remotes {
      var more, now := entries + multiset{tx}, remotes[tx.hash := tx];
      if LiveOnce(more, now) {
        forall x | x in entries ensures x.hash != tx.hash {
          assert x.hash == tx.hash ==> more[x] == if x == tx then 1 else 0;
        }
      }
    }
  }

  /** Remote transactions, none of them twice. */
  predicate OnceEach(txs: seq<Tx>, remotes: Lookup) {
    Distinct(txs) && forall x :: x in txs ==> x.hash in remotes && remotes[x.hash] == x
  }

  function HashesOf(txs: seq<Tx>): seq<nat> {
    seq(|txs|, i requires 0 <= i < |txs| => txs[i].hash)
  }

  lemma HashIn(txs: seq<Tx>, h: nat)
    ensures h in HashesOf(txs) <==> exists x :: x in txs && x.hash == h
  {
    if h in HashesOf(txs) {
      var i :| 0 <= i < |txs| && HashesOf(txs)[i] == h;
      assert txs[i] in txs;
    }
    if x :| x in txs && x.hash == h {
      var i :| 0 <= i < |txs| && txs[i] == x;
      assert HashesOf(txs)[i] == h;
    }
  }

  lemma {:induction false} CountInSeq(txs: seq<Tx>, x: Tx)
    ensures Distinct(txs) ==> multiset(txs)[x] == if x in txs then 1 else 0
    ensures (forall y :: y in txs ==> multiset(txs)[y] <= 1) ==> Distinct(txs)
  {
    if txs != [] {
      var k := |txs| - 1;
      assert txs == txs[..k] + [txs[k]];
      CountInSeq(txs[..k], x);
      CountInSeq(txs[..k], txs[k]);
      if forall y :: y in txs ==> multiset(txs)[y] <= 1 {
        forall y | y in txs[..k] ensures multiset(txs[..k])[y] <= 1 {
          assert y in txs && multiset(txs)[y] >= multiset(txs[..k])[y];
        }
        assert txs[k] in txs && multiset(txs)[txs[k]] == multiset(txs[..k])[txs[k]] + 1;
        assert txs[k] !in multiset(txs[..k]);
        assert txs[k] !in txs[..k];
        DistinctMore(txs[..k], txs[k]);
      }
    }
  }

  lemma DistinctMore(txs: seq<Tx>, x: Tx)
    requires Distinct(txs) && x !in txs
    ensures Distinct(txs + [x])
  {
  }

  /** What is taken out of such heaps is taken once. */
  lemma TakenOnce(entries: multiset<Tx>, now: multiset<Tx>, txs: seq<Tx>, remotes: Lookup)
    requires LiveOnce(entries, remotes) && LiveSame(entries, now + multiset(txs), remotes) && AllLive(txs, remotes)
    ensures OnceEach(txs, remotes)
  {
    forall x | x in txs ensures x.hash in remotes && remotes[x.hash] == x && multiset(txs)[x] <= 1 {
      assert x in multiset(txs);
    }
    if txs != [] { CountInSeq(txs, txs[0]); }
  }

  /** The slots of transactions taken once are those of their hashes in the lookup. */
  lemma {:induction false} SlotsTaken(txs: seq<Tx>, remotes: Lookup)
    requires OnceEach(txs, remotes)
    ensures SlotsIn(txs) == MapSum.Sum(SlotsOf(MapSum.Restrict(remotes, SetOf(HashesOf(txs)))))
  {
    if txs == [] {
      assert MapSum.Restrict(remotes, SetOf(HashesOf(txs))) == map[];
      assert SlotsOf(map[]) == map[];
    } else {
      var k := |txs| - 1;
      SlotsTaken(txs[..k], remotes);
      var less := MapSum.Restrict(remotes, SetOf(HashesOf(txs[..k])));
      OneMoreTaken(txs, remotes);
      SlotsAdd(less, txs[k]);
    }
  }

  lemma OneMoreTaken(txs: seq<Tx>, remotes: Lookup)
    requires OnceEach(txs, remotes) && txs != []
    ensures var k := |txs| - 1;
      var less := MapSum.Restrict(remotes, SetOf(HashesOf(txs[..k])));
      && OnceEach(txs[..k], remotes) && txs[k].hash !in less
      && MapSum.Restrict(remotes, SetOf(HashesOf(txs))) == less[txs[k].hash := txs[k]]
  {
    var k := |txs| - 1;
    forall h ensures h in HashesOf(txs) <==> h in HashesOf(txs[..k]) || h == txs[k].hash {
      assert HashesOf(txs) == HashesOf(txs[..k]) + [txs[k].hash];
    }
    HashIn(txs[..k], txs[k].hash);
    hide HashesOf;
    assert txs[k] in txs;
  }

  /** A sequence of all remote transactions. */
  lemma {:induction false} AllOf(remotes: Lookup) returns (txs: seq<Tx>)
    requires Hashed(remotes)
    ensures OnceEach(txs, remotes) && forall h :: h in remotes ==> remotes[h] in txs
    decreases |remotes|
  {
    txs := [];
    if remotes.Keys != {} {
      var h :| h in remotes;
      OneLess(remotes, h);
      var less := AllOf(remotes - {h});
      DistinctMore(less, remotes[h]);
      txs := less + [remotes[h]];
      forall k | k in remotes ensures remotes[k] in txs {
        if k != h { assert k in remotes - {h} && remotes[k] in less; }
      }
    }
  }

  /** With every remote transaction in the heaps once, there are too few of them just when all together are too small. */
  lemma TooFewIs(entries: multiset<Tx>, slots: nat, remotes: Lookup)
    requires LiveOnce(entries, remotes) && Hashed(remotes)
    ensures TooFew(entries, slots, remotes) <==> MapSum.Sum(SlotsOf(remotes)) < slots
  {
    hide SlotsIn, SlotsOf, OnceEach;
    var all := AllOf(remotes);
    EachThere(entries, all, remotes);
    AllSlots(all, remotes);
    if TooFew(entries, slots, remotes) {
      var txs: seq<Tx> :| LiveSame(entries, multiset(txs), remotes) && AllLive(txs, remotes) && SlotsIn(txs) < slots;
      assert multiset{} + multiset(txs) == multiset(txs);
      TakenOnce(entries, multiset{}, txs, remotes);
      AllTaken(entries, txs, remotes);
      AllSlots(txs, remotes);
    }
  }

  lemma EachThere(entries: multiset<Tx>, txs: seq<Tx>, remotes: Lookup)
    requires LiveOnce(entries, remotes) && OnceEach(txs, remotes) && forall h :: h in remotes ==> remotes[h] in txs
    ensures LiveSame(entries, multiset(txs), remotes) && AllLive(txs, remotes)
  {
    forall x: Tx | x.hash in remotes ensures entries[x] == multiset(txs)[x] {
      CountInSeq(txs, x);
    }
  }

  lemma AllTaken(entries: multiset<Tx>, txs: seq<Tx>, remotes: Lookup)
    requires LiveOnce(entries, remotes) && LiveSame(entries, multiset(txs), remotes) && Hashed(remotes)
    ensures forall h :: h in remotes ==> remotes[h] in txs
  {
    forall h | h in remotes ensures remotes[h] in txs {
      assert multiset(txs)[remotes[h]] == 1;
      assert remotes[h] in multiset(txs);
    }
  }

  lemma AllSlots(txs: seq<Tx>, remotes: Lookup)
    requires OnceEach(txs, remotes) && Hashed(remotes) && forall h :: h in remotes ==> remotes[h] in txs
    ensures SlotsIn(txs) == MapSum.Sum(SlotsOf(remotes))
  {
    hide HashesOf, SlotsOf, SlotsIn;
    SlotsTaken(txs, remotes);
    forall h | h in remotes ensures h in HashesOf(txs) {
      HashIn(txs, h);
    }
    assert MapSum.Restrict(remotes, SetOf(HashesOf(txs))) == remotes;
  }

  /** Dropping remote transactions frees their slots in the whole lookup. */
  lemma RoomOf(locals: Lookup, remotes: Lookup, txs: seq<Tx>)
    requires OnceEach(txs, remotes) && locals.Keys !! remotes.Keys
    ensures MapSum.Sum(SlotsOf(MapSum.Restrict(locals + remotes, SetOf(HashesOf(txs))))) == SlotsIn(txs)
  {
    hide HashesOf, SlotsOf, SlotsIn;
    SlotsTaken(txs, remotes);
    forall h | h in HashesOf(txs) ensures h in remotes && h !in locals {
      HashIn(txs, h);
    }
    assert MapSum.Restrict(locals + remotes, SetOf(HashesOf(txs))) == MapSum.Restrict(remotes, SetOf(HashesOf(txs)));
  }

  /** What a full pool asks its price list for. */
  method AskPrices(pool: TxPool, priced: PricedList, tx: Tx, isLocal: bool)
    returns (underpriced: bool, drop: seq<Tx>, success: bool)
    requires priced.Valid() && priced.all == pool.all && pool.Settled() && pool.Full(tx)
    requires LiveOnce(priced.Entries(), pool.all.remotes)
    modifies priced`urgent, priced`floating, priced`stales
    ensures priced.Valid() && OnceEach(drop, pool.all.remotes)
    ensures LiveSame(old(priced.Entries()), priced.Entries() + multiset(drop), pool.all.remotes)
    ensures underpriced || !success ==> drop == []
    ensures drop != [] ==> SlotsIn(drop[..|drop| - 1]) < pool.Missing(tx)
    ensures underpriced <==>
      !isLocal && NoBetter(old(priced.urgent), old(priced.floating), priced.baseFee, pool.all.remotes, tx)
    ensures !underpriced ==> (success <==> isLocal || MapSum.Sum(SlotsOf(pool.all.remotes)) >= pool.Missing(tx))
    ensures !underpriced && success ==>
      SlotsIn(drop) >= pool.Missing(tx) || (isLocal && forall h :: h in pool.all.remotes ==> h in HashesOf(drop))
  {
    hide NoBetter, LiveOnce, OnceEach, TxPool.Settled, TxPool.Full, SlotsIn, HashesOf, SlotsOf, PricedList.Valid,
      TxPool.Missing, LiveSame;
    underpriced, drop, success := false, [], false;
    ghost var before, remotes := priced.Entries(), pool.all.remotes;
    NothingOnce(remotes);
    RemotesHashed(pool);
    NothingOut(before, remotes);
    if !isLocal {
      underpriced := priced.Underpriced(tx);
      SameOnce(before, priced.Entries(), remotes);
      NothingOut(priced.Entries(), remotes);
      LiveTwice(before, priced.Entries(), priced.Entries() + multiset([]), remotes);
    }
    ghost var mid := priced.Entries();
    if !underpriced {
      drop, success := TakeCheapest(priced, pool.Missing(tx), isLocal);
      LiveTwice(before, mid, priced.Entries() + multiset(drop), remotes);
    }
  }

  method TakeCheapest(priced: PricedList, slots: nat, force: bool) returns (drop: seq<Tx>, success: bool)
    requires priced.Valid() && LiveOnce(priced.Entries(), priced.all.remotes) && Hashed(priced.all.remotes)
    modifies priced`urgent, priced`floating, priced`stales
    ensures priced.Valid() && OnceEach(drop, priced.all.remotes)
    ensures LiveSame(old(priced.Entries()), priced.Entries() + multiset(drop), priced.all.remotes)
    ensures !success ==> drop == []
    ensures drop != [] ==> SlotsIn(drop[..|drop| - 1]) < slots
    ensures success <==> force || MapSum.Sum(SlotsOf(priced.all.remotes)) >= slots
    ensures success ==> SlotsIn(drop) >= slots || (force && forall h :: h in priced.all.remotes ==> h in HashesOf(drop))
  {
    hide LiveOnce, LiveSame, OnceEach, TooFew, SlotsIn, HashesOf, SlotsOf, PricedList.Valid, PricedList.Drift, CheapestFirst,
      Hashed;
    ghost var before, remotes := priced.Entries(), priced.all.remotes;
    ghost var turns;
    drop, success, turns := priced.Discard(slots, force);
    TakenOnce(before, priced.Entries(), drop, remotes) by { TakenLive(drop, remotes); }
    TooFewIs(before, slots, remotes);
    if priced.Entries() == multiset{} { EmptiedOut(before, drop, remotes); }
  }

  lemma TakenLive(drop: seq<Tx>, remotes: Lookup)
    requires forall x :: x in drop ==> x.hash in remotes
    ensures AllLive(drop, remotes)
  {
  }

  lemma NothingOnce(remotes: Lookup)
    ensures OnceEach([], remotes)
  {
  }

  lemma NothingOut(entries: multiset<Tx>, remotes: Lookup)
    ensures LiveSame(entries, entries + multiset([]), remotes) && LiveSame(entries, entries, remotes)
  {
    assert entries + multiset([]) == entries;
  }

  lemma SameOnce(entries: multiset<Tx>, now: multiset<Tx>, remotes: Lookup)
    requires LiveOnce(entries, remotes) && LiveSame(entries, now, remotes)
    ensures LiveOnce(now, remotes)
  {
  }

  /** Nothing is left in the heaps: all remote transactions have been taken. */
  lemma EmptiedOut(entries: multiset<Tx>, drop: seq<Tx>, remotes: Lookup)
    requires LiveOnce(entries, remotes) && LiveSame(entries, multiset{} + multiset(drop), remotes) && Hashed(remotes)
    ensures forall h :: h in remotes ==> h in HashesOf(drop)
  {
    assert multiset{} + multiset(drop) == multiset(drop);
    AllTaken(entries, drop, remotes);
    forall h | h in remotes ensures h in HashesOf(drop) {
      HashIn(drop, h);
    }
  }

  lemma RemotesHashed(pool: TxPool)
    requires pool.Settled()
    ensures Hashed(pool.all.remotes) && pool.all.locals.Keys !! pool.all.remotes.Keys
    ensures pool.all.slots == MapSum.Sum(SlotsOf(pool.all.All()))
  {
    forall h | h in pool.all.remotes ensures pool.all.remotes[h].hash == h {
      assert pool.all.All()[h] == pool.all.remotes[h];
    }
  }

  /** Adds a transaction with the price list's own answers. A remote transaction is refused as underpriced just when there
      are remote transactions and none is cheaper, and for lack of room just when all of them together are too small. If it is
      accepted, the pool is within its capacity afterwards; a local one may exceed it, but then no remote one is left. Only
      remote transactions make room, and no more of them than it takes. */
  method AddPriced(pool: TxPool, priced: PricedList, tx: Tx, local: bool, valid: bool, now: nat)
    returns (r: AddResult, drop: seq<Tx>, ghost made: Counts)
    requires pool.Settled() && priced.Valid() && priced.all == pool.all
    requires LiveOnce(priced.Entries(), pool.all.remotes)
    modifies pool`pending, pool`queue, pool`beats, pool`pendingNonces, pool`locals, pool`owned, pool`floating, pool.all
    modifies priced`urgent, priced`floating, priced`stales
    ensures pool.Settled() && priced.Valid()
    ensures r == AlreadyKnown <==> tx.hash in old(pool.all.All())
    ensures r == Invalid <==> tx.hash !in old(pool.all.All()) && !valid
    ensures OnceEach(drop, old(pool.all.remotes))
    ensures LiveSame(old(priced.Entries()), priced.Entries() + multiset(drop), old(pool.all.remotes))
    ensures !r.Added? && r != ReplaceUnderpriced ==> drop == [] && pool.Now() == old(pool.Now()) && made == old(pool.beats)
    ensures BeatsRemoved(old(pool.all.All()), old(pool.beats), old(pool.Room(tx, HashesOf(drop))), now, made)
    ensures pool.beats == if r.Added? then BeatsAdded(made, tx, Holds(pool.pending, tx), now) else made
    ensures drop != [] ==>
      SlotsIn(drop[..|drop| - 1]) + pool.config.globalSlots + pool.config.globalQueue < old(pool.all.slots) + tx.slots
    ensures r.Added? ==>
      pool.all.All() == Others(old(pool.all.All()) - old(pool.Room(tx, HashesOf(drop))), tx)[tx.hash := tx]
    ensures OwnedAfter(old(pool.owned), tx, local || tx.sender in old(pool.locals), r.Added?, pool.locals - old(pool.locals),
      pool.all.All(), pool.owned)
    ensures r == Underpriced <==>
      && old(pool.Crowded(tx, local, valid))
      && NoBetter(old(priced.urgent), old(priced.floating), priced.baseFee, old(pool.all.remotes), tx)
    ensures r == Overflow <==>
      && old(pool.Crowded(tx, local, valid)) && r != Underpriced
      && MapSum.Sum(SlotsOf(old(pool.all.remotes))) + pool.config.globalSlots + pool.config.globalQueue
         < old(pool.all.slots) + tx.slots
    ensures r.Added? && !local && tx.sender !in old(pool.locals) ==>
      pool.all.slots <= pool.config.globalSlots + pool.config.globalQueue
    ensures r.Added? ==>
      || pool.all.slots <= pool.config.globalSlots + pool.config.globalQueue
      || forall h :: h in old(pool.all.remotes) ==> h !in pool.all.All()
  {
    hide NoBetter, LiveOnce, OnceEach, TxPool.Settled, SlotsIn, HashesOf, SlotsOf, PricedList.Valid, TxLookup.All,
      TxLookup.Sides, TxPool.Valid, Others, OwnedAfter, BeatsRemoved, BeatsAdded, Holds, LiveSame;
    var underpriced, success := false, true;
    drop := [];
    NothingOnce(pool.all.remotes);
    NothingOut(priced.Entries(), pool.all.remotes);
    if tx.hash !in pool.all.All() && valid && pool.Full(tx) {
      underpriced, drop, success := AskPrices(pool, priced, tx, local || tx.sender in pool.locals);
    }
    r, made := AddAnswered(pool, tx, local, valid, underpriced, drop, success, now);
  }

  /** The addition itself, with the answers. */
  method AddAnswered(pool: TxPool, tx: Tx, local: bool, valid: bool, underpriced: bool, drop: seq<Tx>, success: bool, now: nat)
    returns (r: AddResult, ghost made: Counts)
    requires pool.Settled() && OnceEach(drop, pool.all.remotes)
    modifies pool`pending, pool`queue, pool`beats, pool`pendingNonces, pool`locals, pool`owned, pool`floating, pool.all
    ensures pool.Settled()
    ensures r == AlreadyKnown <==> tx.hash in old(pool.all.All())
    ensures r == Invalid <==> tx.hash !in old(pool.all.All()) && !valid
    ensures r == Underpriced <==> old(pool.Crowded(tx, local, valid)) && underpriced
    ensures r == Overflow <==> old(pool.Crowded(tx, local, valid)) && !underpriced && !success
    ensures !r.Added? && r != ReplaceUnderpriced ==> pool.Now() == old(pool.Now()) && made == old(pool.beats)
    ensures BeatsRemoved(old(pool.all.All()), old(pool.beats), old(pool.Room(tx, HashesOf(drop))), now, made)
    ensures pool.beats == if r.Added? then BeatsAdded(made, tx, Holds(pool.pending, tx), now) else made
    ensures r.Added? ==>
      pool.all.All() == Others(old(pool.all.All()) - old(pool.Room(tx, HashesOf(drop))), tx)[tx.hash := tx]
    ensures OwnedAfter(old(pool.owned), tx, local || tx.sender in old(pool.locals), r.Added?, pool.locals - old(pool.locals),
      pool.all.All(), pool.owned)
    ensures r.Added? && SlotsIn(drop) >= old(pool.Missing(tx)) ==>
      pool.all.slots <= pool.config.globalSlots + pool.config.globalQueue
    ensures r.Added? && old(pool.Full(tx)) && (forall h :: h in old(pool.all.remotes) ==> h in HashesOf(drop)) ==>
      forall h :: h in old(pool.all.remotes) ==> h !in pool.all.All()
  {
    hide OnceEach, TxPool.Settled, SlotsIn, HashesOf, AddedTo, SlotsOf, TxLookup.All, TxLookup.Sides, TxPool.Valid, Refused,
      SetOf, Others, OwnedAfter, BeatsRemoved, BeatsAdded, Holds;
    ghost var all, remotes, room, was := pool.all.All(), pool.all.remotes, pool.Room(tx, HashesOf(drop)), pool.Now();
    RoomFor(pool, tx, drop);
    r, made := pool.Add(tx, local, valid, underpriced, HashesOf(drop), success, now);
    if r.Added? {
      AddedIs(was.(all := all - room), tx, r, pool.Now());
      Afterwards(pool, tx, all, room, remotes);
    }
  }

  lemma AddedIs(was: Pool, tx: Tx, r: AddResult, now: Pool)
    requires AddedTo(was, tx, r, now) && r.Added?
    ensures now.all == Others(was.all, tx)[tx.hash := tx]
  {
    hide Others;
  }

  /** How the room made compares with what is missing. */
  lemma RoomFor(pool: TxPool, tx: Tx, drop: seq<Tx>)
    requires pool.Settled() && OnceEach(drop, pool.all.remotes)
    ensures var room := pool.Room(tx, HashesOf(drop));
      && (SlotsIn(drop) >= pool.Missing(tx) ==>
            MapSum.Sum(SlotsOf(MapSum.Restrict(pool.all.All(), room)))
            >= MapSum.Sum(SlotsOf(pool.all.All())) + tx.slots - pool.config.globalSlots - pool.config.globalQueue)
      && (pool.Full(tx) ==> forall h :: h in HashesOf(drop) ==> h in room)
    ensures !pool.Full(tx) ==> pool.Missing(tx) == 0
    ensures forall h :: h in pool.all.remotes ==> h in pool.all.All()
  {
    hide OnceEach, SlotsIn, HashesOf, SlotsOf, TxPool.Settled;
    RemotesHashed(pool);
    RoomOf(pool.all.locals, pool.all.remotes, drop);
  }

  /** After an addition either the capacity is met or no remote transaction is left. */
  lemma Afterwards(pool: TxPool, tx: Tx, all: Lookup, room: set<nat>, remotes: Lookup)
    requires pool.Settled() && pool.all.All() == Others(all - room, tx)[tx.hash := tx] && tx.hash !in remotes
    ensures MapSum.Sum(SlotsOf(MapSum.Restrict(all, room)))
      >= MapSum.Sum(SlotsOf(all)) + tx.slots - pool.config.globalSlots - pool.config.globalQueue
      ==> pool.all.slots <= pool.config.globalSlots + pool.config.globalQueue
    ensures (forall h :: h in remotes ==> h in room) ==> forall h :: h in remotes ==> h !in pool.all.All()
  {
    hide SlotsOf, TxPool.Settled;
    RemotesHashed(pool);
    hide MapSum.Restrict;
    var capacity := pool.config.globalSlots + pool.config.globalQueue;
    if MapSum.Sum(SlotsOf(MapSum.Restrict(all, room))) >= MapSum.Sum(SlotsOf(all)) + tx.slots - capacity {
      CapacityKept(all, room, tx, capacity);
    }
  }
}
