/** The locked operations of the transaction pool (evmcore/tx_pool.go). Within an operation, transactions taken out
    of a list and not yet settled or dropped are on their way; between operations there are none. */
module TxPoolOps {
  import opened Collections
  import opened TxLists
  import opened PoolState
  import opened PoolSteps
  import opened TxLookups
  import opened PoolLimits
  import opened PoolRuns
  import opened PoolBeats
  import MapSum

  class TxPool {
    const config: Config
    const all: TxLookup
    var chain: Chain
    var pending: Lists
    var queue: Lists
    var locals: set<nat>
    var pendingNonces: map<nat, nat>
    var beats: map<nat, nat>
    ghost var floating: set<Tx>
    /** The transactions that are held as local ones, as long as they are known. */
    ghost var owned: set<nat>

    ghost function Now(): Pool
      reads this`pending, this`queue, this`floating, all
    {
      Pool(pending, queue, all.All(), floating)
    }

    ghost predicate Valid()
      reads this`pending, this`queue, this`floating, this`beats, this`locals, this`owned, all
    {
      all.Valid() && Ok(Now()) && queue.Keys <= beats.Keys && all.Sides(locals, owned)
    }

    /** Nothing is on its way: the lookup is exactly what the lists hold. */
    ghost predicate Settled()
      reads this`pending, this`queue, this`floating, this`beats, this`locals, this`owned, all
    {
      Valid() && floating == {}
    }

    constructor (config: Config, chain: Chain, locals: set<nat>)
      ensures Settled() && fresh(all) && pending == map[] && queue == map[] && pendingNonces == map[] && beats == map[]
      ensures this.config == config && this.chain == chain && this.locals == locals && all.All() == map[]
    {
      this.config, this.chain, this.locals := config, chain, locals;
      all := new TxLookup();
      pending, queue, pendingNonces, beats, floating, owned := map[], map[], map[], map[], {}, {};
    }

    function PendingNonce(a: nat): nat
      reads this`pendingNonces, this`chain
    {
      NonceIn(pendingNonces, chain, a)
    }

    method SetIfLower(a: nat, nonce: nat)
      modifies this`pendingNonces
      ensures PendingNonce(a) == if old(PendingNonce(a)) <= nonce then old(PendingNonce(a)) else nonce
      ensures forall b :: b != a ==> PendingNonce(b) == old(PendingNonce(b))
    {
      if PendingNonce(a) > nonce {
        pendingNonces := pendingNonces[a := nonce];
      }
    }

    method DropTx(tx: Tx)
      requires Valid() && tx in floating
      modifies this`floating, all
      ensures Valid() && Now() == old(Now()).(all := old(all.All()) - {tx.hash}, floating := old(floating) - {tx})
    {
      hide Ok, TxLookup.Valid, TxLookup.All;
      DropOk(Now(), tx);
      all.Remove(tx.hash);
      floating := floating - {tx};
    }

    /** Drops the transactions taken out of a list. */
    method DropItems(items: Items)
      requires Valid() && ItemsOk(items) && Values(items) <= floating
      modifies this`floating, all
      ensures Valid() && Now() == Dropped(old(Now()), items)
    {
      hide Valid, TxLookup.All, Values, Hashes, ItemsOk;
      var todo := items;
      ghost var done: Items := map[];
      NoItems();
      assert all.All() - {} == all.All();
      while todo.Keys != {}
        invariant Parted(items, done, todo)
        invariant Valid() && Values(todo) <= floating
        invariant floating == old(floating) - Values(done) && all.All() == old(all.All()) - Hashes(done)
        decreases todo.Keys
      {
        var n :| n in todo;
        var tx := todo[n];
        NextItem(items, done, todo, n);
        ghost var was := all.All();
        DropTx(tx);
        assert was - {tx.hash} == old(all.All()) - (Hashes(done) + {tx.hash});
        done := done[n := tx];
        todo := todo - {n};
      }
      assert done == items by { PartedDone(items, done, todo); }
    }

    /** The replaced transaction leaves the lookup, and a new one enters it. */
    method UpdateLookup(l: TxList, tx: Tx, local: bool, addAll: bool)
      requires all.Valid() && tx.hash !in Hashes(Replaced(l, tx))
      requires if addAll then tx.hash !in all.All() else Known(all.All(), tx)
      requires all.Sides(locals, owned)
      requires addAll ==> if local then tx.hash in owned else tx.hash !in owned && tx.sender !in locals
      modifies all
      ensures all.Sides(locals, owned)
      ensures all.Valid() && all.All() == old(all.All())[tx.hash := tx] - Hashes(Replaced(l, tx))
    {
      hide TxLookup.Valid, TxLookup.All, TxLookup.Sides, Replaced, Hashes;
      if Replaced(l, tx) != map[] {
        ReplacedHash(l, tx);
        all.Remove(l.items[tx.nonce].hash);
      } else {
        NothingReplaced(l, tx, all.All());
      }
      ghost var mid := all.All();
      if addAll {
        all.Add(tx, local);
      }
      KnownAfter(old(all.All()), all.All(), old(all.All())[tx.hash := tx], Hashes(Replaced(l, tx)), tx, addAll);
    }

    /** Stores the list an accepted transaction has been added to. */
    method StoreQueued(l: TxList, tx: Tx, local: bool, addAll: bool, now: nat)
      requires all.Valid() && queue.Keys <= beats.Keys && tx.hash !in Hashes(Replaced(l, tx))
      requires if addAll then tx.hash !in all.All() else Known(all.All(), tx)
      requires all.Sides(locals, owned)
      requires addAll ==> if local then tx.hash in owned else tx.hash !in owned && tx.sender !in locals
      modifies this`queue, this`beats, this`floating, all
      ensures all.Valid() && queue.Keys <= beats.Keys && all.Sides(locals, owned)
      ensures Now() == Pool(pending, old(queue)[tx.sender := TxLists.Add(l, tx, config.priceBump)],
                            old(all.All())[tx.hash := tx] - Hashes(Replaced(l, tx)), old(floating) - {tx})
      ensures beats == if tx.sender in old(beats) then old(beats) else old(beats)[tx.sender := now]
    {
      hide TxLookup.Valid, TxLookup.All, Replaced, Hashes, TxLists.Add;
      UpdateLookup(l, tx, local, addAll);
      queue := queue[tx.sender := TxLists.Add(l, tx, config.priceBump)];
      floating := floating - {tx};
      if tx.sender !in beats {
        beats := beats[tx.sender := now];
      }
    }

    /** Puts a transaction into its account's queue unless a better one with its nonce is there. A transaction moved
        within the pool (`addAll` false) is known already. */
    method EnqueueTx(tx: Tx, local: bool, addAll: bool, now: nat) returns (inserted: bool, replaced: bool)
      requires Valid() && Free(pending, tx)
      requires if addAll then tx.hash !in all.All() && tx !in floating else tx in floating
      requires addAll ==> if local then tx.hash in owned else tx.hash !in owned && tx.sender !in locals
      modifies this`queue, this`beats, this`floating, all
      ensures Valid() && Now() == Enqueue(old(Now()), tx, config.priceBump)
      ensures inserted == Accepts(ListOf(old(queue), tx.sender, false), tx, config.priceBump)
      ensures replaced == (inserted && !Free(old(queue), tx))
      ensures beats == if !inserted || tx.sender in old(beats) then old(beats) else old(beats)[tx.sender := now]
    {
      hide Ok, TxLookup.Valid, TxLookup.All, TxLookup.Sides, Replaced, Hashes, TxLists.Add, Accepts, Free, ListOf;
      var l := ListOf(queue, tx.sender, false);
      inserted := Accepts(l, tx, config.priceBump);
      replaced := inserted && !Free(queue, tx);
      if inserted {
        EnqueueOk(Now(), tx, config.priceBump);
        StoreQueued(l, tx, local, addAll, now);
      }
    }

    /** Stores the list an accepted transaction has been added to. */
    method StorePending(l: TxList, tx: Tx, local: bool, addAll: bool, now: nat)
      requires all.Valid() && queue.Keys <= beats.Keys && tx.hash !in Hashes(Replaced(l, tx))
      requires if addAll then tx.hash !in all.All() else Known(all.All(), tx)
      requires all.Sides(locals, owned)
      requires addAll ==> if local then tx.hash in owned else tx.hash !in owned && tx.sender !in locals
      modifies this`pending, this`beats, this`floating, all
      ensures all.Valid() && queue.Keys <= beats.Keys && all.Sides(locals, owned)
      ensures Now() == Pool(old(pending)[tx.sender := TxLists.Add(l, tx, config.priceBump)], queue,
                            old(all.All())[tx.hash := tx] - Hashes(Replaced(l, tx)), old(floating) - {tx})
      ensures beats == old(beats)[tx.sender := now]
    {
      hide TxLookup.Valid, TxLookup.All, Replaced, Hashes, TxLists.Add;
      UpdateLookup(l, tx, local, addAll);
      pending := pending[tx.sender := TxLists.Add(l, tx, config.priceBump)];
      floating := floating - {tx};
      beats := beats[tx.sender := now];
    }

    /** Puts a transaction on its way into its account's pending list unless a better one with its nonce is there. */
    method PromoteTx(tx: Tx, now: nat) returns (promoted: bool)
      requires Valid() && Free(queue, tx) && tx in floating
      modifies this`pending, this`beats, this`pendingNonces, this`floating, all
      ensures Valid() && Now() == Promote(old(Now()), tx, config.priceBump)
      ensures promoted == Accepts(ListOf(old(pending), tx.sender, true), tx, config.priceBump)
      ensures pendingNonces == if promoted then old(pendingNonces)[tx.sender := tx.nonce + 1] else old(pendingNonces)
      ensures beats == if promoted then old(beats)[tx.sender := now] else old(beats)
    {
      hide Ok, TxLookup.Valid, TxLookup.All, TxLookup.Sides, Replaced, Hashes, TxLists.Add, Accepts, Free, ListOf;
      var l := ListOf(pending, tx.sender, true);
      promoted := Accepts(l, tx, config.priceBump);
      if promoted {
        PromoteOk(Now(), tx, config.priceBump);
        StorePending(l, tx, false, false, now);
        pendingNonces := pendingNonces[tx.sender := tx.nonce + 1];
      } else {
        DropTx(tx);
      }
    }

    /** Moves transactions on their way into their account's queue. */
    method EnqueueAll(a: nat, items: Items, now: nat)
      requires Valid() && AllMovable(Now(), a, items)
      modifies this`queue, this`beats, this`floating, all
      ensures Valid() && all.All() == old(all.All()) && floating == old(floating) - Values(items)
      ensures Grown(old(queue), a, items, false, queue)
      ensures beats == if items == map[] || a in old(beats) then old(beats) else old(beats)[a := now]
    {
      hide Valid, TxLookup.All, Values, AllMovable, Grown;
      var todo := items;
      ghost var done: Items := map[];
      MovableItems(Now(), a, items);
      GrownNone(queue, a, false);
      NoItems();
      while todo.Keys != {}
        invariant Parted(items, done, todo) && Grown(old(queue), a, done, false, queue)
        invariant Valid() && all.All() == old(all.All()) && AllMovable(Now(), a, todo)
        invariant floating == old(floating) - Values(done)
        invariant beats == if done == map[] || a in old(beats) then old(beats) else old(beats)[a := now]
        decreases todo.Keys
      {
        var n :| n in todo;
        NextItem(items, done, todo, n);
        EnqueueOne(a, todo, n, now, old(queue), done);
        done := done[n := items[n]];
        todo := todo - {n};
      }
      PartedDone(items, done, todo);
    }

    method EnqueueOne(a: nat, todo: Items, n: nat, now: nat, ghost was: Lists, ghost done: Items)
      requires Valid() && AllMovable(Now(), a, todo) && n in todo && n !in done && Grown(was, a, done, false, queue)
      modifies this`queue, this`beats, this`floating, all
      ensures Valid() && AllMovable(Now(), a, todo - {n}) && Grown(was, a, done[n := todo[n]], false, queue)
      ensures all.All() == old(all.All()) && floating == old(floating) - {todo[n]}
      ensures beats == if a in old(beats) then old(beats) else old(beats)[a := now]
    {
      MovableOne(Now(), a, todo, n);
      EnqueueFree(Now(), a, todo, n, config.priceBump);
      assert todo[n] in floating && Free(pending, todo[n]);
      hide Valid, TxLookup.All, AllMovable, Enqueue, Accepts, Free, Replaced;
      var _, _ := EnqueueTx(todo[n], false, false, now);
      GrownOne(was, a, done, n, todo[n], false, old(queue), queue);
    }

    /** Moves transactions on their way into their account's pending list, by nonce. */
    method PromoteAll(a: nat, items: Items, now: nat)
      requires Valid() && AllMovable(Now(), a, items)
      modifies this`pending, this`beats, this`pendingNonces, this`floating, all
      ensures Valid() && all.All() == old(all.All()) && floating == old(floating) - Values(items)
      ensures Grown(old(pending), a, items, true, pending)
      ensures Advanced(old(PendingNonce(a)), items, PendingNonce(a))
      ensures forall b :: b != a ==> PendingNonce(b) == old(PendingNonce(b))
      ensures beats == if items == map[] then old(beats) else old(beats)[a := now]
    {
      hide Valid, TxLookup.All, Values, AllMovable, Grown, Advanced, Lowest, Parted, AllBelow, PendingNonce, ItemsOk;
      var todo := items;
      ghost var done: Items := map[];
      PartedStart(items);
      MovableItems(Now(), a, items);
      GrownNone(pending, a, true);
      NoItems();
      assert Advanced(PendingNonce(a), done, PendingNonce(a)) by { AdvancedNone(PendingNonce(a)); }
      while todo.Keys != {}
        invariant Parted(items, done, todo) && Grown(old(pending), a, done, true, pending)
        invariant Valid() && all.All() == old(all.All()) && AllMovable(Now(), a, todo)
        invariant floating == old(floating) - Values(done)
        invariant Advanced(old(PendingNonce(a)), done, PendingNonce(a)) && AllBelow(done, todo)
        invariant forall b :: b != a ==> PendingNonce(b) == old(PendingNonce(b))
        invariant beats == if done == map[] then old(beats) else old(beats)[a := now]
        decreases todo.Keys
      {
        var n := LowestNonce(todo);
        NextItem(items, done, todo, n);
        AdvancedOne(old(PendingNonce(a)), done, todo, n, PendingNonce(a));
        PromoteOne(a, todo, n, now, old(pending), done);
        done := done[n := items[n]];
        todo := todo - {n};
      }
      PartedDone(items, done, todo);
    }

    method PromoteOne(a: nat, todo: Items, n: nat, now: nat, ghost was: Lists, ghost done: Items)
      requires Valid() && AllMovable(Now(), a, todo) && n in todo && n !in done && Grown(was, a, done, true, pending)
      modifies this`pending, this`beats, this`pendingNonces, this`floating, all
      ensures Valid() && AllMovable(Now(), a, todo - {n}) && Grown(was, a, done[n := todo[n]], true, pending)
      ensures all.All() == old(all.All()) && floating == old(floating) - {todo[n]}
      ensures PendingNonce(a) == n + 1 && forall b :: b != a ==> PendingNonce(b) == old(PendingNonce(b))
      ensures beats == old(beats)[a := now]
    {
      hide Ok, TxLookup.Valid, TxLookup.Sides, TxLookup.All, AllMovable, Accepts, Free, Replaced, Grown;
      MovableOne(Now(), a, todo, n);
      PromoteFree(Now(), a, todo, n, config.priceBump);
      var _ := PromoteTx(todo[n], now);
      GrownOne(was, a, done, n, todo[n], true, old(pending), pending);
    }

    /** Takes transactions out of a queued list and drops them. */
    method DropQueued(a: nat, was: TxList, l: TxList, moved: Items)
      requires Valid() && IsListOf(queue, a, was) && !was.strict && TakenOut(was, l, moved)
      modifies this`queue, this`floating, all
      ensures Valid() && IsListOf(queue, a, l) && queue - {a} == old(queue) - {a} && floating == old(floating)
      ensures all.All() == old(all.All()) - Hashes(moved)
    {
      hide Ok, TxLookup.Valid, TxLookup.All, TxLookup.Sides, TakenOut, Values, Hashes, AllMovable, Store, IsListOf;
      TakeQueued(a, was, l, moved);
      MovableItems(Now(), a, moved);
      DropItems(moved);
      assert old(floating) + Values(moved) - Values(moved) == old(floating);
    }

    method TakeQueued(a: nat, was: TxList, l: TxList, moved: Items)
      requires Valid() && IsListOf(queue, a, was) && !was.strict && TakenOut(was, l, moved)
      modifies this`queue, this`floating
      ensures Valid() && IsListOf(queue, a, l) && queue - {a} == old(queue) - {a}
      ensures floating == old(floating) + Values(moved) && Values(moved) !! old(floating) && AllMovable(Now(), a, moved)
    {
      hide Ok, TxLookup.Valid, TxLookup.All, TxLookup.Sides, TakenOut, Values, Hashes, AllMovable, Store, IsListOf;
      TakeQueuedOk(Now(), a, was, l, moved);
      StoreOther(queue, a, l);
      QueuedKeys(queue, a, was, l, moved);
      queue := Store(queue, a, l);
      floating := floating + Values(moved);
    }

    /** Drops what is too old or costs too much from a queued list. */
    method CleanQueued(a: nat) returns (l: TxList, dropped: Items)
      requires Settled() && a in queue
      modifies this`queue, this`floating, all
      ensures Settled() && IsListOf(queue, a, l) && queue - {a} == old(queue) - {a}
      ensures l == Payable(old(queue)[a], Get(chain.nonces, a), Get(chain.balances, a), chain.maxGas)
      ensures TakenOut(old(queue)[a], l, dropped) && all.All() == old(all.All()) - Hashes(dropped)
      ensures !l.strict && CapsOk(l)
    {
      hide Valid, TxLookup.All, TakenOut, Hashes, IsListOf, Forward, Below, Filtered, CapsOk;
      var was := queue[a];
      QueuedList(a);
      var nonce := Get(chain.nonces, a);
      var olds, l1 := Below(was.items, nonce), Forward(was, nonce);
      ForwardTakes(was, nonce);
      DropQueued(a, was, l1, olds);
      FilterTakes(l1, Get(chain.balances, a), chain.maxGas);
      var removed, _, l2 := Filter(l1, Get(chain.balances, a), chain.maxGas);
      DropQueued(a, l1, l2, removed);
      TakenTwice(was, l1, l2, olds, removed);
      HashesUnion(old(all.All()), olds, removed);
      l, dropped := l2, olds + removed;
    }

    /** Promotes what is ready in a queued list. */
    method PromoteReady(a: nat, l: TxList, now: nat) returns (rest: TxList, promoted: Items)
      requires Settled() && IsListOf(queue, a, l) && !l.strict && CapsOk(l)
      modifies this`pending, this`queue, this`beats, this`pendingNonces, this`floating, all
      ensures Settled() && IsListOf(queue, a, rest) && queue - {a} == old(queue) - {a} && CapsOk(rest)
      ensures promoted.Keys == ReadyNonces(l.items, old(PendingNonce(a))) && SubItems(promoted, l.items)
      ensures rest == l.(items := l.items - promoted.Keys) && all.All() == old(all.All())
      ensures Grown(old(pending), a, promoted, true, pending)
      ensures Advanced(old(PendingNonce(a)), promoted, PendingNonce(a))
      ensures forall b :: b != a ==> PendingNonce(b) == old(PendingNonce(b))
      ensures beats == if promoted == map[] then old(beats) else old(beats)[a := now]
    {
      hide Valid, TxLookup.All, TakenOut, IsListOf, CapsOk, ReadyNonces, Grown, Advanced, AllMovable, Values;
      promoted, rest := Ready(l, PendingNonce(a));
      RestTaken(l, rest, promoted);
      TakeQueued(a, l, rest, promoted);
      PromoteAll(a, promoted, now);
    }

    /** Drops the highest nonces beyond the limit from the queued list of an account that is not local. */
    method CapQueued(a: nat, l: TxList) returns (rest: TxList, dropped: Items)
      requires Settled() && IsListOf(queue, a, l) && !l.strict && CapsOk(l)
      modifies this`queue, this`floating, all
      ensures Settled() && IsListOf(queue, a, rest) && queue - {a} == old(queue) - {a}
      ensures if a in locals then rest == l else IsLowest(l.items, config.accountQueue, rest.items)
      ensures TakenOut(l, rest, dropped) && all.All() == old(all.All()) - Hashes(dropped)
    {
      hide Valid, TxLookup.All, TakenOut, IsListOf, CapsOk, IsLowest, Hashes;
      rest, dropped := l, map[];
      if a in locals {
        assert l.items - dropped.Keys == l.items;
        RestTaken(l, rest, dropped);
        NoItems();
        assert all.All() - {} == all.All();
      } else {
        dropped, rest := Cap(l, config.accountQueue);
        RestTaken(l, rest, dropped);
        DropQueued(a, l, rest, dropped);
      }
    }

    /** An account whose queue has become empty. */
    method ForgetBeat(a: nat, l: TxList)
      requires Settled() && IsListOf(queue, a, l) && l.items == map[]
      modifies this`beats
      ensures Settled() && beats == old(beats) - {a}
    {
      beats := beats - {a};
    }

    /** Moves what has become ready in an account's queue to its pending list, and drops what no longer belongs there. */
    method PromoteAccount(a: nat, now: nat) returns (promoted: Items, dropped: Items)
      requires Settled()
      modifies this`pending, this`queue, this`beats, this`pendingNonces, this`floating, all
      ensures Settled() && queue - {a} == old(queue) - {a} && all.All() == old(all.All()) - Hashes(dropped)
      ensures Grown(old(pending), a, promoted, true, pending)
      ensures Advanced(old(PendingNonce(a)), promoted, PendingNonce(a))
      ensures forall b :: b != a ==> PendingNonce(b) == old(PendingNonce(b))
      ensures if a !in old(queue) then Now() == old(Now()) && promoted == map[]
        else PromotedFrom(old(queue)[a], Payable(old(queue)[a], Get(chain.nonces, a), Get(chain.balances, a), chain.maxGas),
          old(PendingNonce(a)), if a in locals then None else Some(config.accountQueue),
          promoted, dropped, ListOf(queue, a, false).items)
      ensures beats ==
        if a !in old(queue) then old(beats) else if a !in queue then old(beats) - {a}
        else if promoted == map[] then old(beats) else old(beats)[a := now]
    {
      hide Valid, TxLookup.All, TakenOut, IsListOf, CapsOk, Grown, Advanced, Hashes, Payable, PromotedFrom, IsLowest;
      promoted, dropped := map[], map[];
      if a !in queue {
        NoItems();
        GrownNone(pending, a, true);
        AdvancedNone(PendingNonce(a));
        assert all.All() - {} == all.All();
        return;
      }
      QueuedList(a);
      var l1, drops := CleanQueued(a);
      var l2, readies := PromoteReady(a, l1, now);
      var l3, caps := CapQueued(a, l2);
      PromotionDone(old(queue)[a], l1, old(PendingNonce(a)), if a in locals then None else Some(config.accountQueue),
        l2, readies, drops, caps, queue, a, l3, old(all.All()));
      ListedWhen(a, l3);
      if l3.items == map[] {
        ForgetBeat(a, l3);
        assert beats == old(beats) - {a};
      }
      promoted, dropped := readies, drops + caps;
    }

    lemma ListedWhen(a: nat, l: TxList)
      requires Valid() && IsListOf(queue, a, l)
      ensures a in queue <==> l.items != map[]
    {
      if a in queue { assert ListOk(queue[a], a); }
    }

    lemma QueuedList(a: nat)
      requires Valid() && a in queue
      ensures IsListOf(queue, a, queue[a]) && !queue[a].strict && CapsOk(queue[a])
    {
      assert ListOk(queue[a], a);
    }

    method TakePending(a: nat, was: TxList, l: TxList, moved: Items)
      requires Valid() && IsListOf(pending, a, was) && was.strict && TakenOut(was, l, moved)
      modifies this`pending, this`floating
      ensures Valid() && IsListOf(pending, a, l) && pending - {a} == old(pending) - {a}
      ensures floating == old(floating) + Values(moved) && Values(moved) !! old(floating) && AllMovable(Now(), a, moved)
    {
      hide Ok, TxLookup.Valid, TxLookup.All, TxLookup.Sides, TakenOut, Values, Hashes, AllMovable, Store, IsListOf;
      TakePendingOk(Now(), a, was, l, moved);
      StoreOther(pending, a, l);
      pending := Store(pending, a, l);
      floating := floating + Values(moved);
    }

    /** Takes transactions out of a pending list and drops them. */
    method DropPending(a: nat, was: TxList, l: TxList, moved: Items)
      requires Settled() && IsListOf(pending, a, was) && was.strict && TakenOut(was, l, moved)
      modifies this`pending, this`floating, all
      ensures Settled() && IsListOf(pending, a, l) && pending - {a} == old(pending) - {a}
      ensures all.All() == old(all.All()) - Hashes(moved)
    {
      hide Valid, TxLookup.All, TakenOut, Values, Hashes, AllMovable, IsListOf;
      TakePending(a, was, l, moved);
      MovableItems(Now(), a, moved);
      DropItems(moved);
    }

    /** Takes transactions out of a pending list and puts them back into the queue. */
    method Requeue(a: nat, was: TxList, l: TxList, moved: Items, now: nat)
      requires Settled() && IsListOf(pending, a, was) && was.strict && TakenOut(was, l, moved)
      modifies this`pending, this`queue, this`beats, this`floating, all
      ensures Settled() && IsListOf(pending, a, l) && pending - {a} == old(pending) - {a}
      ensures all.All() == old(all.All()) && Grown(old(queue), a, moved, false, queue)
      ensures beats == if moved == map[] || a in old(beats) then old(beats) else old(beats)[a := now]
    {
      hide Valid, TxLookup.All, TakenOut, Values, Grown, AllMovable, IsListOf;
      TakePending(a, was, l, moved);
      EnqueueAll(a, moved, now);
    }

    lemma PendingList(a: nat)
      requires Valid() && a in pending
      ensures IsListOf(pending, a, pending[a]) && pending[a].strict && CapsOk(pending[a])
    {
      assert ListOk(pending[a], a);
    }

    /** Drops what is too old or costs too much from an account's pending list, and puts back into the queue what that
        strands. */
    method CleanPending(a: nat, now: nat) returns (l: TxList)
      requires Settled() && a in pending
      modifies this`pending, this`queue, this`beats, this`floating, all
      ensures Settled() && pending - {a} == old(pending) - {a} && IsListOf(pending, a, l)
      ensures var was := old(pending)[a];
        var (removed, invalids, rest) := Filtered(Forward(was, Get(chain.nonces, a)), Get(chain.balances, a), chain.maxGas);
        && l == rest && Grown(old(queue), a, invalids, false, queue) && CapsOk(l) && l.strict
        && all.All() == old(all.All()) - Hashes(Below(was.items, Get(chain.nonces, a))) - Hashes(removed)
        && beats == if invalids == map[] || a in old(beats) then old(beats) else old(beats)[a := now]
    {
      hide Valid, TxLookup.All, TakenOut, Hashes, IsListOf, Forward, Below, Filtered, CapsOk, Grown;
      var was, nonce := pending[a], Get(chain.nonces, a);
      PendingList(a);
      var l1 := Forward(was, nonce);
      ForwardTakes(was, nonce);
      DropPending(a, was, l1, Below(was.items, nonce));
      FilterParts(l1, Get(chain.balances, a), chain.maxGas);
      var removed, invalids, l2 := Filter(l1, Get(chain.balances, a), chain.maxGas);
      var mid := l1.(items := l1.items - removed.Keys);
      DropPending(a, l1, mid, removed);
      Requeue(a, mid, l2, invalids, now);
      l := l2;
    }

    /** A list that does not start at the account's nonce goes back into the queue. */
    method PostponeGapped(a: nat, l: TxList, nonce: nat, now: nat)
      requires Settled() && IsListOf(pending, a, l) && CapsOk(l) && l.strict
      modifies this`pending, this`queue, this`beats, this`floating, all
      ensures Settled() && pending - {a} == old(pending) - {a} && all.All() == old(all.All())
      ensures var gapped := if nonce in l.items then map[] else l.items;
        && Grown(old(queue), a, gapped, false, queue) && ListOf(pending, a, true).items == l.items - gapped.Keys
        && beats == if gapped == map[] || a in old(beats) then old(beats) else old(beats)[a := now]
    {
      hide Valid, TxLookup.All, TakenOut, Hashes, IsListOf, CapsOk, Grown, ListOf;
      if |l.items| > 0 && nonce !in l.items {
        var rest := l.(items := map[]);
        RestTaken(l, rest, l.items);
        Requeue(a, l, rest, l.items, now);
        ListIs(pending, a, rest);
      } else {
        GrownNone(queue, a, false);
        ListIs(pending, a, l);
      }
    }

    /** Drops what is too old or costs too much from an account's pending list, and puts back into the queue what that
        strands, or everything if the list no longer starts at the account's nonce. */
    method DemoteAccount(a: nat, now: nat)
      requires Settled() && a in pending
      modifies this`pending, this`queue, this`beats, this`floating, all
      ensures Settled() && pending - {a} == old(pending) - {a}
      ensures DemotedFrom(old(Now()), a, Get(chain.nonces, a), Get(chain.balances, a), chain.maxGas, Now())
      ensures BeatQueued(old(Now()), old(beats), a, now, Now(), beats)
      ensures forall b :: b != a ==> Beat(beats, b) == Beat(old(beats), b)
    {
      hide Valid, TxLookup.All, Hashes, IsListOf, Forward, Below, Filtered, CapsOk, Grown, DemotedFrom, ListOf, BeatQueued, Beat;
      ghost var was, times, l, nonce := Now(), beats, pending[a], Get(chain.nonces, a);
      ghost var (_, invalids, rest) := Filtered(Forward(l, nonce), Get(chain.balances, a), chain.maxGas);
      ghost var gapped := if nonce in rest.items then map[] else rest.items;
      SettledOk();
      PendingList(a);
      DemotionSub(l, nonce, Get(chain.balances, a), chain.maxGas);
      ghost var q1 := DemoteParts(a, now);
      DemotionDone(was, a, nonce, Get(chain.balances, a), chain.maxGas, gapped, q1, Now());
      QueuedBeat(was, times, a, now, invalids, gapped, q1, Now(), beats);
    }

    /** Both steps, with the queue in between. */
    method DemoteParts(a: nat, now: nat) returns (ghost q1: Lists)
      requires Settled() && a in pending
      modifies this`pending, this`queue, this`beats, this`floating, all
      ensures Settled() && pending - {a} == old(pending) - {a}
      ensures var was, nonce := old(pending)[a], Get(chain.nonces, a);
        var (removed, invalids, rest) := Filtered(Forward(was, nonce), Get(chain.balances, a), chain.maxGas);
        var gapped := if nonce in rest.items then map[] else rest.items;
        && all.All() == old(all.All()) - Hashes(Below(was.items, nonce)) - Hashes(removed)
        && Grown(old(queue), a, invalids, false, q1) && Grown(q1, a, gapped, false, queue)
        && ListOf(pending, a, true).items == rest.items - gapped.Keys
        && beats == if (invalids == map[] && gapped == map[]) || a in old(beats) then old(beats) else old(beats)[a := now]
    {
      hide Valid, TxLookup.All, Hashes, IsListOf, Forward, Below, Filtered, CapsOk, Grown, ListOf;
      var l := CleanPending(a, now);
      q1 := queue;
      PostponeGapped(a, l, Get(chain.nonces, a), now);
    }

    /** The account's next nonce is at most that of a dropped transaction. */
    method LowerNonces(a: nat, items: Items)
      modifies this`pendingNonces
      ensures forall n :: n in items ==> PendingNonce(a) <= n
      ensures PendingNonce(a) == old(PendingNonce(a)) || PendingNonce(a) in items
      ensures PendingNonce(a) <= old(PendingNonce(a))
      ensures forall b :: b != a ==> PendingNonce(b) == old(PendingNonce(b))
    {
      hide PendingNonce;
      var todo := items.Keys;
      while todo != {}
        invariant todo <= items.Keys && forall n :: n in items && n !in todo ==> PendingNonce(a) <= n
        invariant PendingNonce(a) == old(PendingNonce(a)) || PendingNonce(a) in items
        invariant PendingNonce(a) <= old(PendingNonce(a))
        invariant forall b :: b != a ==> PendingNonce(b) == old(PendingNonce(b))
        decreases todo
      {
        var n :| n in todo;
        SetIfLower(a, n);
        todo := todo - {n};
      }
    }

    /** Drops the highest nonce of a pending list. */
    method CutOne(a: nat)
      requires Settled() && a in pending && |pending[a].items| >= 2
      modifies this`pending, this`pendingNonces, this`floating, all
      ensures Settled() && pending.Keys == old(pending).Keys && pending - {a} == old(pending) - {a}
      ensures LowPart(pending[a].items, old(pending)[a].items) && |pending[a].items| == |old(pending)[a].items| - 1
      ensures NoncesCut(old(pending), old(pendingNonces), chain, pending, pendingNonces)
    {
      hide Valid, TxLookup.All, TakenOut, CapsOk, IsLowest, LowPart, NonceIn, NoncesCut;
      ghost var was, nonces := pending, pendingNonces;
      var l := pending[a];
      PendingList(a);
      var caps, rest := Cap(l, |l.items| - 1);
      CapKeeps(l, caps, rest);
      RestTaken(l, rest, caps);
      DropPending(a, l, rest, caps);
      LowerNonces(a, caps);
      KeysSame(old(pending), a, l, pending, rest);
      CapTaken(l, caps, rest);
      OtherNonces(a);
      NoncesCutOne(was, nonces, chain, a, caps, pending, pendingNonces);
    }

    twostate lemma OtherNonces(a: nat)
      requires chain == old(chain) && forall b :: b != a ==> PendingNonce(b) == old(PendingNonce(b))
      ensures forall b :: b != a ==> NonceIn(pendingNonces, chain, b) == NonceIn(old(pendingNonces), chain, b)
    {
      hide NonceIn;
      forall b | b != a ensures NonceIn(pendingNonces, chain, b) == NonceIn(old(pendingNonces), chain, b) {
        assert PendingNonce(b) == old(PendingNonce(b));
      }
    }

    /** Cuts one transaction from each of some accounts. */
    method CutRound(offenders: seq<nat>)
      requires Settled() && Distinct(offenders)
      requires forall a :: a in offenders ==> a in pending && |pending[a].items| >= 2
      modifies this`pending, this`pendingNonces, this`floating, all
      ensures Settled() && Trimmed(old(pending), pending)
      ensures Lens(pending) == Lowered(Lens(old(pending)), SetOf(offenders))
      ensures MapSum.Sum(Lens(pending)) == MapSum.Sum(Lens(old(pending))) - |offenders|
      ensures NoncesCut(old(pending), old(pendingNonces), chain, pending, pendingNonces)
    {
      hide Settled, Trimmed, SetOf, PendingNonce, NoncesCut, LowPart, Lens, Lowered, Distinct;
      TrimmedSelf(pending);
      NoncesCutNone(pending, pendingNonces, chain);
      assert offenders[..0] == [];
      LoweredNone(Lens(pending));
      for i := 0 to |offenders|
        invariant Settled() && Trimmed(old(pending), pending) && pending.Keys == old(pending).Keys
        invariant Lens(pending) == Lowered(Lens(old(pending)), SetOf(offenders[..i]))
        invariant MapSum.Sum(Lens(pending)) == MapSum.Sum(Lens(old(pending))) - i
        invariant NoncesCut(old(pending), old(pendingNonces), chain, pending, pendingNonces)
      {
        CutOffender(offenders, i, old(pending), old(pendingNonces));
      }
      assert offenders[..|offenders|] == offenders;
    }

    method CutOffender(offenders: seq<nat>, i: nat, ghost first: Lists, ghost before: map<nat, nat>)
      requires Settled() && i < |offenders| && Distinct(offenders)
      requires offenders[i] in first && |first[offenders[i]].items| >= 2
      requires Trimmed(first, pending) && pending.Keys == first.Keys
      requires Lens(pending) == Lowered(Lens(first), SetOf(offenders[..i]))
      requires NoncesCut(first, before, chain, pending, pendingNonces)
      modifies this`pending, this`pendingNonces, this`floating, all
      ensures Settled() && Trimmed(first, pending) && pending.Keys == first.Keys
      ensures Lens(pending) == Lowered(Lens(first), SetOf(offenders[..i + 1]))
      ensures MapSum.Sum(Lens(pending)) == MapSum.Sum(Lens(old(pending))) - 1
      ensures NoncesCut(first, before, chain, pending, pendingNonces)
    {
      hide Settled, Trimmed, SetOf, PendingNonce, NoncesCut, LowPart, Lens, Lowered, Distinct;
      var a := offenders[i];
      ghost var was, nonces := pending, pendingNonces;
      NotYet(offenders, i);
      LensAt(first, a);
      LensAt(pending, a);
      LoweredOne(Lens(first), SetOf(offenders[..i]), a);
      SetOfNext(offenders, i);
      CutOne(a);
      NoncesCutTwice(first, before, chain, was, nonces, pending, pendingNonces);
      TrimmedOne(first, was, a, pending);
      LensOne(was, a, pending);
    }

    /** The pending lists have been cut down to a level, and one level more would be above the limit. */
    ghost predicate Reached(was: Lists, level: nat, total: nat)
      reads this`pending, this`queue, this`floating, this`beats, this`locals, this`owned, all
    {
      && Settled() && Trimmed(was, pending) && Lens(pending) == AtLevel(Lens(was), locals, level)
      && total == MapSum.Sum(Lens(pending))
      && MapSum.Sum(AtLevel(Lens(was), locals, level + 1)) > config.globalSlots
    }

    /** One round of cuts. */
    method CutLevel(cut: seq<nat>, ghost was: Lists, ghost level: nat, total: nat) returns (left: nat)
      requires Reached(was, level, total) && total > config.globalSlots && level >= 2 && Distinct(cut)
      requires AtLevel(Lens(was), locals, level - 1) == Lowered(AtLevel(Lens(was), locals, level), SetOf(cut))
      requires forall a :: a in cut ==> a in Lens(was) && AtLevel(Lens(was), locals, level)[a] == level
      modifies this`pending, this`pendingNonces, this`floating, all
      ensures Reached(was, level - 1, left) && left == total - |cut|
      ensures NoncesCut(old(pending), old(pendingNonces), chain, pending, pendingNonces)
    {
      hide Settled, Trimmed, AtLevel, Lowered, Lens, PendingNonce, NoncesCut, Distinct;
      forall a | a in cut ensures a in pending && |pending[a].items| == level {
        LensKeys(pending, was, locals, level, a);
      }
      ghost var before := pending;
      CutRound(cut);
      TrimmedTwice(was, before, pending);
      left := total - |cut|;
    }

    /** Reduces all offenders but the last until they have no more than it, or the limit is met. */
    method Equalize(offenders: seq<nat>, ghost spammers: Counts, ghost was: Lists, ghost level: nat, total: nat)
      returns (left: nat, ghost reached: nat)
      requires Reached(was, level, total) && |offenders| > 1
      requires Split(Lens(was), locals, config.accountSlots, offenders, spammers)
      requires Leveled(Lens(was), offenders, spammers, level)
      modifies this`pending, this`pendingNonces, this`floating, all
      ensures Reached(was, reached, left) && Leveled(Lens(was), offenders, spammers, reached)
      ensures AtLast(was, offenders, reached, left)
      ensures NoncesCut(old(pending), old(pendingNonces), chain, pending, pendingNonces)
    {
      hide Reached, PendingNonce, NoncesCut, Split, Leveled;
      left, reached := total, level;
      NoncesCutNone(pending, pendingNonces, chain);
      LensOf(offenders, spammers, was, reached, left);
      var threshold := |pending[offenders[|offenders| - 1]].items|;
      while left > config.globalSlots && |pending[offenders[|offenders| - 2]].items| > threshold
        invariant Reached(was, reached, left) && Leveled(Lens(was), offenders, spammers, reached)
        invariant threshold == Lens(was)[offenders[|offenders| - 1]] <= reached
        invariant offenders[|offenders| - 2] in pending && |pending[offenders[|offenders| - 2]].items| == reached
        invariant NoncesCut(old(pending), old(pendingNonces), chain, pending, pendingNonces)
        decreases reached
      {
        RoundAbove(Lens(was), locals, config.accountSlots, offenders, spammers, reached);
        ghost var mid, nonces := pending, pendingNonces;
        left := CutLevel(Init(offenders), was, reached, left);
        NoncesCutTwice(old(pending), old(pendingNonces), chain, mid, nonces, pending, pendingNonces);
        reached := reached - 1;
        LensOf(offenders, spammers, was, reached, left);
      }
    }

    /** Where the lengths of the offenders' lists stand. */
    lemma LensOf(offenders: seq<nat>, spammers: Counts, was: Lists, level: nat, total: nat)
      requires Reached(was, level, total) && |offenders| > 1
      requires Split(Lens(was), locals, config.accountSlots, offenders, spammers)
      requires Leveled(Lens(was), offenders, spammers, level)
      ensures var last := offenders[|offenders| - 1];
        last in pending && last in Lens(was) && |pending[last].items| == Lens(was)[last] <= level
      ensures var other := offenders[|offenders| - 2]; other in pending && |pending[other].items| == level
    {
      hide Settled, Trimmed, AtLevel, Lens, Split, Leveled;
      LastTwo(Lens(was), locals, config.accountSlots, offenders, spammers, level);
      LensKeys(pending, was, locals, level, offenders[|offenders| - 1]);
      LensKeys(pending, was, locals, level, offenders[|offenders| - 2]);
    }

    /** Reduces all offenders until the limit is met or they have no more than the guaranteed slots. */
    method ReduceAll(offenders: seq<nat>, ghost was: Lists, ghost level: nat, total: nat)
      returns (left: nat, ghost reached: nat)
      requires config.accountSlots >= 1
      requires Reached(was, level, total) && level > config.accountSlots && offenders != []
      requires Split(Lens(was), locals, config.accountSlots, offenders, map[])
      requires forall a :: a in SetOf(offenders) ==> a in Lens(was) && Lens(was)[a] >= level
      modifies this`pending, this`pendingNonces, this`floating, all
      ensures Reached(was, reached, left) && reached >= config.accountSlots
      ensures left > config.globalSlots ==> reached == config.accountSlots
      ensures NoncesCut(old(pending), old(pendingNonces), chain, pending, pendingNonces)
    {
      hide Reached, PendingNonce, NoncesCut, Lens, AtLevel;
      left, reached := total, level;
      NoncesCutNone(pending, pendingNonces, chain);
      RoundAll(Lens(was), locals, config.accountSlots, offenders, reached);
      LastLen(offenders, was, reached, left);
      while left > config.globalSlots && |pending[offenders[|offenders| - 1]].items| > config.accountSlots
        invariant Reached(was, reached, left) && config.accountSlots <= reached <= level
        invariant offenders[|offenders| - 1] in pending && |pending[offenders[|offenders| - 1]].items| == reached
        invariant NoncesCut(old(pending), old(pendingNonces), chain, pending, pendingNonces)
        decreases reached
      {
        RoundAll(Lens(was), locals, config.accountSlots, offenders, reached);
        ghost var mid, nonces := pending, pendingNonces;
        left := CutLevel(offenders, was, reached, left);
        NoncesCutTwice(old(pending), old(pendingNonces), chain, mid, nonces, pending, pendingNonces);
        reached := reached - 1;
        LastLen(offenders, was, reached, left);
      }
    }

    lemma LastLen(offenders: seq<nat>, was: Lists, level: nat, total: nat)
      requires Reached(was, level, total) && offenders != []
      requires Split(Lens(was), locals, config.accountSlots, offenders, map[])
      requires forall a :: a in SetOf(offenders) ==> a in Lens(was) && Lens(was)[a] >= level
      ensures var last := offenders[|offenders| - 1]; last in pending && |pending[last].items| == level
    {
      hide Settled, Trimmed, Lens, Distinct;
      InitLast(offenders);
      LensKeys(pending, was, locals, level, offenders[|offenders| - 1]);
    }

    /** Makes the largest spammer the next offender, and evens the others out with it. */
    method NextOffender(offenders: seq<nat>, spammers: Counts, ghost was: Lists, ghost level: nat, total: nat)
      returns (more: seq<nat>, fewer: Counts, left: nat, ghost reached: nat)
      requires Reached(was, level, total) && total > config.globalSlots && spammers != map[]
      requires Split(Lens(was), locals, config.accountSlots, offenders, spammers)
      requires offenders == [] ==> pending == was
      requires offenders != [] ==> Leveled(Lens(was), offenders, spammers, level) && AtLast(was, offenders, level, total)
      modifies this`pending, this`pendingNonces, this`floating, all
      ensures Reached(was, reached, left) && |more| == |offenders| + 1 && fewer.Keys < spammers.Keys
      ensures Split(Lens(was), locals, config.accountSlots, more, fewer) && Leveled(Lens(was), more, fewer, reached)
      ensures AtLast(was, more, reached, left)
      ensures NoncesCut(old(pending), old(pendingNonces), chain, pending, pendingNonces)
    {
      hide Settled, Trimmed, AtLevel, PendingNonce, NoncesCut, Lens, Leveled, Distinct;
      left := total;
      NoncesCutNone(pending, pendingNonces, chain);
      var offender, rest := PopLargest(spammers);
      if offenders != [] { LensAt(was, offenders[|offenders| - 1]); }
      assert offender in Lens(was) && offender in was by { LensIn(was, offender); }
      LensAt(was, offender);
      more, fewer := offenders + [offender], rest;
      assert fewer.Keys == spammers.Keys - {offender};
      if |more| > 1 {
        NextLevel(Lens(was), locals, config.accountSlots, offenders, spammers, level, offender);
        left, reached := Equalize(more, fewer, was, level, left);
      } else {
        assert more == [offender] && offenders == [];
        FirstLevel(Lens(was), locals, config.accountSlots, spammers, offender);
        reached := Lens(was)[offender];
      }
    }

    /** After the offenders have been evened out. */
    method Finish(offenders: seq<nat>, ghost spammers: Counts, ghost was: Lists, ghost level: nat, total: nat)
      returns (ghost reached: nat)
      requires Reached(was, level, total) && config.accountSlots >= 1
      requires Split(Lens(was), locals, config.accountSlots, offenders, spammers)
      requires total <= config.globalSlots || spammers.Keys == {}
      requires offenders == [] ==> pending == was && total > config.globalSlots
      requires offenders != [] ==> Leveled(Lens(was), offenders, spammers, level) && AtLast(was, offenders, level, total)
      modifies this`pending, this`pendingNonces, this`floating, all
      ensures Settled() && Trimmed(was, pending)
      ensures Fair(Lens(was), locals, config.globalSlots, config.accountSlots, reached, Lens(pending))
      ensures NoncesCut(old(pending), old(pendingNonces), chain, pending, pendingNonces)
    {
      hide PendingNonce, NoncesCut, Lens, Leveled, Distinct, AtLevel, Trimmed, Settled, Split;
      reached := level;
      NoncesCutNone(pending, pendingNonces, chain);
      if offenders != [] {
        AboveGuaranteed(Lens(was), locals, config.accountSlots, offenders, spammers, level);
        if total > config.globalSlots {
          assert spammers == map[];
          LensAt(was, offenders[|offenders| - 1]);
          AllAtLevel(Lens(was), offenders, spammers, level);
          var _, low := ReduceAll(offenders, was, level, total);
          reached := low;
        }
      } else {
        assert spammers == map[] && offenders == [];
        NoOffenders(Lens(was), locals, config.accountSlots);
        reached := config.accountSlots;
      }
    }

    /** Cuts the longest pending lists until the limit on pending transactions is met. */
    method TruncatePending() returns (ghost level: nat)
      requires Settled() && config.accountSlots >= 1
      modifies this`pending, this`pendingNonces, this`floating, all
      ensures Settled() && Trimmed(old(pending), pending)
      ensures var was := Lens(old(pending));
        if MapSum.Sum(was) <= config.globalSlots then pending == old(pending)
        else Fair(was, locals, config.globalSlots, config.accountSlots, level, Lens(pending))
      ensures NoncesCut(old(pending), old(pendingNonces), chain, pending, pendingNonces)
    {
      hide PendingNonce, NoncesCut, Lens, Leveled, Distinct, AtLevel, Trimmed, Settled, Split;
      var total: nat := CountAll(pending);
      ghost var reached: nat := total;
      level := total;
      TrimmedSelf(pending);
      NoncesCutNone(pending, pendingNonces, chain);
      if total <= config.globalSlots {
        return;
      }
      ghost var was := pending;
      LevelOfAll(Lens(was), locals);
      SplitStart(Lens(was), locals, config.accountSlots);
      var spammers: Counts := Spammers(Lens(pending), locals, config.accountSlots);
      var offenders: seq<nat> := [];
      while total > config.globalSlots && spammers.Keys != {}
        invariant Reached(was, reached, total) && Split(Lens(was), locals, config.accountSlots, offenders, spammers)
        invariant offenders == [] ==> pending == was && total > config.globalSlots
        invariant offenders != [] ==>
          Leveled(Lens(was), offenders, spammers, reached) && AtLast(was, offenders, reached, total)
        invariant NoncesCut(old(pending), old(pendingNonces), chain, pending, pendingNonces)
        decreases spammers.Keys
      {
        ghost var mid, nonces := pending, pendingNonces;
        offenders, spammers, total, reached := NextOffender(offenders, spammers, was, reached, total);
        NoncesCutTwice(old(pending), old(pendingNonces), chain, mid, nonces, pending, pendingNonces);
      }
      ghost var mid, nonces := pending, pendingNonces;
      level := Finish(offenders, spammers, was, reached, total);
      NoncesCutTwice(old(pending), old(pendingNonces), chain, mid, nonces, pending, pendingNonces);
    }

    /** While above the limit, the offenders are even. */
    ghost predicate AtLast(was: Lists, offenders: seq<nat>, level: nat, total: nat)
      requires offenders != []
    {
      var last := offenders[|offenders| - 1];
      total > config.globalSlots ==> last in was && level == |was[last].items|
    }

    /** The pending nonce of an account after a transaction is removed: not beyond a pending one. */
    function NonceWithout(hash: nat, a: nat): nat
      reads this, all
    {
      if hash in all.All() && Holds(pending, all.All()[hash]) && all.All()[hash].sender == a
      then (if PendingNonce(a) <= all.All()[hash].nonce then PendingNonce(a) else all.All()[hash].nonce)
      else PendingNonce(a)
    }

    /** Removes a transaction; those that follow a pending one go back to the queue. */
    method RemoveTx(hash: nat, now: nat)
      requires Settled()
      modifies this`pending, this`queue, this`beats, this`pendingNonces, this`floating, all
      ensures Settled() && RemovedFrom(old(Now()), hash, Now())
      ensures forall b :: PendingNonce(b) == old(NonceWithout(hash, b))
      ensures BeatRemoved(old(Now()), old(beats), hash, now, Now(), beats)
    {
      if hash !in all.All() {
        assert all.All() - {hash} == all.All();
        return;
      }
      var tx := all.All()[hash];
      var a := tx.sender;
      WhereKnown(Now(), hash);
      if a in pending && tx.nonce in pending[a].items {
        RemovePending(tx, now);
      } else {
        RemoveQueued(tx, now);
      }
    }

    method RemovePending(tx: Tx, now: nat)
      requires Settled() && Known(all.All(), tx) && Holds(pending, tx)
      modifies this`pending, this`queue, this`beats, this`pendingNonces, this`floating, all
      ensures Settled() && RemovedFrom(old(Now()), tx.hash, Now())
      ensures PendingNonce(tx.sender) == if old(PendingNonce(tx.sender)) <= tx.nonce then old(PendingNonce(tx.sender))
        else tx.nonce
      ensures forall b :: b != tx.sender ==> PendingNonce(b) == old(PendingNonce(b))
      ensures BeatRemoved(old(Now()), old(beats), tx.hash, now, Now(), beats)
    {
      hide Ok, TxLookup.Valid, TxLookup.All, Stranded, One, Remove, Grown, Holds, RemovedFrom, AllMovable, Store, Values,
        BeatRemoved;
      HeldThere(pending, tx);
      var a := tx.sender;
      PendingFacts(Now(), a, tx.nonce);
      StrandedNone(pending[a], tx.nonce);
      var rest := Remove(pending[a], tx.nonce);
      var invalids := Stranded(pending[a], One(pending[a], tx.nonce));
      RemovePendingOk(Now(), a, tx.nonce, invalids);
      ghost var before := Now();
      all.Remove(tx.hash);
      pending := Store(pending, a, rest);
      floating := floating + Values(invalids);
      EnqueueAll(a, invalids, now);
      PendingGone(before, tx, invalids, Now());
      SetIfLower(a, tx.nonce);
      RemovedBeat(before, old(beats), tx, now, Now(), beats);
    }

    method RemoveQueued(tx: Tx, ghost now: nat)
      requires Settled() && Known(all.All(), tx) && Holds(queue, tx) && !Holds(pending, tx)
      modifies this`queue, this`beats, this`floating, all
      ensures Settled() && RemovedFrom(old(Now()), tx.hash, Now())
      ensures BeatRemoved(old(Now()), old(beats), tx.hash, now, Now(), beats)
    {
      hide Ok, TxLookup.Valid, TxLookup.All, Remove, Holds, RemovedFrom, Store, Known, BeatRemoved;
      ghost var was := Now();
      HeldThere(queue, tx);
      QueuedGone(Now(), tx);
      var a := tx.sender;
      var l := Remove(queue[a], tx.nonce);
      StoreKeys(queue, a, l);
      all.Remove(tx.hash);
      queue := Store(queue, a, l);
      if l.items == map[] {
        beats := beats - {a};
      }
      RemovedBeat(was, old(beats), tx, now, Now(), beats);
    }

    method RemoveEach(hashes: seq<nat>, now: nat)
      requires Settled()
      modifies this`pending, this`queue, this`beats, this`pendingNonces, this`floating, all
      ensures Settled() && all.All() == old(all.All()) - SetOf(hashes) && Shrunk(old(pending), pending)
      ensures SetOf(hashes) !! old(all.All()).Keys ==> Now() == old(Now())
      ensures BeatsRemoved(old(all.All()), old(beats), SetOf(hashes), now, beats)
    {
      hide Settled, TxLookup.All, SetOf, Grown, Store, Stranded, One, Holds, Shrunk, BeatRemoved, BeatsRemoved;
      NoneRemoved(all.All(), beats, {}, now);
      ShrunkSelf(pending);
      assert all.All() - {} == all.All();
      assert hashes[..0] == [];
      for i := 0 to |hashes|
        invariant Settled() && all.All() == old(all.All()) - SetOf(hashes[..i]) && Shrunk(old(pending), pending)
        invariant SetOf(hashes[..i]) !! old(all.All()).Keys ==> Now() == old(Now())
        invariant BeatsRemoved(old(all.All()), old(beats), SetOf(hashes[..i]), now, beats)
      {
        ghost var was, times := Now(), beats;
        RemoveTx(hashes[i], now);
        OneRemoved(old(all.All()), old(beats), SetOf(hashes[..i]), hashes[i], now, was, times, Now(), beats);
        RemovedShrinks(old(pending), was, hashes[i], Now());
        SetOfNext(hashes, i);
        assert was.all - {hashes[i]} == old(all.All()) - (SetOf(hashes[..i]) + {hashes[i]});
      }
      assert hashes[..|hashes|] == hashes;
    }

    /** Puts a new transaction in the place of the pending one with its nonce, if it is better. */
    method ReplacePending(tx: Tx, local: bool, now: nat) returns (inserted: bool)
      requires Settled() && tx.hash !in all.All() && !Free(pending, tx)
      requires if local then tx.hash in owned else tx.hash !in owned && tx.sender !in locals
      modifies this`pending, this`beats, this`floating, all
      ensures Settled() && inserted == Accepts(ListOf(old(pending), tx.sender, true), tx, config.priceBump)
      ensures all.All() == if inserted then Others(old(all.All()), tx)[tx.hash := tx] else old(all.All())
      ensures !inserted ==> Now() == old(Now())
      ensures inserted ==> Holds(pending, tx)
      ensures beats == if inserted then old(beats)[tx.sender := now] else old(beats)
    {
      hide Ok, TxLookup.Valid, TxLookup.All, Replaced, Hashes, TxLists.Add, Accepts, Free, ListOf, Others, Holds;
      var l := ListOf(pending, tx.sender, true);
      inserted := Accepts(l, tx, config.priceBump);
      PendingReplaces(Now(), tx);
      if inserted {
        PromoteOk(Now(), tx, config.priceBump);
        AddHolds(pending, l, tx, config.priceBump);
        AddKnown(all.All(), Hashes(Replaced(l, tx)), tx);

        assert floating - {tx} == {};
        StorePending(l, tx, local, true, now);
      }
    }

    /** Puts a new transaction into the queue, in the place of the one with its nonce if it is better. */
    method EnqueueNew(tx: Tx, local: bool, now: nat) returns (inserted: bool, replaced: bool)
      requires Settled() && tx.hash !in all.All() && Free(pending, tx)
      requires if local then tx.hash in owned else tx.hash !in owned && tx.sender !in locals
      modifies this`queue, this`beats, this`floating, all
      ensures Settled() && inserted == Accepts(ListOf(old(queue), tx.sender, false), tx, config.priceBump)
      ensures all.All() == if inserted then Others(old(all.All()), tx)[tx.hash := tx] else old(all.All())
      ensures !inserted ==> Now() == old(Now())
      ensures inserted ==> Holds(queue, tx) && !Holds(pending, tx)
      ensures inserted ==> (replaced <==> Others(old(all.All()), tx) != old(all.All()))
      ensures beats == if !inserted || tx.sender in old(beats) then old(beats) else old(beats)[tx.sender := now]
    {
      hide Ok, TxLookup.Valid, TxLookup.All, Replaced, Hashes, TxLists.Add, Accepts, Free, ListOf, Others, Holds;
      ghost var l := ListOf(queue, tx.sender, false);
      QueueReplaces(Now(), tx);
      if Accepts(l, tx, config.priceBump) { EnqueueOk(Now(), tx, config.priceBump); }
      assert !Accepts(l, tx, config.priceBump) ==> Enqueue(Now(), tx, config.priceBump) == Now();
      inserted, replaced := EnqueueTx(tx, local, true, now);
      if inserted {
        FreeNotHeld(pending, tx);
        AddHolds(old(queue), l, tx, config.priceBump);
        AddKnown(old(all.All()), Hashes(Replaced(l, tx)), tx);
      }
    }

    /** Notes on which side a new transaction will be held. */
    ghost method Own(tx: Tx, isLocal: bool)
      requires Settled() && tx.hash !in all.All()
      modifies this`owned
      ensures Settled() && owned == if isLocal then old(owned) + {tx.hash} else old(owned) - {tx.hash}
    {
      hide Ok, TxLookup.Valid, TxLookup.All;
      owned := if isLocal then owned + {tx.hash} else owned - {tx.hash};
    }

    /** What adding a transaction does after room has been made for it. */
    method Insert(tx: Tx, local: bool, isLocal: bool, now: nat) returns (r: AddResult)
      requires Settled() && tx.hash !in all.All() && isLocal == (local || tx.sender in locals)
      modifies this`pending, this`queue, this`beats, this`locals, this`owned, this`floating, all
      ensures Settled() && (r.Added? || r == ReplaceUnderpriced) && AddedTo(old(Now()), tx, r, Now())
      ensures r == ReplaceUnderpriced <==> Refused(old(all.All()), tx, config.priceBump)
      ensures !r.Added? ==> Now() == old(Now())
      ensures beats == if r.Added? then BeatsAdded(old(beats), tx, Holds(pending, tx), now) else old(beats)
      ensures locals == if local && r.Added? && Holds(queue, tx) then old(locals) + {tx.sender} else old(locals)
      ensures OwnedAfter(old(owned), tx, isLocal, r.Added?, locals - old(locals), all.All(), owned)
    {
      hide Ok, TxLookup.Valid, TxLookup.All, TxLookup.Sides, TxLists.Add, Accepts, ListOf, Others, Holds, Replaced, Hashes,
        Refused;
      RefusedIs(Now(), tx, config.priceBump);
      Own(tx, isLocal);
      if tx.sender in pending && tx.nonce in pending[tx.sender].items {
        PendingReplaces(Now(), tx);
        NotHeld(Now(), tx);
        var inserted := ReplacePending(tx, isLocal, now);
        return if inserted then Added(true) else ReplaceUnderpriced;
      }
      var inserted, replaced := EnqueueNew(tx, isLocal, now);
      if !inserted {
        return ReplaceUnderpriced;
      }
      if local && tx.sender !in locals {
        NewLocal(tx.sender);
      }
      return Added(replaced);
    }

    lemma AllLocal()
      requires Settled()
      ensures forall h :: h in all.All() ==> (h in all.locals <==> h in owned)
      ensures forall h :: h in all.All() && all.All()[h].sender in locals ==> h in owned
    {
      hide Ok, TxLookup.Valid;
    }

    /** Marks an account as local, and migrates its remote transactions. */
    method NewLocal(a: nat)
      requires Settled() && a !in locals
      modifies this`locals, this`owned, all
      ensures Settled() && Now() == old(Now()) && locals == old(locals) + {a}
      ensures forall h :: h in all.All() ==> (h in owned <==> h in old(owned) || all.All()[h].sender == a)
    {
      hide Ok, TxLookup.Valid;
      hide TxLookup.All;
      AllLocal();
      locals := locals + {a};
      var _ := all.RemoteToLocals(locals);
      owned := owned + set h | h in all.All() && all.All()[h].sender == a;
    }

    /** The slots in use with one more transaction exceed the pool's capacity. */
    predicate Full(tx: Tx)
      reads this, all
    {
      all.slots + tx.slots > config.globalSlots + config.globalQueue
    }

    /** The slots that have to be freed for a transaction. */
    function Missing(tx: Tx): nat
      reads this, all
    {
      if Full(tx) then all.slots + tx.slots - config.globalSlots - config.globalQueue else 0
    }

    /** A new remote transaction meets a full pool. */
    predicate Crowded(tx: Tx, local: bool, valid: bool)
      reads this, all
    {
      && tx.hash !in all.All() && valid && !local && tx.sender !in locals
      && all.slots + tx.slots > config.globalSlots + config.globalQueue
    }

    /** The transactions that leave the pool to make room for a new one. */
    ghost function Room(tx: Tx, drop: seq<nat>): set<nat>
      reads this, all
    {
      if Full(tx) then SetOf(drop) else {}
    }

    /** Adds a transaction. `valid` says whether it passes the chain's validation; `underpriced`, `drop` and `success`
        are what the price list answers when the pool is full. A transaction that does not beat the known one with its nonce
        is refused only after room has been made for it. */
    method Add(tx: Tx, local: bool, valid: bool, underpriced: bool, drop: seq<nat>, success: bool, now: nat)
      returns (r: AddResult, ghost made: Counts)
      requires Settled()
      modifies this`pending, this`queue, this`beats, this`pendingNonces, this`locals, this`owned, this`floating, all
      ensures Settled()
      ensures r == AlreadyKnown <==> tx.hash in old(all.All())
      ensures r == Invalid <==> tx.hash !in old(all.All()) && !valid
      ensures r == Underpriced <==> old(Crowded(tx, local, valid)) && underpriced
      ensures r == Overflow <==> old(Crowded(tx, local, valid)) && !underpriced && !success
      ensures r == ReplaceUnderpriced <==>
        && tx.hash !in old(all.All()) && valid && (old(Crowded(tx, local, valid)) ==> !underpriced && success)
        && Refused(old(all.All()) - old(Room(tx, drop)), tx, config.priceBump)
      ensures r == ReplaceUnderpriced ==> (Now() == old(Now()) <==> old(Room(tx, drop)) !! old(all.All()).Keys)
      ensures r.Added? || r == ReplaceUnderpriced || Now() == old(Now())
      ensures AddedTo(old(Now()).(all := old(all.All()) - old(Room(tx, drop))), tx, r, Now())
      ensures locals == if local && r.Added? && Holds(queue, tx) then old(locals) + {tx.sender} else old(locals)
      ensures OwnedAfter(old(owned), tx, local || tx.sender in old(locals), r.Added?, locals - old(locals), all.All(), owned)
      ensures BeatsRemoved(old(all.All()), old(beats), old(Room(tx, drop)), now, made)
      ensures !r.Added? && r != ReplaceUnderpriced ==> made == old(beats)
      ensures beats == if r.Added? then BeatsAdded(made, tx, Holds(pending, tx), now) else made
    {
      hide Ok, TxLookup.Valid, TxLookup.All, AddedTo, SetOf, Accepts, ListOf, Free, Holds, Shrunk, Refused, BeatsRemoved,
        BeatsAdded, OwnedAfter;
      made := beats;
      assert locals - locals == {};
      NotAdded(owned, tx, local || tx.sender in locals, all.All());
      NoneRemoved(all.All(), beats, Room(tx, drop), now);
      NothingAdded(Now(), Now().(all := all.All() - Room(tx, drop)), tx, Now());
      if tx.hash in all.All() {
        return AlreadyKnown, made;
      }
      var isLocal := local || tx.sender in locals;
      if !valid {
        return Invalid, made;
      }
      if Full(tx) {
        if !isLocal && underpriced {
          return Underpriced, made;
        }
        if !isLocal && !success {
          return Overflow, made;
        }
        RemoveEach(drop, now);
        made := beats;
      }
      ghost var mid := Now();
      r := Insert(tx, local, isLocal, now);
      AddedShrunk(old(Now()), mid, tx, r, Now());
    }

    /** Removes one transaction from a queue. */
    method DropNonce(a: nat, n: nat, now: nat)
      requires Settled() && a in queue && n in queue[a].items
      modifies this`pending, this`queue, this`beats, this`pendingNonces, this`floating, all
      ensures Settled() && pending == old(pending) && queue - {a} == old(queue) - {a}
      ensures ListOf(queue, a, false).items == old(queue)[a].items - {n}
      ensures a in queue <==> old(queue)[a].items - {n} != map[]
      ensures forall b :: PendingNonce(b) == old(PendingNonce(b))
      ensures beats == if a in queue then old(beats) else old(beats) - {a}
    {
      hide Ok, TxLookup.Valid, TxLookup.Sides, TxLookup.All, PendingNonce, RemovedFrom, Holds, BeatRemoved;
      QueuedFacts(Now(), a, n);
      var tx := queue[a].items[n];
      ghost var was, times := Now(), beats;
      RemoveTx(tx.hash, now);
      QueuedRemoved(was, times, tx, now, Now(), beats);
      RemovedQueued(was, tx, Now());
    }

    /** Removes every transaction of a queue. */
    method DropWhole(a: nat, now: nat)
      requires Settled() && a in queue
      modifies this`pending, this`queue, this`beats, this`pendingNonces, this`floating, all
      ensures Settled() && pending == old(pending) && queue - {a} == old(queue) - {a} && a !in queue
      ensures forall b :: PendingNonce(b) == old(PendingNonce(b))
      ensures beats == old(beats) - {a}
    {
      hide Settled, PendingNonce;
      ghost var was := queue[a].items;
      QueueNotEmpty(a);
      var txs := queue[a].items;
      while txs.Keys != {}
        invariant Settled() && pending == old(pending) && queue - {a} == old(queue) - {a}
        invariant ListOf(queue, a, false).items == txs && (a in queue <==> txs != map[])
        invariant forall b :: PendingNonce(b) == old(PendingNonce(b))
        invariant beats == if a in queue then old(beats) else old(beats) - {a}
        decreases txs.Keys
      {
        var n := LowestNonce(txs);
        DropNonce(a, n, now);
        assert (txs - {n}).Keys == txs.Keys - {n};
        txs := txs - {n};
      }
    }

    lemma QueueNotEmpty(a: nat)
      requires Settled() && a in queue
      ensures queue[a].items != map[]
    {
      assert ListOk(queue[a], a);
    }

    /** Evicts the queues of accounts that are not local and whose last heartbeat is too long ago. */
    method EvictIdle(lifetime: nat, now: nat)
      requires Settled()
      modifies this`pending, this`queue, this`beats, this`pendingNonces, this`floating, all
      ensures Settled() && pending == old(pending)
      ensures queue == old(queue) - Idle(old(queue), old(beats), locals, lifetime, now)
      ensures beats == old(beats) - Idle(old(queue), old(beats), locals, lifetime, now)
    {
      hide Ok, TxLookup.Valid, TxLookup.Sides, PendingNonce;
      var todo := queue.Keys;
      ghost var gone: set<nat> := {};
      assert queue - gone == queue && beats - gone == beats;
      while todo != {}
        invariant Settled() && pending == old(pending) && todo <= old(queue).Keys
        invariant queue == old(queue) - gone && beats == old(beats) - gone && gone !! todo
        invariant gone == Idle(old(queue), old(beats), locals, lifetime, now) - todo
        decreases todo
      {
        var a :| a in todo;
        if a !in locals && now > beats[a] + lifetime {
          ghost var was := queue;
          DropWhole(a, now);
          assert queue == was - {a};
          assert queue == old(queue) - (gone + {a}) && beats == old(beats) - (gone + {a});
          gone := gone + {a};
        }
        todo := todo - {a};
      }
      assert gone == Idle(old(queue), old(beats), locals, lifetime, now);
    }

    /** Removes the highest nonces of a queue. */
    method DropTop(a: nat, count: nat, now: nat)
      requires Settled() && a in queue && count < |queue[a].items|
      modifies this`pending, this`queue, this`beats, this`pendingNonces, this`floating, all
      ensures Settled() && pending == old(pending) && queue - {a} == old(queue) - {a} && a in queue
      ensures LowPart(queue[a].items, old(queue)[a].items) && |queue[a].items| == |old(queue)[a].items| - count
      ensures forall b :: PendingNonce(b) == old(PendingNonce(b))
      ensures beats == old(beats)
    {
      hide Settled, PendingNonce, LowPart;
      ghost var was := queue[a].items;
      LowPartSelf(was);
      for i := 0 to count
        invariant Settled() && pending == old(pending) && queue - {a} == old(queue) - {a} && a in queue
        invariant LowPart(queue[a].items, was) && |queue[a].items| == |was| - i
        invariant forall b :: PendingNonce(b) == old(PendingNonce(b))
        invariant beats == old(beats)
      {
        ghost var mid := queue[a].items;
        var n := HighestNonce(queue[a].items);
        WithoutHighest(mid, n);
        DropNonce(a, n, now);
        LowPartTwice(was, mid, queue[a].items);
      }
    }

    /** Looks at the account with the latest heartbeat: drops its whole queue, or what still has to be dropped. */
    method DropNext(ghost was: Lists, ghost times: Counts, addresses: seq<nat>, ghost cut: nat, drop: nat, now: nat)
      returns (left: nat, ghost last: nat)
      requires Settled() && was.Keys <= times.Keys && Cutting(was, times, locals, addresses, cut, drop, queue)
      requires Distinct(addresses) && ByBeat(addresses, times) && drop > 0 && addresses != []
      requires MapSum.Sum(Lens(queue)) == config.globalQueue + drop
      modifies this`pending, this`queue, this`beats, this`pendingNonces, this`floating, all
      ensures Settled() && pending == old(pending)
      ensures Cutting(was, times, locals, Init(addresses), last, left, queue)
      ensures MapSum.Sum(Lens(queue)) == config.globalQueue + left
      ensures forall b :: PendingNonce(b) == old(PendingNonce(b))
      ensures queue.Keys <= old(queue).Keys && beats == old(beats) - (old(queue).Keys - queue.Keys)
    {
      hide PendingNonce, Lens, Cutting, LowPart, Settled, Distinct, ByBeat, SetOf;
      ghost var mid := queue;
      var a := addresses[|addresses| - 1];
      CuttingLast(was, times, locals, addresses, cut, drop, queue);
      var size := |queue[a].items|;
      if size <= drop {
        DropWhole(a, now);
        left := drop - size;
      } else {
        DropTop(a, drop, now);
        left := 0;
      }
      GoneKeys(mid, a, queue);
      last := a;
      LensShorter(mid, a, queue, drop - left);
      CutNext(was, times, locals, addresses, cut, drop, mid, a, left, queue);
    }

    /** Drops queued transactions of accounts that are not local until the limit is met. */
    method TruncateQueue(now: nat)
      requires Settled()
      modifies this`pending, this`queue, this`beats, this`pendingNonces, this`floating, all
      ensures Settled() && pending == old(pending) && queue.Keys <= old(queue).Keys <= old(beats).Keys
      ensures QueueCut(old(queue), old(beats), locals, queue)
      ensures var queued := MapSum.Sum(Lens(old(queue)));
        if queued <= config.globalQueue then queue == old(queue)
        else MapSum.Sum(Lens(queue)) == Larger(config.globalQueue, MapSum.Sum(MapSum.Restrict(Lens(old(queue)), locals)))
      ensures forall b :: PendingNonce(b) == old(PendingNonce(b))
      ensures beats == old(beats) - (old(queue).Keys - queue.Keys)
    {
      hide PendingNonce, Lens, Cutting, QueueCut, LowPart, Ok, TxLookup.Valid, TxLookup.Sides, Distinct, ByBeat, SetOf;
      var queued: nat := CountAll(queue);
      ghost var was, times := queue, beats;
      var addresses: seq<nat> := SortByBeat(queue.Keys - locals, beats);
      ghost var cut: nat := 0;
      var drop: nat := if queued > config.globalQueue then queued - config.globalQueue else 0;
      CutStart(was, times, locals, addresses, drop);
      while drop > 0 && |addresses| > 0
        invariant Settled() && pending == old(pending)
        invariant Cutting(was, times, locals, addresses, cut, drop, queue)
        invariant Distinct(addresses) && ByBeat(addresses, times)
        invariant queued > config.globalQueue ==> MapSum.Sum(Lens(queue)) == config.globalQueue + drop
        invariant queued <= config.globalQueue ==> drop == 0 && queue == was
        invariant forall b :: PendingNonce(b) == old(PendingNonce(b))
        invariant queue.Keys <= was.Keys && beats == times - (was.Keys - queue.Keys)
        decreases |addresses|
      {
        DistinctInit(addresses, times);
        drop, cut := DropNext(was, times, addresses, cut, drop, now);
        addresses := Init(addresses);
      }
      CutDone(was, times, locals, addresses, cut, drop, queue);
      CutTotal(was, times, locals, addresses, cut, drop, queue);
    }

    // ---------- the background reorganization ----------

    ghost predicate TidyQueue(a: nat)
      reads this
    {
      a in queue ==> Tidy(queue[a].items, Get(chain.nonces, a), Get(chain.balances, a), chain.maxGas, PendingNonce(a),
                          if a in locals then None else Some(config.accountQueue))
    }

    ghost predicate FitPending(a: nat)
      reads this`pending, this`chain
    {
      a in pending ==> Fit(pending[a].items, Get(chain.nonces, a), Get(chain.balances, a), chain.maxGas)
    }

    /** Promotes the transactions of some accounts. Nothing else changes, and nothing usable is lost but what lies beyond
        an account's queue limit. */
    method PromoteExecutables(accounts: set<nat>, now: nat)
      requires Settled()
      modifies this`pending, this`queue, this`beats, this`pendingNonces, this`floating, all
      ensures Settled() && forall a :: a in accounts ==> TidyQueue(a)
      ensures AllPromoted(old(Now()), old(pendingNonces), accounts, chain, locals, config.accountQueue, Now())
      ensures PromotionLost(old(Now()), accounts, chain, locals, config.accountQueue, Now())
      ensures AllBeatPromoted(old(Now()), old(beats), accounts, now, Now(), beats)
      ensures AllAdvanced(old(Now()), old(pendingNonces), accounts, chain, pendingNonces)
    {
      hide Settled, TidyQueue, AllPromoted, PendingNonce, NonceIn, AccountPromoted, SameLists, QueueLimit, PromotionLost, Now,
        AllBeatPromoted, BeatPromoted, Beat, AllAdvanced, NonceAdvanced;
      ghost var was, nonces, times := Now(), pendingNonces, beats;
      SettledOk();
      NoneAdvanced(was, nonces, chain);
      NoBeatPromoted(was, times, now);
      NonePromoted(was, nonces, chain, locals, config.accountQueue);
      var todo := accounts;
      ghost var done: set<nat> := {};
      while todo != {}
        invariant Settled() && todo !! done && todo + done == accounts && forall a :: a in done ==> TidyQueue(a)
        invariant AllPromoted(was, nonces, done, chain, locals, config.accountQueue, Now())
        invariant AllBeatPromoted(was, times, done, now, Now(), beats)
        invariant AllAdvanced(was, nonces, done, chain, pendingNonces)
        decreases todo
      {
        var a :| a in todo;
        ghost var mid, then_, between := Now(), beats, pendingNonces;
        NonceThen(was, nonces, done, a);
        label before:
        PromoteTidy(a, now);
        SameNonces@before(a);
        OneAdvanced(was, nonces, done, chain, mid, between, a, pendingNonces) by {
          StillThere(was, nonces, done, chain, locals, config.accountQueue, mid, a);
        }
        StillThere(was, nonces, done, chain, locals, config.accountQueue, mid, a);
        OneBeatPromoted(was, times, done, now, mid, then_, a, Now(), beats);
        OnePromoted(was, nonces, done, chain, locals, config.accountQueue, mid, a, Now());
        todo, done := todo - {a}, done + {a};
      }
      assert done == accounts;
      SettledOk();
      PromotionLostIs(was, nonces, accounts, chain, locals, config.accountQueue, Now());
    }

    lemma SettledOk()
      requires Settled()
      ensures Ok(Now()) && Now().floating == {} && Now().p == pending && Now().q == queue && Now().all == all.All()
    {
    }

    lemma NonceThen(was: Pool, nonces: map<nat, nat>, done: set<nat>, a: nat)
      requires AllAdvanced(was, nonces, done, chain, pendingNonces) && a !in done
      ensures PendingNonce(a) == NonceIn(nonces, chain, a)
    {
    }

    twostate lemma SameNonces(a: nat)
      requires chain == old(chain) && forall b :: b != a ==> PendingNonce(b) == old(PendingNonce(b))
      ensures PendingNonce(a) == NonceIn(pendingNonces, chain, a) && old(PendingNonce(a)) == NonceIn(old(pendingNonces), chain, a)
      ensures forall b :: b != a ==> NonceIn(pendingNonces, chain, b) == NonceIn(old(pendingNonces), chain, b)
    {
      OtherNonces(a);
    }

    method PromoteTidy(a: nat, now: nat)
      requires Settled()
      modifies this`pending, this`queue, this`beats, this`pendingNonces, this`floating, all
      ensures Settled() && TidyQueue(a) && forall b :: b != a && old(TidyQueue(b)) ==> TidyQueue(b)
      ensures AccountPromoted(old(Now()), a, old(PendingNonce(a)), chain, QueueLimit(a, locals, config.accountQueue), Now())
      ensures forall b :: b != a ==> SameLists(old(Now()), b, Now()) && PendingNonce(b) == old(PendingNonce(b))
      ensures BeatPromoted(old(Now()), old(beats), a, now, Now(), beats)
      ensures forall b :: b != a ==> Beat(beats, b) == Beat(old(beats), b)
      ensures NonceAdvanced(old(Now()), a, old(PendingNonce(a)), chain, PendingNonce(a))
    {
      hide Valid, PendingNonce, Tidy, PromotedFrom, Grown, Advanced, Hashes, Payable, CapsOk, AccountPromoted, SameLists,
        BeatPromoted, NonceAdvanced;
      ghost var was, start := Now(), PendingNonce(a);
      SettledOk();
      if a in queue { QueuedList(a); }
      var promoted, dropped := PromoteAccount(a, now);
      OthersSame(was.q, a, queue);
      GrownOthers(was.p, a, promoted, true, pending);
      OthersAsTheyWere(was, a, Now());
      if a in was.q {
        PromotedSub(was.q[a], Get(chain.nonces, a), Get(chain.balances, a), chain.maxGas, start,
          QueueLimit(a, locals, config.accountQueue), promoted, dropped, ListOf(queue, a, false).items);
        PromotedBeat(was, old(beats), a, now, promoted, Now(), beats);
        AdvancedNonce(was, a, start, chain, QueueLimit(a, locals, config.accountQueue), promoted, dropped,
          ListOf(queue, a, false).items, PendingNonce(a));
        PromotedTidy(was.q[a], Get(chain.nonces, a), Get(chain.balances, a), chain.maxGas, start,
          QueueLimit(a, locals, config.accountQueue), promoted, dropped, ListOf(queue, a, false).items, PendingNonce(a));
        PromotedIs(was, a, start, chain, QueueLimit(a, locals, config.accountQueue), promoted, dropped, Now());
      } else {
        NothingPromoted(was, a, start, chain, QueueLimit(a, locals, config.accountQueue));
        NoQueueNoBeat(was, old(beats), a, now);
        AdvancedIs(start, promoted, PendingNonce(a));
        NoQueueNoNonce(was, a, start, chain);
      }
    }

    /** Demotes what can no longer be executed. Nothing is lost but useless pending transactions. */
    method DemoteUnexecutables(now: nat)
      requires Settled()
      modifies this`pending, this`queue, this`beats, this`floating, all
      ensures Settled() && pending.Keys <= old(pending).Keys && forall a :: a in pending ==> FitPending(a)
      ensures AllDemoted(old(Now()), old(pending).Keys, chain, Now())
      ensures DemotionLost(old(Now()), chain, Now())
      ensures AllBeatQueued(old(Now()), old(beats), old(pending).Keys, now, Now(), beats)
    {
      hide Settled, FitPending, AllDemoted, AccountDemoted, SameLists, DemotionLost, Now, AllBeatQueued, BeatQueued, Beat;
      ghost var was, times := Now(), beats;
      SettledOk();
      NoBeatPromoted(was, times, now);
      NoneDemoted(was, chain);
      var todo := pending.Keys;
      ghost var done: set<nat> := {};
      while todo != {}
        invariant Settled() && todo <= pending.Keys <= old(pending).Keys && todo !! done && todo + done == old(pending).Keys
        invariant forall a :: a in pending && a !in todo ==> FitPending(a)
        invariant AllDemoted(was, done, chain, Now()) && AllBeatQueued(was, times, done, now, Now(), beats)
        decreases todo
      {
        var a :| a in todo;
        ghost var mid, then_ := Now(), beats;
        DemoteFit(a, now);
        NotYetDemoted(was, done, chain, mid, a);
        OneBeatQueued(was, times, done, now, mid, then_, a, Now(), beats);
        OneDemoted(was, done, chain, mid, a, Now());
        todo, done := todo - {a}, done + {a};
      }
      assert done == old(pending).Keys;
      SettledOk();
      DemotionLostIs(was, old(pending).Keys, chain, Now());
    }

    method DemoteFit(a: nat, now: nat)
      requires Settled() && a in pending
      modifies this`pending, this`queue, this`beats, this`floating, all
      ensures Settled() && FitPending(a) && forall b :: b != a && old(FitPending(b)) ==> FitPending(b)
      ensures pending.Keys + {a} == old(pending).Keys
      ensures AccountDemoted(old(Now()), a, chain, Now()) && forall b :: b != a ==> SameLists(old(Now()), b, Now())
      ensures BeatQueued(old(Now()), old(beats), a, now, Now(), beats)
      ensures forall b :: b != a ==> Beat(beats, b) == Beat(old(beats), b)
    {
      hide Valid, Fit, DemotedFrom, CapsOk, AccountDemoted, SameLists, BeatQueued, Beat;
      ghost var was := Now();
      PendingList(a);
      DemoteAccount(a, now);
      OthersSame(was.p, a, pending);
      DemotedFit(was, a, Get(chain.nonces, a), Get(chain.balances, a), chain.maxGas, Now());
      DemotedIs(was, a, chain, Now());
      OthersAsTheyWere(was, a, Now());
      if a in pending { PendingNotEmpty(a); }
    }

    lemma PendingNotEmpty(a: nat)
      requires Settled() && a in pending
      ensures pending[a].items != map[]
    {
      assert ListOk(pending[a], a);
    }

    /** No more pending transactions than the limit, or no account but local ones above its guaranteed slots. */
    ghost predicate PendingWithin()
      reads this`pending, this`locals
    {
      MapSum.Sum(Lens(pending)) <= config.globalSlots
      || forall a :: a in pending && a !in locals ==> |pending[a].items| <= config.accountSlots
    }

    /** No more queued transactions than the limit, or those of local accounts only. */
    ghost predicate QueueWithin()
      reads this`queue, this`locals
    {
      MapSum.Sum(Lens(queue)) <= Larger(config.globalQueue, MapSum.Sum(MapSum.Restrict(Lens(queue), locals)))
    }

    /** Every pending account's next nonce is the one after its last pending transaction. */
    method UpdateNonces()
      requires Settled()
      modifies this`pendingNonces
      ensures forall a :: a in pending ==> NonceAfter(pending[a].items, a)
      ensures forall a :: a !in pending ==> PendingNonce(a) == old(PendingNonce(a))
    {
      hide Settled, Valid;
      var todo := pending.Keys;
      while todo != {}
        invariant todo <= pending.Keys && forall a :: a in pending && a !in todo ==> NonceAfter(pending[a].items, a)
        invariant forall a :: a !in pending ==> PendingNonce(a) == old(PendingNonce(a))
        decreases todo
      {
        var a :| a in todo;
        PendingNotEmpty(a);
        var last := HighestNonce(pending[a].items);
        pendingNonces := pendingNonces[a := last + 1];
        todo := todo - {a};
      }
    }

    ghost predicate NonceAfter(items: Items, a: nat)
      reads this`pendingNonces, this`chain
    {
      PendingNonce(a) > 0 && PendingNonce(a) - 1 in items && forall n :: n in items ==> n < PendingNonce(a)
    }

    /** Enforces both limits. */
    method Truncate(now: nat) returns (ghost level: nat)
      requires Settled() && config.accountSlots >= 1
      modifies this`pending, this`queue, this`beats, this`pendingNonces, this`floating, all
      ensures Settled() && PendingWithin() && QueueWithin()
      ensures PendingCut(old(pending), locals, config, level, pending) && QueueTrimmed(old(queue), locals, config, queue)
      ensures QueueTruncated(old(queue), old(beats), locals, config, queue, beats)
      ensures NoncesCut(old(pending), old(pendingNonces), chain, pending, pendingNonces)
    {
      hide NoncesCut, NonceIn, Valid, Lens, MapSum.Restrict, Trimmed, QueueCut, QueueTrimmed, QueueTruncated, Fair,
        PendingNonce, AtLevel;
      ghost var was := Lens(pending);
      level := TruncatePending();
      if MapSum.Sum(was) > config.globalSlots {
        FairWithin(pending, was, locals, config.globalSlots, config.accountSlots, level);
      }
      ghost var q, times, nonces := queue, beats, pendingNonces;
      label cut:
      TruncateQueue(now);
      NoncesAsBefore@cut();
      SameCut(old(pending), old(pendingNonces), chain, pending, nonces, pendingNonces);
      OnlySame(q, times, locals, queue);
      OnlyAtMost(Lens(q), locals);
      QueueTrimmedIs(q, times, locals, config, queue);
      QueueTruncatedIs(q, times, locals, config, queue, beats);
    }

    twostate lemma NoncesAsBefore()
      requires chain == old(chain) && forall b :: PendingNonce(b) == old(PendingNonce(b))
      ensures forall b :: NonceIn(pendingNonces, chain, b) == NonceIn(old(pendingNonces), chain, b)
    {
      hide NonceIn;
      forall b ensures NonceIn(pendingNonces, chain, b) == NonceIn(old(pendingNonces), chain, b) {
        assert PendingNonce(b) == old(PendingNonce(b));
      }
    }

    /** Promotion, demotion if the chain was reset, and the limits, one after the other. */
    method RunLists(accounts: set<nat>, demote: bool, now: nat)
      returns (ghost promoted: Pool, ghost early: Counts, ghost next: map<nat, nat>, ghost demoted: Pool, ghost late: Counts,
        ghost level: nat)
      requires Settled() && config.accountSlots >= 1
      modifies this`pending, this`queue, this`beats, this`pendingNonces, this`floating, all
      ensures Settled() && PendingWithin() && QueueWithin()
      ensures demote ==> forall a :: a in pending ==> FitPending(a)
      ensures AllPromoted(old(Now()), old(pendingNonces), accounts, chain, locals, config.accountQueue, promoted)
      ensures if demote then AllDemoted(promoted, promoted.p.Keys, chain, demoted) else demoted == promoted
      ensures PendingCut(demoted.p, locals, config, level, pending) && QueueTrimmed(demoted.q, locals, config, queue)
      ensures RunLost(old(Now()), chain, locals, config, demoted, Now())
      ensures AllBeatPromoted(old(Now()), old(beats), accounts, now, promoted, early)
      ensures if demote then AllBeatQueued(promoted, early, promoted.p.Keys, now, demoted, late) else late == early
      ensures QueueTruncated(demoted.q, late, locals, config, queue, beats)
      ensures AllAdvanced(old(Now()), old(pendingNonces), accounts, chain, next)
      ensures NoncesCut(demoted.p, next, chain, pending, pendingNonces)
    {
      hide Settled, PendingWithin, QueueWithin, Fit, TidyQueue, PendingCut, QueueTrimmed, AllPromoted, AllDemoted, RunLost, Now,
        PromotionLost, DemotionLost, AllBeatPromoted, AllBeatQueued, QueueTruncated, AllAdvanced, NoncesCut;
      SettledOk();
      ghost var was := Now();
      PromoteExecutables(accounts, now);
      SettledOk();
      promoted, early, next := Now(), beats, pendingNonces;
      if demote {
        DemoteUnexecutables(now);
        SettledOk();
      }
      demoted, late := Now(), beats;
      ghost var mid := pending;
      assert demote ==> forall a :: a in mid ==>
        Fit(mid[a].items, Get(chain.nonces, a), Get(chain.balances, a), chain.maxGas);
      level := Truncate(now);
      if demote { StillFit(mid) by { CutTrims(mid, locals, config, level, pending); } }
      SettledOk();
      RunLostIs(was, old(pendingNonces), accounts, chain, locals, config, promoted, demoted, level, Now());
    }

    /** The background run: a reset to a new chain state, promotion, demotion, and the limits. The intermediate states say
        what was promoted and what demoted before the limits were enforced; a transaction leaves the pool only if it is
        useless under the chain state, beyond its account's queue limit, or cut off by a limit that was exceeded. The queue is
        cut by the heartbeats that the accounts have after promotion and demotion. */
    method RunReorg(reset: Option<Chain>, dirty: set<nat>, now: nat)
      returns (ghost promoted: Pool, ghost early: Counts, ghost next: map<nat, nat>, ghost demoted: Pool, ghost late: Counts,
        ghost level: nat)
      requires Settled() && config.accountSlots >= 1
      modifies this`chain, this`pending, this`queue, this`beats, this`pendingNonces, this`floating, all
      ensures Settled() && PendingWithin() && QueueWithin()
      ensures chain == if reset.Some? then reset.value else old(chain)
      ensures reset.Some? ==> forall a :: a in pending ==> FitPending(a)
      ensures forall a :: a in pending ==> NonceAfter(pending[a].items, a)
      ensures AllPromoted(old(Now()), if reset.Some? then map[] else old(pendingNonces),
        if reset.Some? then old(queue).Keys else dirty, chain, locals, config.accountQueue, promoted)
      ensures if reset.Some? then AllDemoted(promoted, promoted.p.Keys, chain, demoted) else demoted == promoted
      ensures PendingCut(demoted.p, locals, config, level, pending) && QueueTrimmed(demoted.q, locals, config, queue)
      ensures RunLost(old(Now()), chain, locals, config, demoted, Now())
      ensures AllBeatPromoted(old(Now()), old(beats), if reset.Some? then old(queue).Keys else dirty, now, promoted, early)
      ensures if reset.Some? then AllBeatQueued(promoted, early, promoted.p.Keys, now, demoted, late) else late == early
      ensures QueueTruncated(demoted.q, late, locals, config, queue, beats)
      ensures AllAdvanced(old(Now()), if reset.Some? then map[] else old(pendingNonces),
        if reset.Some? then old(queue).Keys else dirty, chain, next)
      ensures forall a :: a !in pending ==> NonceCut(demoted.p, a, NonceIn(next, chain, a), pending, PendingNonce(a))
      ensures reset.Some? ==> forall a :: a !in old(queue) && a !in demoted.p && a !in pending ==>
        PendingNonce(a) == if a in chain.nonces then chain.nonces[a] else 0
    {
      hide AllAdvanced, NonceCut, NoncesCut, NonceIn, PendingNonce, Settled, PendingWithin, QueueWithin, FitPending,
        NonceAfter, PendingCut, QueueTrimmed, AllPromoted, AllDemoted, RunLost, Now, AllBeatPromoted, AllBeatQueued,
        QueueTruncated;
      var accounts := dirty;
      if reset.Some? {
        chain, pendingNonces := reset.value, map[];
        accounts := queue.Keys;
      }
      promoted, early, next, demoted, late, level := RunLists(accounts, reset.Some?, now);
      CutNonces(demoted.p, next);
      if reset.Some? { ResetNonces(old(Now()), accounts, demoted.p, next); }
      UpdateNonces();
    }

    lemma CutNonces(was: Lists, next: map<nat, nat>)
      requires NoncesCut(was, next, chain, pending, pendingNonces)
      ensures forall a :: NonceCut(was, a, NonceIn(next, chain, a), pending, PendingNonce(a))
    {
      hide NonceCut;
      forall a ensures NonceCut(was, a, NonceIn(next, chain, a), pending, PendingNonce(a)) {
        assert NonceCut(was, a, NonceIn(next, chain, a), pending, NonceIn(pendingNonces, chain, a));
      }
    }

    /** An account for which nothing is held has the nonce of the new chain state. */
    lemma ResetNonces(was: Pool, accounts: set<nat>, mid: Lists, next: map<nat, nat>)
      requires AllAdvanced(was, map[], accounts, chain, next)
      requires forall a :: NonceCut(mid, a, NonceIn(next, chain, a), pending, PendingNonce(a))
      ensures forall a :: a !in accounts && a !in mid && a !in pending ==>
        PendingNonce(a) == if a in chain.nonces then chain.nonces[a] else 0
    {
      forall a | a !in accounts && a !in mid && a !in pending
        ensures PendingNonce(a) == if a in chain.nonces then chain.nonces[a] else 0
      {
        assert NonceCut(mid, a, NonceIn(next, chain, a), pending, PendingNonce(a));
        assert NonceIn(map[], chain, a) == Get(chain.nonces, a);
      }
    }

    /** Truncating a fit list leaves it fit. */
    lemma StillFit(was: Lists)
      requires Settled() && Trimmed(was, pending)
      requires forall a :: a in was ==> Fit(was[a].items, Get(chain.nonces, a), Get(chain.balances, a), chain.maxGas)
      ensures forall a :: a in pending ==> FitPending(a)
    {
      hide Settled, Fit, LowPart;
      forall a | a in pending ensures FitPending(a) {
        PendingNotEmpty(a);
        FitTrimmed(was[a].items, pending[a].items, Get(chain.nonces, a), Get(chain.balances, a), chain.maxGas);
      }
    }
  }

  /** What adding a transaction does to the state `was` in which room has been made for it: it takes the place of the one
      known transaction with its account and nonce, if there is one. Only a pending one has a pending successor. */
  ghost predicate AddedTo(was: Pool, tx: Tx, r: AddResult, now: Pool) {
    && (r.Added? ==>
      && now.all == Others(was.all, tx)[tx.hash := tx] && (r.replaced <==> Others(was.all, tx) != was.all)
      && (Holds(now.q, tx) || (Holds(now.p, tx) && !Free(was.p, tx))))
    && (r == ReplaceUnderpriced ==> now.all == was.all)
  }

  /** Making at least the room that a new transaction lacks keeps the pool within its capacity. */
  lemma CapacityKept(all: Lookup, room: set<nat>, tx: Tx, capacity: nat)
    requires MapSum.Sum(SlotsOf(MapSum.Restrict(all, room)))
      >= MapSum.Sum(SlotsOf(all)) + tx.slots - capacity
    ensures MapSum.Sum(SlotsOf(Others(all - room, tx)[tx.hash := tx])) <= capacity
  {
    hide SlotsOf, Others;
    var left := all - room;
    SlotsSplit(all, room);
    OthersFewer(left, tx);
    SlotsUpdate(Others(left, tx), tx);
  }

  lemma SlotsSplit(all: Lookup, room: set<nat>)
    ensures MapSum.Sum(SlotsOf(all))
      == MapSum.Sum(SlotsOf(all - room)) + MapSum.Sum(SlotsOf(MapSum.Restrict(all, room)))
  {
    MapSum.SumSplit(SlotsOf(all), room);
    assert SlotsOf(all) - room == SlotsOf(all - room);
    assert MapSum.Restrict(SlotsOf(all), room) == SlotsOf(MapSum.Restrict(all, room));
  }

  lemma OthersFewer(all: Lookup, tx: Tx)
    ensures MapSum.Sum(SlotsOf(Others(all, tx))) <= MapSum.Sum(SlotsOf(all))
  {
    SlotsSplit(all, all.Keys - Others(all, tx).Keys);
    assert all - (all.Keys - Others(all, tx).Keys) == Others(all, tx);
  }

  lemma SlotsUpdate(all: Lookup, tx: Tx)
    ensures MapSum.Sum(SlotsOf(all[tx.hash := tx])) <= MapSum.Sum(SlotsOf(all)) + tx.slots
  {
    MapSum.SumUpdate(SlotsOf(all), tx.hash, tx.slots);
    assert SlotsOf(all[tx.hash := tx]) == SlotsOf(all)[tx.hash := tx.slots];
  }

  lemma AddedShrunk(was: Pool, mid: Pool, tx: Tx, r: AddResult, now: Pool)
    requires AddedTo(mid, tx, r, now) && Shrunk(was.p, mid.p)
    ensures AddedTo(was.(all := mid.all), tx, r, now)
  {
    if Free(was.p, tx) { ShrunkStays(was.p, mid.p, tx); }
  }

  lemma NothingAdded(was: Pool, with: Pool, tx: Tx, now: Pool)
    ensures AddedTo(with, tx, AlreadyKnown, now) && AddedTo(with, tx, Invalid, now)
    ensures AddedTo(with, tx, Underpriced, now) && AddedTo(with, tx, Overflow, now)
    ensures was.all - {} == was.all && Shrunk(was.p, was.p)
  {
  }

  datatype AddResult = Added(replaced: bool) | AlreadyKnown | Invalid | Underpriced | Overflow | ReplaceUnderpriced
}
