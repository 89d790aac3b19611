/** The steps of which the pool's operations are made: what each does to the pool's state, and that each keeps every
    transaction in one place. */
module PoolSteps {
  import opened Collections
  import opened TxLists
  import opened PoolState

  /** The pending and the queued lists, the lookup, and the transactions on their way. */
  datatype Pool = Pool(p: Lists, q: Lists, all: Lookup, floating: set<Tx>)

  /** Pending lists are strict, queued ones are not. */
  predicate Strictness(lists: Lists, strict: bool) {
    forall a :: a in lists ==> lists[a].strict == strict
  }

  ghost predicate Ok(s: Pool) {
    PoolOk(s.p, s.q, s.all, s.floating) && Strictness(s.p, true) && Strictness(s.q, false)
  }

  /** Into the queue, unless a better transaction has the nonce. */
  function Enqueue(s: Pool, tx: Tx, priceBump: nat): Pool {
    var l := ListOf(s.q, tx.sender, false);
    if !Accepts(l, tx, priceBump) then s
    else s.(q := s.q[tx.sender := Add(l, tx, priceBump)], all := s.all[tx.hash := tx] - Hashes(Replaced(l, tx)),
            floating := s.floating - {tx})
  }

  /** Into the pending list; a transaction that does not beat the one with its nonce is dropped. */
  function Promote(s: Pool, tx: Tx, priceBump: nat): Pool {
    var l := ListOf(s.p, tx.sender, true);
    if !Accepts(l, tx, priceBump) then s.(all := s.all - {tx.hash}, floating := s.floating - {tx})
    else s.(p := s.p[tx.sender := Add(l, tx, priceBump)], all := s.all[tx.hash := tx] - Hashes(Replaced(l, tx)),
            floating := s.floating - {tx})
  }

  function Dropped(s: Pool, items: Items): Pool {
    s.(all := s.all - Hashes(items), floating := s.floating - Values(items))
  }

  /** Transactions taken out of a pending list, which is deleted when nothing is left. */
  function TakePending(s: Pool, a: nat, l: TxList, moved: Items): Pool {
    s.(p := Store(s.p, a, l), floating := s.floating + Values(moved))
  }

  function TakeQueued(s: Pool, a: nat, l: TxList, moved: Items): Pool {
    s.(q := Store(s.q, a, l), floating := s.floating + Values(moved))
  }

  /** A list in the hands of an operation; an emptied one is no longer stored. */
  predicate IsListOf(lists: Lists, a: nat, l: TxList) {
    if a in lists then lists[a] == l else l.items == map[] && CapsOk(l)
  }

  /** `l` is what is left of `was` without `moved`. */
  predicate TakenOut(was: TxList, l: TxList, moved: Items) {
    && SubItems(moved, was.items) && l.items == was.items - moved.Keys && CapsOk(l) && l.strict == was.strict
  }

  /** On its way, and with a place for its nonce in both lists of its account. */
  predicate Movable(s: Pool, tx: Tx) {
    tx in s.floating && Free(s.p, tx) && Free(s.q, tx)
  }

  /** Some transactions of one account, all movable. */
  predicate AllMovable(s: Pool, a: nat, items: Items) {
    forall n :: n in items ==> items[n].nonce == n && items[n].sender == a && Movable(s, items[n])
  }

  // ---------- each step keeps the state ok ----------

  lemma DropOk(s: Pool, tx: Tx)
    requires Ok(s) && tx in s.floating
    ensures Ok(s.(all := s.all - {tx.hash}, floating := s.floating - {tx}))
  {
    Drop(s.p, s.q, s.all, s.floating, tx);
  }

  /** A transaction is or becomes known, and is on its way. */
  lemma EnterKnown(p: Lists, q: Lists, all: Lookup, floating: set<Tx>, tx: Tx)
    requires PoolOk(p, q, all, floating) && (tx in floating || tx.hash !in all)
    ensures PoolOk(p, q, all[tx.hash := tx], floating + {tx})
  {
    if tx in floating {
      assert all[tx.hash := tx] == all && floating + {tx} == floating;
    } else {
      Enter(p, q, all, floating, tx);
    }
  }

  /** The replaced transaction is another one, with another hash. */
  lemma OldIsOther(p: Lists, q: Lists, all: Lookup, floating: set<Tx>, strict: bool, tx: Tx)
    requires PoolOk(p, q, all, floating) && tx in floating
    ensures tx.hash !in Hashes(Replaced(ListOf(p, tx.sender, strict), tx))
  {
    var l := ListOf(p, tx.sender, strict);
    if tx.nonce in l.items {
      assert ListOk(p[tx.sender], tx.sender);
      var w := l.items[tx.nonce];
      assert Holds(p, w);
      ReplacedIs(l, tx);
    }
  }

  /** A known or new transaction settles. */
  lemma SettleNew(p: Lists, q: Lists, all: Lookup, floating: set<Tx>, strict: bool, tx: Tx, priceBump: nat)
    requires PoolOk(p, q, all, floating) && Free(q, tx) && (tx in floating || (tx.hash !in all && tx !in floating))
    requires Accepts(ListOf(p, tx.sender, strict), tx, priceBump)
    ensures var l := ListOf(p, tx.sender, strict);
      && PoolOk(p[tx.sender := Add(l, tx, priceBump)], q, all[tx.hash := tx] - Hashes(Replaced(l, tx)), floating - {tx})
      && tx.hash !in Hashes(Replaced(l, tx)) && (tx in floating ==> Known(all, tx))
  {
    var known := all[tx.hash := tx];
    EnterKnown(p, q, all, floating, tx);
    assert tx in floating ==> Known(all, tx);
    assert floating + {tx} - {tx} == floating - {tx};
    hide PoolOk, Accepts, Free;
    Settle(p, q, known, floating + {tx}, strict, tx, priceBump);
    OldIsOther(p, q, known, floating + {tx}, strict, tx);
  }

  lemma EnqueueOk(s: Pool, tx: Tx, priceBump: nat)
    requires Ok(s) && Free(s.p, tx) && (tx in s.floating || (tx.hash !in s.all && tx !in s.floating))
    requires Accepts(ListOf(s.q, tx.sender, false), tx, priceBump)
    ensures Ok(Enqueue(s, tx, priceBump)) && (tx in s.floating ==> Known(s.all, tx))
    ensures tx.hash !in Hashes(Replaced(ListOf(s.q, tx.sender, false), tx))
  {
    var s' := Enqueue(s, tx, priceBump);
    assert Strictness(s'.q, false);
    hide PoolOk, Accepts, Free, Strictness;
    Swap(s.p, s.q, s.all, s.floating);
    SettleNew(s.q, s.p, s.all, s.floating, false, tx, priceBump);
    Swap(s'.p, s'.q, s'.all, s'.floating);
  }

  lemma PromoteOk(s: Pool, tx: Tx, priceBump: nat)
    requires Ok(s) && Free(s.q, tx) && (tx in s.floating || (tx.hash !in s.all && tx !in s.floating))
    requires Accepts(ListOf(s.p, tx.sender, true), tx, priceBump)
    ensures Ok(Promote(s, tx, priceBump)) && (tx in s.floating ==> Known(s.all, tx))
    ensures tx.hash !in Hashes(Replaced(ListOf(s.p, tx.sender, true), tx))
  {
    var s' := Promote(s, tx, priceBump);
    assert Strictness(s'.p, true);
    hide PoolOk, Accepts, Free, Strictness;
    SettleNew(s.p, s.q, s.all, s.floating, true, tx, priceBump);
  }

  lemma TakePendingOk(s: Pool, a: nat, was: TxList, l: TxList, moved: Items)
    requires Ok(s) && IsListOf(s.p, a, was) && was.strict && TakenOut(was, l, moved)
    ensures var s' := TakePending(s, a, l, moved); Ok(s') && IsListOf(s'.p, a, l) && AllMovable(s', a, moved)
    ensures Values(moved) !! s.floating
  {
    var s' := TakePending(s, a, l, moved);
    if a in s.p {
      assert ListOk(s.p[a], a);
      TakeOk(s.p, s.q, s.all, s.floating, a, l, moved);
    } else {
      assert moved == map[] && l.items == map[];
      assert Values(moved) == {} && s' == s by { assert s.p - {a} == s.p && s.floating + {} == s.floating; }
    }
  }

  /** Taking transactions out of a list makes them movable. */
  lemma TakeOk(p: Lists, q: Lists, all: Lookup, floating: set<Tx>, a: nat, l: TxList, moved: Items)
    requires PoolOk(p, q, all, floating) && a in p && CapsOk(l)
    requires SubItems(moved, p[a].items) && l.items == p[a].items - moved.Keys
    ensures PoolOk(Store(p, a, l), q, all, floating + Values(moved)) && Values(moved) !! floating
    ensures forall n :: n in moved ==>
      moved[n].nonce == n && moved[n].sender == a && moved[n] in Values(moved) && Free(Store(p, a, l), moved[n])
    ensures forall n :: n in moved ==> Free(q, moved[n])
  {
    assert ListOk(p[a], a);
    Detach(p, q, all, floating, a, l, moved);
    forall n | n in moved ensures moved[n] in Values(moved) {
    }
    hide PoolOk, Free, Store;
  }

  lemma TakeQueuedOk(s: Pool, a: nat, was: TxList, l: TxList, moved: Items)
    requires Ok(s) && IsListOf(s.q, a, was) && !was.strict && TakenOut(was, l, moved)
    ensures var s' := TakeQueued(s, a, l, moved); Ok(s') && IsListOf(s'.q, a, l) && AllMovable(s', a, moved)
    ensures Values(moved) !! s.floating
  {
    var s' := TakeQueued(s, a, l, moved);
    if a in s.q {
      assert ListOk(s.q[a], a);
      assert IsListOf(s'.q, a, l) && Strictness(s'.q, false);
      Swap(s.p, s.q, s.all, s.floating);
      TakeOk(s.q, s.p, s.all, s.floating, a, l, moved);
      Swap(s'.p, s'.q, s'.all, s'.floating);
    } else {
      assert moved == map[] && l.items == map[];
      assert Values(moved) == {} && s' == s by { assert s.q - {a} == s.q && s.floating + {} == s.floating; }
    }
  }

  /** With the nonce free a transaction is accepted and replaces nothing; the others stay movable. */
  lemma EnqueueFree(s: Pool, a: nat, items: Items, n: nat, priceBump: nat)
    requires Ok(s) && AllMovable(s, a, items) && n in items
    ensures var s' := Enqueue(s, items[n], priceBump);
      && Accepts(ListOf(s.q, a, false), items[n], priceBump) && Replaced(ListOf(s.q, a, false), items[n]) == map[]
      && s'.all == s.all && s'.p == s.p && s'.floating == s.floating - {items[n]}
      && s'.q == s.q[a := s'.q[a]] && s'.q[a].items == ListOf(s.q, a, false).items[n := items[n]]
      && AllMovable(s', a, items - {n})
  {
    hide Ok, Replaces, CapsOk;
    var tx, l := items[n], ListOf(s.q, a, false);
    FreeReplacesNothing(l, tx, priceBump);
    MovableOne(s, a, items, n);
    FloatingKnown(s, tx);
    StillMovable(s, a, items, n, Enqueue(s, tx, priceBump), priceBump);
  }

  lemma PromoteFree(s: Pool, a: nat, items: Items, n: nat, priceBump: nat)
    requires Ok(s) && AllMovable(s, a, items) && n in items
    ensures var s' := Promote(s, items[n], priceBump);
      && Accepts(ListOf(s.p, a, true), items[n], priceBump) && Replaced(ListOf(s.p, a, true), items[n]) == map[]
      && s'.all == s.all && s'.q == s.q && s'.floating == s.floating - {items[n]}
      && s'.p == s.p[a := s'.p[a]] && s'.p[a].items == ListOf(s.p, a, true).items[n := items[n]]
      && AllMovable(s', a, items - {n})
  {
    hide Ok, Replaces, CapsOk;
    var tx, l := items[n], ListOf(s.p, a, true);
    FreeReplacesNothing(l, tx, priceBump);
    MovableOne(s, a, items, n);
    FloatingKnown(s, tx);
    StillMovable(s, a, items, n, Promote(s, tx, priceBump), priceBump);
  }

  lemma FreeReplacesNothing(l: TxList, tx: Tx, priceBump: nat)
    ensures tx.nonce !in l.items ==> Accepts(l, tx, priceBump) && Replaced(l, tx) == map[] && Hashes(Replaced(l, tx)) == {}
  {
  }

  lemma FloatingKnown(s: Pool, tx: Tx)
    requires Ok(s)
    ensures tx in s.floating ==> s.all[tx.hash := tx] - {} == s.all
  {
    hide ListsOk, Apart, Holds, Strictness;
  }

  /** What was movable beside a transaction still is when that one has settled. */
  lemma StillMovable(s: Pool, a: nat, items: Items, n: nat, s': Pool, priceBump: nat)
    requires AllMovable(s, a, items) && n in items && s'.floating == s.floating - {items[n]}
    requires (s'.p == s.p && s'.q == s.q[a := Add(ListOf(s.q, a, false), items[n], priceBump)])
      || (s'.q == s.q && s'.p == s.p[a := Add(ListOf(s.p, a, true), items[n], priceBump)])
    ensures AllMovable(s', a, items - {n})
  {
    hide Replaces;
    forall m | m in items - {n} ensures Movable(s', items[m]) {
      assert Movable(s, items[m]) && items[m].nonce == m && items[n].nonce == n;
    }
  }

  /** A transaction known to a settled pool is in just one list, and found there by its nonce. */
  lemma WhereKnown(s: Pool, hash: nat)
    requires Ok(s) && s.floating == {} && hash in s.all
    ensures var tx := s.all[hash];
      && tx.hash == hash && (Holds(s.p, tx) <==> !Free(s.p, tx)) && (Holds(s.q, tx) <==> !Free(s.q, tx))
      && (Holds(s.p, tx) <==> !Holds(s.q, tx))
  {
    hide Strictness, ListOk;
  }

  lemma WithOne(l: TxList, nonce: nat, invalids: Items)
    requires ItemsOk(l.items) && nonce in l.items && invalids == Stranded(l, One(l, nonce))
    ensures var moved := invalids[nonce := l.items[nonce]];
      && Values(moved) == Values(invalids) + {l.items[nonce]} && l.items[nonce] !in Values(invalids)
      && SubItems(moved, l.items) && Remove(l, nonce).items == l.items - moved.Keys
      && SubItems(invalids, moved)
  {
    var moved := invalids[nonce := l.items[nonce]];
    assert nonce !in invalids;
    ValuesAdd(invalids, nonce, l.items[nonce]);
    assert moved.Keys == {nonce} + invalids.Keys;
  }

  /** A pending transaction is removed, and what follows it is on its way to the queue. */
  lemma RemovePendingOk(s: Pool, a: nat, nonce: nat, invalids: Items)
    requires Ok(s) && a in s.p && nonce in s.p[a].items && invalids == Stranded(s.p[a], One(s.p[a], nonce))
    ensures var tx := s.p[a].items[nonce];
      var s' := Pool(Store(s.p, a, Remove(s.p[a], nonce)), s.q, s.all - {tx.hash}, s.floating + Values(invalids));
      Ok(s') && AllMovable(s', a, invalids)
  {
    hide Remove, Stranded, Ok, CapsOk, ListOk, Free, TakenOut, Store;
    var l, rest := s.p[a], Remove(s.p[a], nonce);
    var tx, moved := l.items[nonce], invalids[nonce := l.items[nonce]];
    PendingFacts(s, a, nonce);
    WithOne(l, nonce, invalids);
    LeftOver(l, rest, moved, nonce);
    TakePendingOk(s, a, l, rest, moved);
    var s1 := TakePending(s, a, rest, moved);
    assert tx in s1.floating && s1.floating - {tx} == s.floating + Values(invalids);
    assert AllMovable(s1, a, invalids);
    DropOk(s1, tx);
    forall n | n in invalids ensures invalids[n] != tx {
      assert invalids[n] in Values(invalids);
    }
  }

  lemma PendingFacts(s: Pool, a: nat, nonce: nat)
    requires Ok(s) && a in s.p && nonce in s.p[a].items
    ensures ListOk(s.p[a], a) && ItemsOk(s.p[a].items) && s.p[a].strict
    ensures s.p[a].items[nonce] !in s.floating && CapsOk(Remove(s.p[a], nonce))
  {
    assert ListOk(s.p[a], a);
    assert Holds(s.p, s.p[a].items[nonce]);
  }

  lemma LeftOver(l: TxList, rest: TxList, moved: Items, nonce: nat)
    requires rest == Remove(l, nonce) && SubItems(moved, l.items) && rest.items == l.items - moved.Keys && CapsOk(rest)
    ensures TakenOut(l, rest, moved)
  {
  }

  lemma RemoveQueuedOk(s: Pool, a: nat, nonce: nat)
    requires Ok(s) && a in s.q && nonce in s.q[a].items
    ensures var tx := s.q[a].items[nonce];
      Ok(Pool(s.p, Store(s.q, a, Remove(s.q[a], nonce)), s.all - {tx.hash}, s.floating))
  {
    var l := s.q[a];
    assert ListOk(l, a);
    var tx, none: Items := l.items[nonce], map[];
    assert none == Stranded(l, One(l, nonce));
    WithOne(l, nonce, none);
    CapsKept(l, tx, 0, 0, nonce);
    hide Remove, Stranded;
    TakeQueuedOk(s, a, l, Remove(l, nonce), none[nonce := tx]);
    var s1 := TakeQueued(s, a, Remove(l, nonce), none[nonce := tx]);
    assert Holds(s.q, tx);
    assert tx in s1.floating && s1.floating - {tx} == s.floating by { NoItems(); }
    DropOk(s1, tx);
  }

  /** A transaction has left the pool: what follows a pending one is in the queue again. */
  ghost predicate RemovedFrom(was: Pool, hash: nat, now: Pool) {
    && now.all == was.all - {hash} && now.floating == was.floating
    && if hash !in was.all then now == was
       else
         var tx := was.all[hash];
         var a := tx.sender;
         if Holds(was.p, tx) then
           && now.p == Store(was.p, a, Remove(was.p[a], tx.nonce))
           && Grown(was.q, a, Stranded(was.p[a], One(was.p[a], tx.nonce)), false, now.q)
         else
           now.p == was.p && a in was.q && now.q == Store(was.q, a, Remove(was.q[a], tx.nonce))
  }

  /** What `RemovedFrom` asks, for a queued transaction. */
  lemma QueuedGone(s: Pool, tx: Tx)
    requires Ok(s) && s.floating == {} && Known(s.all, tx) && Holds(s.q, tx) && !Holds(s.p, tx)
    ensures var s' := s.(q := Store(s.q, tx.sender, Remove(s.q[tx.sender], tx.nonce)), all := s.all - {tx.hash});
      Ok(s') && RemovedFrom(s, tx.hash, s')
  {
    RemoveQueuedOk(s, tx.sender, tx.nonce);
  }

  /** What `RemovedFrom` asks, for a pending transaction. */
  lemma PendingGone(s: Pool, tx: Tx, invalids: Items, s': Pool)
    requires Known(s.all, tx) && Holds(s.p, tx) && invalids == Stranded(s.p[tx.sender], One(s.p[tx.sender], tx.nonce))
    requires s.floating == {} && s'.floating == {} + Values(invalids) - Values(invalids)
    requires s'.p == Store(s.p, tx.sender, Remove(s.p[tx.sender], tx.nonce)) && s'.all == s.all - {tx.hash}
    requires Grown(s.q, tx.sender, invalids, false, s'.q)
    ensures RemovedFrom(s, tx.hash, s') && s'.floating == {}
  {
    hide Grown, Stranded, Values, Store, Remove;
  }

  /** A queued transaction is known, and not pending. */
  lemma QueuedFacts(s: Pool, a: nat, n: nat)
    requires Ok(s) && a in s.q && n in s.q[a].items
    ensures var tx := s.q[a].items[n];
      tx.nonce == n && tx.sender == a && Known(s.all, tx) && !Holds(s.p, tx) && !s.q[a].strict
  {
    assert ListOk(s.q[a], a);
    assert Holds(s.q, s.q[a].items[n]);
  }

  lemma RemovedQueued(s: Pool, tx: Tx, now: Pool)
    requires RemovedFrom(s, tx.hash, now) && Known(s.all, tx) && !Holds(s.p, tx) && tx.sender in s.q && !s.q[tx.sender].strict
    ensures now.p == s.p && now.q - {tx.sender} == s.q - {tx.sender}
    ensures ListOf(now.q, tx.sender, false).items == s.q[tx.sender].items - {tx.nonce}
    ensures tx.sender in now.q <==> s.q[tx.sender].items - {tx.nonce} != map[]
  {
    var l := s.q[tx.sender];
    assert Remove(l, tx.nonce).items == l.items - {tx.nonce};
  }

  lemma HeldThere(lists: Lists, tx: Tx)
    requires Holds(lists, tx)
    ensures tx.sender in lists && tx.nonce in lists[tx.sender].items && lists[tx.sender].items[tx.nonce] == tx
  {
  }

  lemma StoreKeys(lists: Lists, a: nat, l: TxList)
    ensures Store(lists, a, l).Keys == if l.items == map[] then lists.Keys - {a} else lists.Keys + {a}
  {
  }

  /** The known transactions but the one with this account and nonce. */
  function Others(all: Lookup, tx: Tx): Lookup {
    map h | h in all && !(all[h].sender == tx.sender && all[h].nonce == tx.nonce) :: all[h]
  }

  /** At most one transaction of an account and nonce is known: the one a new transaction replaces. */
  lemma QueueReplaces(s: Pool, tx: Tx)
    requires Ok(s) && s.floating == {} && Free(s.p, tx)
    ensures Others(s.all, tx) == s.all - Hashes(Replaced(ListOf(s.q, tx.sender, false), tx))
    ensures Free(s.q, tx) <==> Others(s.all, tx) == s.all
  {
    hide PoolOk, Strictness;
    Swap(s.p, s.q, s.all, s.floating);
    ReplacesOne(s.q, s.p, s.all, s.floating, false, tx);
  }

  lemma PendingReplaces(s: Pool, tx: Tx)
    requires Ok(s) && s.floating == {} && !Free(s.p, tx)
    ensures Free(s.q, tx) && Others(s.all, tx) == s.all - Hashes(Replaced(ListOf(s.p, tx.sender, true), tx))
    ensures Others(s.all, tx) != s.all
  {
    assert Apart(s.p, s.q);
    ReplacesOne(s.p, s.q, s.all, s.floating, true, tx);
  }

  lemma ReplacesOne(p: Lists, q: Lists, all: Lookup, floating: set<Tx>, strict: bool, tx: Tx)
    requires PoolOk(p, q, all, floating) && floating == {} && Free(q, tx)
    ensures Others(all, tx) == all - Hashes(Replaced(ListOf(p, tx.sender, strict), tx))
    ensures Free(p, tx) <==> Others(all, tx) == all
  {
    hide PoolOk, Holds, Known;
    var l, gone := ListOf(p, tx.sender, strict), Hashes(Replaced(ListOf(p, tx.sender, strict), tx));
    if Free(p, tx) {
      NothingReplaced(l, tx, all);
      forall h | h in all ensures !(all[h].sender == tx.sender && all[h].nonce == tx.nonce) {
        PlaceOf(p, q, all, h, tx);
        if all[h].sender == tx.sender && all[h].nonce == tx.nonce { HeldThere(p, all[h]); }
      }
      assert Others(all, tx) == all;
    } else {
      ReplacedIs(l, tx);
      HeldKnown(p, q, all, floating, tx);
      var w := p[tx.sender].items[tx.nonce];
      KnownIs(all, w);
      forall h | h in all ensures h == w.hash <==> all[h].sender == tx.sender && all[h].nonce == tx.nonce {
        PlaceOf(p, q, all, h, tx);
        if all[h].sender == tx.sender && all[h].nonce == tx.nonce { HeldThere(p, all[h]); }
      }
      assert Others(all, tx) == all - {w.hash};
    }
  }

  lemma KnownIs(all: Lookup, tx: Tx)
    requires Known(all, tx)
    ensures tx.hash in all && all[tx.hash] == tx
  {
  }

  lemma PlaceOf(p: Lists, q: Lists, all: Lookup, h: nat, tx: Tx)
    requires PoolOk(p, q, all, {}) && h in all && Free(q, tx)
    ensures all[h].hash == h
    ensures all[h].sender == tx.sender && all[h].nonce == tx.nonce ==> Holds(p, all[h])
  {
    hide ListsOk, Apart, Known;
  }

  /** A known transaction with this account and nonce is not beaten. */
  ghost predicate Refused(all: Lookup, tx: Tx, priceBump: nat) {
    exists h :: h in all && all[h].sender == tx.sender && all[h].nonce == tx.nonce && !Replaces(tx, all[h], priceBump)
  }

  /** Wherever that transaction is, the list there is the one that refuses. */
  lemma RefusedIs(s: Pool, tx: Tx, priceBump: nat)
    requires Ok(s) && s.floating == {}
    ensures Refused(s.all, tx, priceBump) <==>
      !Accepts(if Free(s.p, tx) then ListOf(s.q, tx.sender, false) else ListOf(s.p, tx.sender, true), tx, priceBump)
  {
    hide Strictness, Replaces;
    var l := if Free(s.p, tx) then ListOf(s.q, tx.sender, false) else ListOf(s.p, tx.sender, true);
    if !Accepts(l, tx, priceBump) {
      TheOneThere(s, tx);
    }
    forall h | h in s.all && s.all[h].sender == tx.sender && s.all[h].nonce == tx.nonce
      ensures tx.nonce in l.items && l.items[tx.nonce] == s.all[h]
    {
      WhereKnown(s, h);
    }
  }

  lemma TheOneThere(s: Pool, tx: Tx)
    requires Ok(s) && s.floating == {}
    requires !Free(s.p, tx) || !Free(s.q, tx)
    ensures var w := (if Free(s.p, tx) then s.q else s.p)[tx.sender].items[tx.nonce];
      w.sender == tx.sender && w.nonce == tx.nonce && Known(s.all, w)
  {
    if Free(s.p, tx) {
      Swap(s.p, s.q, s.all, s.floating);
      HeldKnown(s.q, s.p, s.all, s.floating, tx);
    } else {
      HeldKnown(s.p, s.q, s.all, s.floating, tx);
    }
  }

  lemma NotHeld(s: Pool, tx: Tx)
    requires Ok(s) && tx.hash !in s.all
    ensures !Holds(s.p, tx) && !Holds(s.q, tx)
  {
  }

  lemma HeldKnown(p: Lists, q: Lists, all: Lookup, floating: set<Tx>, tx: Tx)
    requires PoolOk(p, q, all, floating) && !Free(p, tx)
    ensures var w := p[tx.sender].items[tx.nonce]; w.sender == tx.sender && w.nonce == tx.nonce && Known(all, w)
  {
    assert ListOk(p[tx.sender], tx.sender);
    assert Holds(p, p[tx.sender].items[tx.nonce]);
  }

  lemma SetOfNext(hashes: seq<nat>, i: nat)
    requires i < |hashes|
    ensures SetOf(hashes[..i + 1]) == SetOf(hashes[..i]) + {hashes[i]}
  {
    assert hashes[..i + 1] == hashes[..i] + [hashes[i]];
  }

  /** No list has gained a nonce. */
  predicate Shrunk(was: Lists, now: Lists) {
    forall a :: a in now ==> a in was && now[a].items.Keys <= was[a].items.Keys
  }

  lemma ShrunkSelf(lists: Lists)
    ensures Shrunk(lists, lists)
  {
  }

  lemma ShrunkStays(was: Lists, now: Lists, tx: Tx)
    requires Shrunk(was, now) && Free(was, tx)
    ensures Free(now, tx)
  {
  }

  lemma RemovedShrinks(was: Lists, s: Pool, hash: nat, now: Pool)
    requires Shrunk(was, s.p) && RemovedFrom(s, hash, now)
    ensures Shrunk(was, now.p)
  {
    hide Grown, Stranded, One;
  }

  lemma NotYet(s: seq<nat>, i: nat)
    requires Distinct(s) && i < |s|
    ensures s[i] !in SetOf(s[..i])
  {
  }

  /** Which known transactions are held as local ones after adding one: it is if it was added as one, those of a new local
      account are, and the others are as before. */
  ghost predicate OwnedAfter(was: set<nat>, tx: Tx, isLocal: bool, added: bool, newLocals: set<nat>, all: Lookup,
                             now: set<nat>)
  {
    forall h :: h in all ==> (h in now <==> if added && h == tx.hash then isLocal else h in was || all[h].sender in newLocals)
  }

  lemma NotAdded(owned: set<nat>, tx: Tx, isLocal: bool, all: Lookup)
    ensures OwnedAfter(owned, tx, isLocal, false, {}, all, owned)
  {
  }

  lemma FreeNotHeld(lists: Lists, tx: Tx)
    requires Free(lists, tx)
    ensures !Holds(lists, tx)
  {
  }

  lemma AddHolds(lists: Lists, l: TxList, tx: Tx, priceBump: nat)
    requires Accepts(l, tx, priceBump)
    ensures Holds(lists[tx.sender := Add(l, tx, priceBump)], tx)
  {
  }

  lemma AddKnown(all: Lookup, gone: set<nat>, tx: Tx)
    requires tx.hash !in gone
    ensures all[tx.hash := tx] - gone == (all - gone)[tx.hash := tx]
  {
  }

  // ---------- going through some transactions ----------

  /** `items` is what is done and what is still to do. */
  predicate Parted(items: Items, done: Items, todo: Items) {
    && SubItems(todo, items) && SubItems(done, items) && todo.Keys !! done.Keys && items.Keys == todo.Keys + done.Keys
  }

  lemma PartedStart(items: Items)
    ensures Parted(items, map[], items) && AllBelow(map[], items)
  {
  }

  lemma PartedDone(items: Items, done: Items, todo: Items)
    requires Parted(items, done, todo) && todo.Keys == {}
    ensures done == items
  {
  }

  lemma NoItems()
    ensures Values(map[]) == {} && Hashes(map[]) == {}
  {
  }

  lemma NextItem(items: Items, done: Items, todo: Items, n: nat)
    requires ItemsOk(items) && Parted(items, done, todo) && n in todo
    ensures n in items && n !in done && todo[n] == items[n] && todo[n] in Values(todo)
    ensures Parted(items, done[n := items[n]], todo - {n}) && (todo - {n}).Keys == todo.Keys - {n}
    ensures Values(done[n := items[n]]) == Values(done) + {items[n]}
    ensures Hashes(done[n := items[n]]) == Hashes(done) + {items[n].hash}
    ensures Values(todo - {n}) == Values(todo) - {items[n]}
  {
    ValuesAdd(done, n, items[n]);
    ValuesLess(todo, n);
  }

  lemma ValuesAdd(done: Items, n: nat, tx: Tx)
    requires n !in done
    ensures Values(done[n := tx]) == Values(done) + {tx}
    ensures Hashes(done[n := tx]) == Hashes(done) + {tx.hash}
  {
    var d := done[n := tx];
    forall m | m in done ensures done[m] in Values(d) && done[m].hash in Hashes(d) {
      assert m in d && d[m] == done[m];
    }
    assert n in d && d[n] == tx;
  }

  lemma ValuesLess(todo: Items, n: nat)
    requires ItemsOk(todo) && n in todo
    ensures todo[n] in Values(todo) && Values(todo - {n}) == Values(todo) - {todo[n]}
  {
    forall m | m in todo && m != n ensures todo[m] in Values(todo - {n}) && todo[m] != todo[n] {
      assert m in todo - {n} && (todo - {n})[m] == todo[m];
    }
  }

  lemma MovableItems(s: Pool, a: nat, items: Items)
    requires AllMovable(s, a, items)
    ensures ItemsOk(items) && Values(items) <= s.floating
  {
  }

  /** One account's list has gained some transactions; the other lists are as they were. */
  predicate Grown(was: Lists, a: nat, items: Items, strict: bool, now: Lists) {
    ListOf(now, a, strict).items == ListOf(was, a, strict).items + items && now - {a} == was - {a}
  }

  lemma GrownNone(lists: Lists, a: nat, strict: bool)
    ensures Grown(lists, a, map[], strict, lists)
  {
    assert ListOf(lists, a, strict).items + map[] == ListOf(lists, a, strict).items;
  }

  lemma GrownOne(was: Lists, a: nat, done: Items, n: nat, tx: Tx, strict: bool, mid: Lists, now: Lists)
    requires Grown(was, a, done, strict, mid)
    requires a in now && now == mid[a := now[a]] && now[a].items == ListOf(mid, a, strict).items[n := tx]
    ensures Grown(was, a, done[n := tx], strict, now)
  {
    assert ListOf(was, a, strict).items + done[n := tx] == (ListOf(was, a, strict).items + done)[n := tx];
    assert now - {a} == mid - {a};
  }

  // ---------- the lookup's part of a step ----------

  lemma ReplacedHash(l: TxList, tx: Tx)
    requires Replaced(l, tx) != map[]
    ensures tx.nonce in l.items && Hashes(Replaced(l, tx)) == {l.items[tx.nonce].hash}
  {
    assert Replaced(l, tx).Keys != {};
    ReplacedIs(l, tx);
  }

  lemma NothingReplaced(l: TxList, tx: Tx, all: Lookup)
    requires Replaced(l, tx) == map[] || tx.nonce !in l.items
    ensures Replaced(l, tx) == map[]
    ensures Hashes(Replaced(l, tx)) == {} && all - Hashes(Replaced(l, tx)) == all
  {
    assert all - {} == all;
  }

  lemma KnownAfter(was: Lookup, now: Lookup, known: Lookup, gone: set<nat>, tx: Tx, added: bool)
    requires known == was[tx.hash := tx] && tx.hash !in gone
    requires now == if added then (was - gone)[tx.hash := tx] else was - gone
    requires !added ==> Known(was, tx)
    ensures now == known - gone
  {
  }

  // ---------- what the list operations take out ----------

  lemma ForwardTakes(l: TxList, threshold: nat)
    requires CapsOk(l)
    ensures TakenOut(l, Forward(l, threshold), Below(l.items, threshold)) && CapsOk(Forward(l, threshold))
  {
  }

  lemma FilterTakes(l: TxList, costLimit: nat, gasLimit: nat)
    requires CapsOk(l)
    ensures var (removed, invalids, rest) := Filtered(l, costLimit, gasLimit);
      && TakenOut(l, rest, removed + invalids) && CapsOk(rest) && removed.Keys !! invalids.Keys
      && (!l.strict ==> invalids == map[] && TakenOut(l, rest, removed))
  {
    var (removed, invalids, rest) := Filtered(l, costLimit, gasLimit);
    FilterIsNaive(l, costLimit, gasLimit);
    assert (removed + invalids).Keys == removed.Keys + invalids.Keys;
    assert rest.items == l.items - (removed + invalids).Keys;
    if !l.strict { assert removed + invalids == removed; }
  }

  lemma RestTaken(l: TxList, rest: TxList, moved: Items)
    requires CapsOk(l) && SubItems(moved, l.items) && rest == l.(items := l.items - moved.Keys)
    ensures TakenOut(l, rest, moved) && CapsOk(rest)
  {
  }

  lemma ListIs(lists: Lists, a: nat, l: TxList)
    requires IsListOf(lists, a, l)
    ensures ListOf(lists, a, true).items == l.items && ListOf(lists, a, false).items == l.items
    ensures l.items - {} == l.items && l.items - l.items.Keys == map[]
  {
  }

  lemma KeysSame(was: Lists, a: nat, l: TxList, now: Lists, rest: TxList)
    requires a in was && IsListOf(now, a, rest) && rest.items != map[] && now - {a} == was - {a}
    ensures now.Keys == was.Keys && now[a] == rest
  {
    assert forall b :: b in now <==> b == a || b in now - {a};
    assert forall b :: b in was <==> b == a || b in was - {a};
  }

  lemma OthersSame(was: Lists, a: nat, now: Lists)
    requires now - {a} == was - {a}
    ensures forall b :: b != a ==> (b in now <==> b in was) && (b in now ==> now[b] == was[b])
    ensures now.Keys + {a} == was.Keys + {a}
  {
    forall b | b != a ensures (b in now <==> b in was) && (b in now ==> now[b] == was[b]) {
      assert b in now - {a} <==> b in was - {a};
      if b in now { assert (now - {a})[b] == (was - {a})[b]; }
    }
  }

  lemma StoreOther(lists: Lists, a: nat, l: TxList)
    ensures Store(lists, a, l) - {a} == lists - {a}
  {
  }

  /** How far a pending nonce has moved: to the one after the last of some transactions. */
  ghost predicate Advanced(was: nat, items: Items, now: nat) {
    if items == map[] then now == was else now > 0 && now - 1 in items && forall n :: n in items ==> n < now
  }

  lemma AdvancedNone(n: nat)
    ensures Advanced(n, map[], n)
  {
  }

  lemma MovableOne(s: Pool, a: nat, items: Items, n: nat)
    requires AllMovable(s, a, items) && n in items
    ensures items[n].nonce == n && items[n].sender == a && Movable(s, items[n])
  {
  }

  lemma QueuedKeys(lists: Lists, a: nat, was: TxList, l: TxList, moved: Items)
    requires IsListOf(lists, a, was) && TakenOut(was, l, moved)
    ensures Store(lists, a, l).Keys <= lists.Keys
  {
  }

  lemma AdvancedOne(was: nat, done: Items, todo: Items, n: nat, mid: nat)
    requires Advanced(was, done, mid) && n in todo && n !in done && AllBelow(done, todo)
    requires forall m :: m in todo ==> n <= m
    ensures Advanced(was, done[n := todo[n]], n + 1) && AllBelow(done[n := todo[n]], todo - {n})
  {
  }

  // ---------- promotion and demotion of an account ----------

  /** A list without what is too old or costs too much. */
  function Payable(l: TxList, nonce: nat, balance: nat, maxGas: nat): TxList {
    Filtered(Forward(l, nonce), balance, maxGas).2
  }

  /** What promotion makes of a queued list: the ready transactions are promoted; what is too old or costs too much is
      dropped, and so are the highest nonces beyond the limit, if there is one. */
  ghost predicate PromotedFrom(was: TxList, payable: TxList, start: nat, limit: Option<nat>,
                               promoted: Items, dropped: Items, left: Items) {
    && promoted.Keys == ReadyNonces(payable.items, start) && SubItems(promoted, payable.items)
    && (if limit.None? then left == payable.items - promoted.Keys
        else IsLowest(payable.items - promoted.Keys, limit.value, left))
    && SubItems(dropped, was.items) && dropped.Keys == was.items.Keys - promoted.Keys - left.Keys
  }

  lemma HashesUnion(all: Lookup, one: Items, other: Items)
    requires one.Keys !! other.Keys
    ensures all - Hashes(one) - Hashes(other) == all - Hashes(one + other)
  {
    forall h ensures h in Hashes(one + other) <==> h in Hashes(one) || h in Hashes(other) {
      if h in Hashes(one) {
        var n :| n in one && one[n].hash == h;
        assert n in one + other && (one + other)[n] == one[n];
      }
      if h in Hashes(other) {
        var n :| n in other && other[n].hash == h;
        assert n in one + other && (one + other)[n] == other[n];
      }
    }
  }

  /** Taking out in two steps. */
  lemma TakenTwice(was: TxList, mid: TxList, l: TxList, one: Items, other: Items)
    requires TakenOut(was, mid, one) && TakenOut(mid, l, other)
    ensures one.Keys !! other.Keys && TakenOut(was, l, one + other)
    ensures (one + other).Keys == one.Keys + other.Keys
  {
    assert (one + other).Keys == one.Keys + other.Keys;
  }

  lemma PromotionDone(was: TxList, l1: TxList, start: nat, limit: Option<nat>, l2: TxList, readies: Items, drops: Items,
                      caps: Items, lists: Lists, a: nat, l3: TxList, all: Lookup)
    requires TakenOut(was, l1, drops) && TakenOut(l2, l3, caps) && IsListOf(lists, a, l3)
    requires readies.Keys == ReadyNonces(l1.items, start) && SubItems(readies, l1.items)
    requires l2 == l1.(items := l1.items - readies.Keys)
    requires if limit.None? then l3 == l2 else IsLowest(l2.items, limit.value, l3.items)
    ensures PromotedFrom(was, l1, start, limit, readies, drops + caps, ListOf(lists, a, false).items)
    ensures all - Hashes(drops) - Hashes(caps) == all - Hashes(drops + caps)
  {
    hide ReadyNonces, IsLowest;
    HashesUnion(all, drops, caps);
    assert (drops + caps).Keys == drops.Keys + caps.Keys;
    assert ListOf(lists, a, false).items == l3.items;
  }

  /** What is older than the nonce or costs too much. */
  function Unusable(items: Items, nonce: nat, balance: nat, maxGas: nat): Items {
    map n | n in items && (n < nonce || TooCostly(items[n], balance, maxGas)) :: items[n]
  }

  /** What demotion makes of a pending list: what is unusable is dropped, what remains pending is a list that starts at
      the account's nonce, and the rest is in the queue again. */
  ghost predicate DemotedFrom(was: Pool, a: nat, nonce: nat, balance: nat, maxGas: nat, now: Pool)
    requires a in was.p
  {
    var items, payable := was.p[a].items, Payable(was.p[a], nonce, balance, maxGas).items;
    var left := ListOf(now.p, a, true).items;
    && now.all == was.all - Hashes(Unusable(items, nonce, balance, maxGas))
    && left == (if nonce in payable then payable else map[])
    && Grown(was.q, a, items - Unusable(items, nonce, balance, maxGas).Keys - left.Keys, false, now.q)
  }

  lemma FilterParts(l: TxList, costLimit: nat, gasLimit: nat)
    requires CapsOk(l)
    ensures var (removed, invalids, rest) := Filtered(l, costLimit, gasLimit);
      var mid := l.(items := l.items - removed.Keys);
      && CapsOk(mid) && TakenOut(l, mid, removed) && TakenOut(mid, rest, invalids) && CapsOk(rest)
  {
    FilterIsNaive(l, costLimit, gasLimit);
  }

  lemma DemotionSub(l: TxList, nonce: nat, balance: nat, maxGas: nat)
    requires CapsOk(l)
    ensures var (removed, invalids, rest) := Filtered(Forward(l, nonce), balance, maxGas);
      SubItems(invalids, l.items) && SubItems(rest.items, l.items)
  {
    FilterIsNaive(Forward(l, nonce), balance, maxGas);
  }

  lemma GrownTwice(was: Lists, a: nat, one: Items, other: Items, strict: bool, mid: Lists, now: Lists)
    requires Grown(was, a, one, strict, mid) && Grown(mid, a, other, strict, now)
    ensures Grown(was, a, one + other, strict, now)
  {
    var l := ListOf(was, a, strict).items;
    assert l + (one + other) == l + one + other;
  }

  /** The parts into which demotion splits a list. */
  lemma DemotionParts(l: TxList, nonce: nat, balance: nat, maxGas: nat)
    requires CapsOk(l)
    ensures var (removed, invalids, rest) := Filtered(Forward(l, nonce), balance, maxGas);
      var olds, gone := Below(l.items, nonce), Unusable(l.items, nonce, balance, maxGas);
      && olds.Keys !! removed.Keys && olds + removed == gone
      && l.items - gone.Keys - rest.items.Keys == invalids
      && l.items - gone.Keys == invalids + rest.items
  {
    hide Filtered, Forward, Below, Unusable, Stranded;
    var (removed, invalids, rest) := Filtered(Forward(l, nonce), balance, maxGas);
    UnusableIs(l, nonce, balance, maxGas);
    StrandedSub(Forward(l, nonce), removed);
    FilterIsNaive(Forward(l, nonce), balance, maxGas);
    PartsOf(l.items, Below(l.items, nonce), removed, invalids, rest.items);
  }

  lemma UnusableIs(l: TxList, nonce: nat, balance: nat, maxGas: nat)
    requires CapsOk(l)
    ensures var (olds, rest) := (Below(l.items, nonce), Forward(l, nonce));
      && Unusable(l.items, nonce, balance, maxGas) == olds + Costly(rest.items, balance, maxGas)
      && CapsOk(rest) && SubItems(olds, l.items) && rest.items == l.items - olds.Keys
      && SubItems(Costly(rest.items, balance, maxGas), rest.items)
  {
  }

  lemma StrandedSub(l: TxList, removed: Items)
    ensures SubItems(Stranded(l, removed), l.items)
  {
  }

  lemma PartsOf(items: Items, olds: Items, removed: Items, invalids: Items, rest: Items)
    requires SubItems(olds, items) && SubItems(removed, items - olds.Keys) && SubItems(invalids, items - olds.Keys)
    requires removed.Keys !! invalids.Keys && rest == items - olds.Keys - removed.Keys - invalids.Keys
    ensures var gone := olds + removed;
      olds.Keys !! removed.Keys && items - gone.Keys - rest.Keys == invalids && items - gone.Keys == invalids + rest
  {
    var gone := olds + removed;
    assert gone.Keys == olds.Keys + removed.Keys;
    forall n | n in items - gone.Keys ensures n in invalids + rest && (invalids + rest)[n] == items[n] {
      assert n in items - olds.Keys;
    }
  }

  lemma DemotionDone(was: Pool, a: nat, nonce: nat, balance: nat, maxGas: nat, gapped: Items, q1: Lists, now: Pool)
    requires a in was.p && CapsOk(was.p[a])
    requires var l := was.p[a];
      var (removed, invalids, rest) := Filtered(Forward(l, nonce), balance, maxGas);
      && now.all == was.all - Hashes(Below(l.items, nonce)) - Hashes(removed)
      && gapped == (if nonce in rest.items then map[] else rest.items)
      && Grown(was.q, a, invalids, false, q1) && Grown(q1, a, gapped, false, now.q)
      && ListOf(now.p, a, true).items == rest.items - gapped.Keys
    ensures DemotedFrom(was, a, nonce, balance, maxGas, now)
  {
    hide Filtered, Forward, Below, Unusable, Hashes, Grown, ListOf, CapsOk;
    var l := was.p[a];
    var (removed, invalids, rest) := Filtered(Forward(l, nonce), balance, maxGas);
    DemotionParts(l, nonce, balance, maxGas);
    HashesUnion(was.all, Below(l.items, nonce), removed);
    GrownTwice(was.q, a, invalids, gapped, false, q1, now.q);
    if nonce in rest.items {
      assert rest.items - gapped.Keys == rest.items && invalids + gapped == invalids;
    } else {
      assert rest.items - gapped.Keys == map[];
      var usable := l.items - Unusable(l.items, nonce, balance, maxGas).Keys;
      var left: Items := map[];
      assert usable - left.Keys == usable;
    }
  }

  /** A queue after promotion: nothing in it is unusable or could be executed next, and it respects the limit. */
  predicate Tidy(items: Items, nonce: nat, balance: nat, maxGas: nat, next: nat, limit: Option<nat>) {
    && (forall n :: n in items ==> n >= nonce && !TooCostly(items[n], balance, maxGas) && n > next)
    && (limit.Some? ==> |items| <= limit.value)
  }

  lemma PayableIs(l: TxList, nonce: nat, balance: nat, maxGas: nat)
    requires CapsOk(l)
    ensures SubItems(Payable(l, nonce, balance, maxGas).items, l.items)
    ensures var items := Payable(l, nonce, balance, maxGas).items;
      forall n :: n in items ==> n >= nonce && !TooCostly(items[n], balance, maxGas)
  {
    var f := Forward(l, nonce);
    FilterIsNaive(f, balance, maxGas);
    var rest := Payable(l, nonce, balance, maxGas).items;
    forall n | n in rest ensures !TooCostly(rest[n], balance, maxGas) {
      assert n !in Costly(rest, balance, maxGas);
    }
  }

  lemma LeftIn(was: TxList, payable: TxList, start: nat, limit: Option<nat>, promoted: Items, dropped: Items, left: Items)
    requires PromotedFrom(was, payable, start, limit, promoted, dropped, left)
    ensures promoted.Keys == ReadyNonces(payable.items, start) && SubItems(left, payable.items)
    ensures promoted.Keys !! left.Keys && (limit.Some? ==> |left| <= limit.value)
  {
    hide ReadyNonces, SubItems, IsLowest;
    var rest := payable.items - promoted.Keys;
    if limit.Some? { LowestIn(rest, limit.value, left); } else { AllIn(left); }
    MinusSub(payable.items, promoted.Keys, left);
  }

  lemma LowestIn(items: Items, k: nat, kept: Items)
    requires IsLowest(items, k, kept)
    ensures SubItems(kept, items) && |kept| <= k
  {
  }

  lemma AllIn(items: Items)
    ensures SubItems(items, items)
  {
  }

  lemma MinusSub(items: Items, gone: set<nat>, left: Items)
    requires SubItems(left, items - gone)
    ensures SubItems(left, items) && gone !! left.Keys
  {
  }

  lemma AdvancedIs(was: nat, items: Items, now: nat)
    requires Advanced(was, items, now)
    ensures if items.Keys == {} then now == was
      else now > 0 && now - 1 in items.Keys && forall m :: m in items.Keys ==> m < now
  {
  }

  lemma PromotedTidy(was: TxList, nonce: nat, balance: nat, maxGas: nat, start: nat, limit: Option<nat>, promoted: Items,
                     dropped: Items, left: Items, next: nat)
    requires CapsOk(was) && Advanced(start, promoted, next)
    requires PromotedFrom(was, Payable(was, nonce, balance, maxGas), start, limit, promoted, dropped, left)
    ensures Tidy(left, nonce, balance, maxGas, next, limit)
  {
    hide Payable, ReadyNonces, TooCostly, PromotedFrom, CapsOk, Advanced;
    PayableIs(was, nonce, balance, maxGas);
    var payable := Payable(was, nonce, balance, maxGas);
    var items := payable.items;
    LeftIn(was, payable, start, limit, promoted, dropped, left);
    AdvancedIs(start, promoted, next);
    forall n | n in left ensures n > next {
      NothingReadyLeft(items, start, promoted.Keys, next, n);
    }
  }

  /** A pending list as demotion leaves it: from the account's nonce on, and all of it usable. */
  predicate Fit(items: Items, nonce: nat, balance: nat, maxGas: nat) {
    nonce in items && forall n :: n in items ==> n >= nonce && !TooCostly(items[n], balance, maxGas)
  }

  lemma DemotedFit(was: Pool, a: nat, nonce: nat, balance: nat, maxGas: nat, now: Pool)
    requires a in was.p && CapsOk(was.p[a]) && DemotedFrom(was, a, nonce, balance, maxGas, now)
    ensures a in now.p && now.p[a].items != map[] ==> Fit(now.p[a].items, nonce, balance, maxGas)
  {
    hide Payable, Unusable, Grown, TooCostly;
    PayableIs(was.p[a], nonce, balance, maxGas);
  }
}
