/** Where the pool's transactions are: every known one in exactly one list, or, within an operation, on its way. */
module PoolState {
  import opened TxLists

  type Lists = map<nat, TxList>

  type Lookup = map<nat, Tx>

  predicate Holds(lists: Lists, tx: Tx) {
    tx.sender in lists && tx.nonce in lists[tx.sender].items && lists[tx.sender].items[tx.nonce] == tx
  }

  /** No transaction of this sender and nonce is in these lists. */
  predicate Free(lists: Lists, tx: Tx) {
    tx.sender in lists ==> tx.nonce !in lists[tx.sender].items
  }

  predicate ListOk(l: TxList, a: nat) {
    && l.items != map[] && CapsOk(l)
    && forall n :: n in l.items ==> l.items[n].nonce == n && l.items[n].sender == a
  }

  /** Each list is not empty, keyed by nonce, of one sender, and within its caps. */
  predicate ListsOk(lists: Lists) {
    forall a :: a in lists ==> ListOk(lists[a], a)
  }

  /** The two lists of an account share no nonce. */
  predicate Apart(p: Lists, q: Lists) {
    forall a :: a in p && a in q ==> p[a].items.Keys !! q[a].items.Keys
  }

  predicate Known(all: Lookup, tx: Tx) {
    tx.hash in all && all[tx.hash] == tx
  }

  /** The lookup is the disjoint union of one kind of lists, the other kind, and what is on its way. */
  ghost predicate PoolOk(p: Lists, q: Lists, all: Lookup, floating: set<Tx>) {
    && ListsOk(p) && ListsOk(q) && Apart(p, q)
    && (forall h :: h in all ==> all[h].hash == h && (Holds(p, all[h]) || Holds(q, all[h]) || all[h] in floating))
    && (forall tx :: Holds(p, tx) ==> Known(all, tx))
    && (forall tx :: Holds(q, tx) ==> Known(all, tx))
    && (forall tx :: tx in floating ==> Known(all, tx) && !Holds(p, tx) && !Holds(q, tx))
  }

  lemma Swap(p: Lists, q: Lists, all: Lookup, floating: set<Tx>)
    ensures PoolOk(p, q, all, floating) <==> PoolOk(q, p, all, floating)
  {
    hide ListsOk, Holds, Known;
  }

  /** The lists with one account's list replaced, or gone if it is empty. */
  function Store(lists: Lists, a: nat, l: TxList): Lists {
    if l.items == map[] then lists - {a} else lists[a := l]
  }

  function Values(items: Items): set<Tx> {
    set n | n in items :: items[n]
  }

  lemma StoreHolds(lists: Lists, a: nat, l: TxList, tx: Tx)
    ensures Holds(Store(lists, a, l), tx) <==>
      if tx.sender == a then tx.nonce in l.items && l.items[tx.nonce] == tx else Holds(lists, tx)
    ensures Free(Store(lists, a, l), tx) <==> if tx.sender == a then tx.nonce !in l.items else Free(lists, tx)
  {
  }

  lemma DetachHolds(p: Lists, a: nat, l: TxList, moved: Items, tx: Tx)
    requires a in p && ListOk(p[a], a)
    requires forall n :: n in moved ==> n in p[a].items && moved[n] == p[a].items[n]
    requires l.items == p[a].items - moved.Keys
    ensures Holds(Store(p, a, l), tx) <==> Holds(p, tx) && tx !in Values(moved)
    ensures tx in Values(moved) ==> Holds(p, tx) && Free(Store(p, a, l), tx)
  {
    StoreHolds(p, a, l, tx);
    if tx in Values(moved) {
      var n :| n in moved && moved[n] == tx;
    } else if tx.nonce in moved {
      assert moved[tx.nonce] in Values(moved);
    }
  }

  lemma DetachLists(p: Lists, q: Lists, a: nat, l: TxList, moved: Items)
    requires ListsOk(p) && Apart(p, q) && a in p && CapsOk(l)
    requires forall n :: n in moved ==> n in p[a].items && moved[n] == p[a].items[n]
    requires l.items == p[a].items - moved.Keys
    ensures ListsOk(Store(p, a, l)) && Apart(Store(p, a, l), q)
  {
    assert ListOk(p[a], a);
    if l.items != map[] { assert ListOk(l, a); }
    hide ListOk;
  }

  lemma HeldIsFree(p: Lists, q: Lists, tx: Tx)
    requires Apart(p, q) && Holds(p, tx)
    ensures Free(q, tx) && !Holds(q, tx)
  {
  }

  /** Taking transactions out of a list sets them on their way. */
  lemma Detach(p: Lists, q: Lists, all: Lookup, floating: set<Tx>, a: nat, l: TxList, moved: Items)
    requires PoolOk(p, q, all, floating) && a in p && CapsOk(l)
    requires forall n :: n in moved ==> n in p[a].items && moved[n] == p[a].items[n]
    requires l.items == p[a].items - moved.Keys
    ensures PoolOk(Store(p, a, l), q, all, floating + Values(moved))
    ensures forall tx :: tx in Values(moved) ==> tx !in floating && Free(Store(p, a, l), tx) && Free(q, tx)
  {
    hide Apart, Store, Known, Holds, Values, CapsOk, ListOk, Free;
    var p' := Store(p, a, l);
    assert ListOk(p[a], a);
    DetachLists(p, q, a, l, moved);
    hide ListsOk;
    forall tx
      ensures Holds(p', tx) <==> Holds(p, tx) && tx !in Values(moved)
      ensures tx in Values(moved) ==> Holds(p, tx) && Free(p', tx) && Free(q, tx) && !Holds(q, tx)
    {
      DetachHolds(p, a, l, moved, tx);
      if tx in Values(moved) { HeldIsFree(p, q, tx); }
    }
  }

  /** A transaction on its way leaves the lookup. */
  lemma Drop(p: Lists, q: Lists, all: Lookup, floating: set<Tx>, tx: Tx)
    requires PoolOk(p, q, all, floating) && tx in floating
    ensures PoolOk(p, q, all - {tx.hash}, floating - {tx})
  {
    hide ListsOk, Apart;
  }

  lemma AttachListOk(p: Lists, l: TxList, tx: Tx)
    requires ListsOk(p) && CapsOk(l)
    requires l.items == (if tx.sender in p then p[tx.sender].items else map[])[tx.nonce := tx]
    ensures ListOk(l, tx.sender)
  {
    var a := tx.sender;
    assert tx.nonce in l.items;
    assert a in p ==> ListOk(p[a], a);
  }

  /** A transaction on its way settles in a list where its nonce is free in both. */
  lemma Attach(p: Lists, q: Lists, all: Lookup, floating: set<Tx>, l: TxList, tx: Tx)
    requires PoolOk(p, q, all, floating) && tx in floating
    requires Free(p, tx) && Free(q, tx)
    requires CapsOk(l) && l.items == (if tx.sender in p then p[tx.sender].items else map[])[tx.nonce := tx]
    ensures PoolOk(p[tx.sender := l], q, all, floating - {tx})
  {
    hide ListsOk, Apart, Holds, Known, CapsOk, Free;
    AttachLists(p, q, l, tx);
    forall u ensures Holds(p[tx.sender := l], u) <==> Holds(p, u) || u == tx {
      AttachHolds(p, l, tx, u);
    }
  }

  lemma AttachHolds(p: Lists, l: TxList, tx: Tx, u: Tx)
    requires Free(p, tx) && l.items == (if tx.sender in p then p[tx.sender].items else map[])[tx.nonce := tx]
    ensures Holds(p[tx.sender := l], u) <==> Holds(p, u) || u == tx
  {
  }

  lemma AttachLists(p: Lists, q: Lists, l: TxList, tx: Tx)
    requires ListsOk(p) && Apart(p, q) && Free(q, tx) && CapsOk(l)
    requires l.items == (if tx.sender in p then p[tx.sender].items else map[])[tx.nonce := tx]
    ensures ListsOk(p[tx.sender := l]) && Apart(p[tx.sender := l], q)
  {
    hide ListOk;
    AttachListOk(p, l, tx);
  }

  /** A new transaction enters the lookup. */
  lemma Enter(p: Lists, q: Lists, all: Lookup, floating: set<Tx>, tx: Tx)
    requires PoolOk(p, q, all, floating) && tx.hash !in all
    ensures PoolOk(p, q, all[tx.hash := tx], floating + {tx})
  {
    hide ListsOk, Apart, Holds;
    assert !Holds(p, tx) && !Holds(q, tx);
  }

  function ListOf(lists: Lists, a: nat, strict: bool): TxList {
    if a in lists then lists[a] else NewList(strict)
  }

  /** The transaction an accepted one replaces. */
  function Replaced(l: TxList, tx: Tx): Items {
    map n | n in l.items && n == tx.nonce :: l.items[n]
  }

  function Hashes(items: Items): set<nat> {
    set n | n in items :: items[n].hash
  }

  /** The replaced transaction is taken out and leaves the lookup. */
  lemma Oust(p: Lists, q: Lists, all: Lookup, floating: set<Tx>, tx: Tx)
    requires PoolOk(p, q, all, floating) && tx.sender in p && tx.nonce in p[tx.sender].items
    ensures var a := tx.sender; var w := p[a].items[tx.nonce];
      && var p' := Store(p, a, p[a].(items := p[a].items - {tx.nonce}));
      && PoolOk(p', q, all - {w.hash}, floating) && Free(p', tx) && w !in floating && Holds(p, w) && Known(all, w)
  {
    var a, l := tx.sender, p[tx.sender];
    assert ListOk(l, a);
    var w := l.items[tx.nonce];
    var moved := map[tx.nonce := w];
    var gone := l.(items := l.items - {tx.nonce});
    assert moved.Keys == {tx.nonce} && Values(moved) == {w} by { assert tx.nonce in moved && moved[tx.nonce] in Values(moved); }
    assert Holds(p, w);
    Detach(p, q, all, floating, a, gone, moved);
    StoreHolds(p, a, gone, tx);
    assert w !in floating && Known(all, w);
    assert floating + {w} - {w} == floating;
    hide PoolOk, Holds, Free, ListOk;
    Drop(Store(p, a, gone), q, all, floating + {w}, w);
  }

  /** An accepted transaction on its way settles in its list; the one it replaces leaves the lookup. */
  lemma Settle(p: Lists, q: Lists, all: Lookup, floating: set<Tx>, strict: bool, tx: Tx, priceBump: nat)
    requires PoolOk(p, q, all, floating) && tx in floating && Free(q, tx)
    requires Accepts(ListOf(p, tx.sender, strict), tx, priceBump)
    ensures var l := ListOf(p, tx.sender, strict);
      PoolOk(p[tx.sender := Add(l, tx, priceBump)], q, all - Hashes(Replaced(l, tx)), floating - {tx})
  {
    var a, l := tx.sender, ListOf(p, tx.sender, strict);
    assert CapsOk(l) by { assert a in p ==> ListOk(p[a], a); }
    CapsKept(l, tx, priceBump, 0, 0);
    if tx.nonce in l.items {
      SettleOver(p, q, all, floating, tx, Add(l, tx, priceBump));
      ReplacedIs(l, tx);
    } else {
      assert Replaced(l, tx) == map[] && Hashes(Replaced(l, tx)) == {};
      assert all - {} == all;
      Attach(p, q, all, floating, Add(l, tx, priceBump), tx);
    }
  }

  lemma ReplacedIs(l: TxList, tx: Tx)
    requires tx.nonce in l.items
    ensures Replaced(l, tx) == map[tx.nonce := l.items[tx.nonce]] && Hashes(Replaced(l, tx)) == {l.items[tx.nonce].hash}
  {
    assert tx.nonce in Replaced(l, tx);
  }

  lemma SettleOver(p: Lists, q: Lists, all: Lookup, floating: set<Tx>, tx: Tx, l: TxList)
    requires PoolOk(p, q, all, floating) && tx in floating && Free(q, tx)
    requires tx.sender in p && tx.nonce in p[tx.sender].items
    requires CapsOk(l) && l.items == p[tx.sender].items[tx.nonce := tx]
    ensures PoolOk(p[tx.sender := l], q, all - {p[tx.sender].items[tx.nonce].hash}, floating - {tx})
  {
    hide PoolOk, Free, CapsOk, Store;
    var a := tx.sender;
    var gone := p[a].(items := p[a].items - {tx.nonce});
    var w := p[a].items[tx.nonce];
    Oust(p, q, all, floating, tx);
    SameItems(p, a, gone, tx, p[a].items);
    var p' := Store(p, a, gone);
    StoreOver(p, a, gone, l);
    Attach(p', q, all - {w.hash}, floating, l, tx);
  }

  lemma StoreOver(lists: Lists, a: nat, gone: TxList, l: TxList)
    ensures Store(lists, a, gone)[a := l] == lists[a := l]
  {
  }

  lemma SameItems(p: Lists, a: nat, gone: TxList, tx: Tx, items: Items)
    requires gone.items == items - {tx.nonce}
    ensures var p' := Store(p, a, gone);
      items[tx.nonce := tx] == (if a in p' then p'[a].items else map[])[tx.nonce := tx]
  {
    assert items[tx.nonce := tx] == (items - {tx.nonce})[tx.nonce := tx];
  }
}
