/** The transaction list of an account over its nonce-sorted map: each operation does what TxLists says it is meant to
    do (evmcore/tx_list.go). */
module AccountLists {
  import opened Collections
  import opened TxLists
  import opened TxSortedMaps

  class AccountList {
    const strict: bool
    const txs: SortedMap
    var costcap: nat
    var gascap: nat

    ghost predicate Valid()
      reads this, txs
    {
      txs.Valid()
    }

    function View(): TxList
      reads this, txs
    {
      TxList(strict, txs.items, costcap, gascap)
    }

    constructor (strict: bool)
      ensures Valid() && View() == NewList(strict) && fresh(txs)
    {
      this.strict := strict;
      txs := new SortedMap();
      costcap, gascap := 0, 0;
    }

    /** Stores a transaction unless a better one has its nonce; the caps rise to its cost and gas. */
    method Add(tx: Tx, priceBump: nat) returns (inserted: bool, was: Option<Tx>)
      requires Valid()
      modifies this, txs
      ensures Valid() && View() == TxLists.Add(old(View()), tx, priceBump)
      ensures inserted == Accepts(old(View()), tx, priceBump)
      ensures was == if inserted && tx.nonce in old(txs.items) then Some(old(txs.items)[tx.nonce]) else None
    {
      was := None;
      if tx.nonce in txs.items {
        var before := txs.items[tx.nonce];
        if before.feeCap >= tx.feeCap || before.tipCap >= tx.tipCap {
          return false, None;
        }
        if tx.feeCap < before.feeCap * (100 + priceBump) / 100 || tx.tipCap < before.tipCap * (100 + priceBump) / 100 {
          return false, None;
        }
        was := Some(before);
      }
      txs.Put(tx);
      if costcap < tx.cost { costcap := tx.cost; }
      if gascap < tx.gas { gascap := tx.gas; }
      inserted := true;
    }

    method Forward(threshold: nat) returns (removed: seq<Tx>)
      requires Valid()
      modifies txs
      ensures Valid() && View() == TxLists.Forward(old(View()), threshold)
      ensures IsFlat(removed, Below(old(txs.items), threshold))
    {
      removed := txs.Forward(threshold);
    }

    /** Removes what costs too much and, in a strict list, what that strands. */
    method Filter(costLimit: nat, gasLimit: nat) returns (removed: Items, invalids: Items)
      requires Valid()
      modifies this, txs
      ensures Valid() && (removed, invalids, View()) == Filtered(old(View()), costLimit, gasLimit)
    {
      hide Indexed, IsFlat, Filtered, Costly, Stranded, Above;
      ghost var l := View();
      if costcap <= costLimit && gascap <= gasLimit {
        FilteredBelow(l, costLimit, gasLimit);
        return map[], map[];
      }
      costcap, gascap := costLimit, gasLimit;
      removed := txs.Filter((tx: Tx) => tx.gas > gasLimit || tx.cost > costLimit);
      CostlyAre(l.items, costLimit, gasLimit, removed);
      invalids := map[];
      if removed == map[] {
        FilteredNone(l, costLimit, gasLimit);
        return;
      }
      if strict {
        var lowest := LowestNonce(removed);
        invalids := txs.FilterOut((tx: Tx) => tx.nonce > lowest);
        AboveAre(l.items - removed.Keys, lowest, invalids);
        StrandedAre(l, removed, lowest);
      } else {
        NotStrict(l, removed);
      }
      FilteredIs(l, costLimit, gasLimit);
      txs.Reheap();
    }

    method Cap(threshold: nat) returns (drops: seq<Tx>)
      requires Valid()
      modifies txs
      ensures Valid() && IsLowest(old(txs.items), threshold, txs.items) && View() == old(View()).(items := txs.items)
      ensures IsFlat(Reversed(drops), old(txs.items) - txs.items.Keys)
    {
      drops := txs.Cap(threshold);
    }

    /** Removes the transaction with this nonce and, in a strict list, what follows it. */
    method Remove(tx: Tx) returns (found: bool, invalids: Items)
      requires Valid()
      modifies txs
      ensures Valid() && View() == TxLists.Remove(old(View()), tx.nonce) && found == (tx.nonce in old(txs.items))
      ensures invalids == Stranded(old(View()), One(old(View()), tx.nonce))
    {
      hide Indexed, IsFlat, Stranded, Above, One, TxLists.Remove;
      ghost var l := View();
      RemoveIs(l, tx.nonce);
      found := txs.Remove(tx.nonce);
      invalids := map[];
      if found && strict {
        invalids := txs.Filter((other: Tx) => other.nonce > tx.nonce);
        AboveAre(l.items - {tx.nonce}, tx.nonce, invalids);
        StrandedAre(l, One(l, tx.nonce), tx.nonce);
      }
    }

    method Ready(start: nat) returns (ready: seq<Tx>)
      requires Valid()
      modifies txs
      ensures Valid() && View() == old(View()).(items := old(txs.items) - ReadyNonces(old(txs.items), start))
      ensures IsFlat(ready, Part(old(txs.items), ReadyNonces(old(txs.items), start)))
    {
      ready := txs.Ready(start);
    }
  }

  function Above(items: Items, lowest: nat): Items {
    map n | n in items && n > lowest :: items[n]
  }

  lemma CostlyAre(items: Items, costLimit: nat, gasLimit: nat, removed: Items)
    requires var matches := (tx: Tx) => tx.gas > gasLimit || tx.cost > costLimit;
      removed == map n | n in items && matches(items[n]) :: items[n]
    ensures removed == Costly(items, costLimit, gasLimit)
  {
  }

  lemma AboveAre(items: Items, lowest: nat, invalids: Items)
    requires ItemsOk(items)
    requires var matches := (tx: Tx) => tx.nonce > lowest;
      invalids == map n | n in items && matches(items[n]) :: items[n]
    ensures invalids == Above(items, lowest)
  {
  }

  /** What a strict list strands is what lies above the lowest removed nonce. */
  lemma StrandedAre(l: TxList, removed: Items, lowest: nat)
    requires l.strict && lowest in removed && forall n :: n in removed ==> lowest <= n
    ensures Stranded(l, removed) == Above(l.items - removed.Keys, lowest)
  {
  }

  lemma NotStrict(l: TxList, removed: Items)
    requires !l.strict
    ensures Stranded(l, removed) == map[]
    ensures l.items - removed.Keys - Stranded(l, removed).Keys == l.items - removed.Keys
  {
  }

  lemma FilteredBelow(l: TxList, costLimit: nat, gasLimit: nat)
    requires BelowCaps(l, costLimit, gasLimit)
    ensures Filtered(l, costLimit, gasLimit) == (map[], map[], l)
  {
  }

  lemma FilteredNone(l: TxList, costLimit: nat, gasLimit: nat)
    requires !BelowCaps(l, costLimit, gasLimit) && Costly(l.items, costLimit, gasLimit) == map[]
    ensures Filtered(l, costLimit, gasLimit) == (map[], map[], TxList(l.strict, l.items, costLimit, gasLimit))
    ensures l.items - Costly(l.items, costLimit, gasLimit).Keys == l.items
  {
    var none: Items := map[];
    assert Stranded(l, none) == map[] && l.items - none.Keys == l.items && l.items - none.Keys - none.Keys == l.items;
  }

  lemma FilteredIs(l: TxList, costLimit: nat, gasLimit: nat)
    requires !BelowCaps(l, costLimit, gasLimit)
    ensures var removed := Costly(l.items, costLimit, gasLimit);
      var invalids := Stranded(l, removed);
      Filtered(l, costLimit, gasLimit)
      == (removed, invalids, TxList(l.strict, l.items - removed.Keys - invalids.Keys, costLimit, gasLimit))
  {
  }

  lemma RemoveIs(l: TxList, nonce: nat)
    ensures TxLists.Remove(l, nonce).items == l.items - {nonce} - Stranded(l, One(l, nonce)).Keys
    ensures TxLists.Remove(l, nonce) == l.(items := TxLists.Remove(l, nonce).items)
    ensures nonce !in l.items || !l.strict ==> Stranded(l, One(l, nonce)) == map[]
    ensures nonce in l.items ==> One(l, nonce).Keys == {nonce}
    ensures l.items - {nonce} - {} == l.items - {nonce} && (nonce !in l.items ==> l.items - {nonce} == l.items)
  {
  }
}
