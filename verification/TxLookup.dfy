/** The lookup of all transactions known to the pool, with its count of slots (evmcore/tx_pool.go, txLookup). */
module TxLookups {
  import opened TxLists
  import opened PoolState
  import MapSum

  datatype Config = Config(priceBump: nat, accountSlots: nat, globalSlots: nat, accountQueue: nat, globalQueue: nat)

  /** The chain state the pool looks at; an unknown account has nonce and balance 0. */
  datatype Chain = Chain(nonces: map<nat, nat>, balances: map<nat, nat>, maxGas: nat)

  function Get(m: map<nat, nat>, k: nat): (r: nat)
    ensures k !in m ==> r == 0
  {
    if k in m then m[k] else 0
  }

  function SlotsOf(all: Lookup): map<nat, nat> {
    map h | h in all :: all[h].slots
  }

  lemma SlotsRemove(all: Lookup, h: nat)
    requires h in all
    ensures MapSum.Sum(SlotsOf(all - {h})) == MapSum.Sum(SlotsOf(all)) - all[h].slots
  {
    MapSum.SumWithout(SlotsOf(all), h);
    assert SlotsOf(all) - {h} == SlotsOf(all - {h});
  }

  lemma SlotsAdd(all: Lookup, tx: Tx)
    requires tx.hash !in all
    ensures MapSum.Sum(SlotsOf(all[tx.hash := tx])) == MapSum.Sum(SlotsOf(all)) + tx.slots
  {
    MapSum.SumUpdate(SlotsOf(all), tx.hash, tx.slots);
    assert SlotsOf(all[tx.hash := tx]) == SlotsOf(all)[tx.hash := tx.slots];
  }

  lemma MovedSame(to: Lookup, from: Lookup, hash: nat)
    requires to.Keys !! from.Keys && hash in from
    ensures to[hash := from[hash]] + (from - {hash}) == to + from
  {
    var a, b := to[hash := from[hash]] + (from - {hash}), to + from;
    assert a.Keys == b.Keys;
    forall h | h in a ensures a[h] == b[h] {
      if h in from && h != hash { assert h in from - {hash}; }
    }
  }

  lemma NewInAll(locals: Lookup, remotes: Lookup, tx: Tx)
    requires tx.hash !in locals + remotes
    ensures locals[tx.hash := tx] + remotes == (locals + remotes)[tx.hash := tx]
    ensures locals + remotes[tx.hash := tx] == (locals + remotes)[tx.hash := tx]
  {
  }

  lemma SameAll(locals: Lookup, remotes: Lookup, tx: Tx, local: bool)
    requires locals.Keys !! remotes.Keys && Known(locals + remotes, tx)
    ensures if local then locals[tx.hash := tx] + remotes == locals + remotes
      else locals + remotes[tx.hash := tx] == locals + remotes
  {
  }

  lemma OneLess(from: Lookup, hash: nat)
    requires hash in from
    ensures (from - {hash}).Keys == from.Keys - {hash} && |from - {hash}| == |from| - 1
  {
    assert (from - {hash}).Keys == from.Keys - {hash};
    assert |from - {hash}| == |(from - {hash}).Keys| && |from| == |from.Keys|;
  }

  /** The lookup of known transactions, local and remote ones apart. */
  class TxLookup {
    var slots: int
    var locals: map<nat, Tx>
    var remotes: map<nat, Tx>

    function All(): Lookup
      reads this
    {
      locals + remotes
    }

    ghost predicate Valid()
      reads this
    {
      locals.Keys !! remotes.Keys && slots == MapSum.Sum(SlotsOf(All()))
    }

    /** No transaction of these accounts is held as a remote one. */
    predicate NoRemoteOf(accounts: set<nat>)
      reads this
    {
      forall h :: h in remotes ==> remotes[h].sender !in accounts
    }

    /** These are held as local ones, among them all of these accounts. */
    ghost predicate Sides(accounts: set<nat>, owned: set<nat>)
      reads this
    {
      NoRemoteOf(accounts) && forall h :: h in All() ==> (h in locals <==> h in owned)
    }

    constructor ()
      ensures Valid() && All() == map[] && remotes == map[]
    {
      slots, locals, remotes := 0, map[], map[];
    }

    /** A transaction that is known already would be counted twice: then, and only then, the slots are wrong. */
    method Add(tx: Tx, local: bool)
      requires Valid()
      modifies this
      ensures slots == old(slots) + tx.slots
      ensures locals == if local then old(locals)[tx.hash := tx] else old(locals)
      ensures remotes == if local then old(remotes) else old(remotes)[tx.hash := tx]
      ensures tx.hash !in old(All()) ==> Valid() && All() == old(All())[tx.hash := tx]
      ensures Known(old(All()), tx) && tx.slots > 0 ==> !Valid()
      ensures forall accounts, owned :: old(Sides(accounts, owned)) && tx.hash !in old(All()) ==>
        (if local then tx.hash in owned else tx.hash !in owned && tx.sender !in accounts) ==> Sides(accounts, owned)
    {
      hide SlotsOf;
      ghost var all, l, r := All(), locals, remotes;
      slots := slots + tx.slots;
      if local {
        locals := locals[tx.hash := tx];
      } else {
        remotes := remotes[tx.hash := tx];
      }
      if tx.hash !in all {
        SlotsAdd(all, tx);
        NewInAll(l, r, tx);
      } else if Known(all, tx) {
        SameAll(l, r, tx, local);
      }
    }

    /** Removing what is not there is only logged. */
    method Remove(hash: nat)
      requires Valid()
      modifies this
      ensures Valid() && All() == old(All()) - {hash}
      ensures locals == old(locals) - {hash} && remotes == old(remotes) - {hash}
      ensures forall accounts, owned :: old(Sides(accounts, owned)) ==> Sides(accounts, owned)
    {
      if hash !in locals && hash !in remotes {
        assert All() - {hash} == All() && locals - {hash} == locals && remotes - {hash} == remotes;
        return;
      }
      SlotsRemove(All(), hash);
      var tx := if hash in locals then locals[hash] else remotes[hash];
      slots := slots - tx.slots;
      locals := locals - {hash};
      remotes := remotes - {hash};
      assert All() == old(All()) - {hash};
    }

    method Migrate(hash: nat)
      requires Valid() && hash in remotes
      modifies this`locals, this`remotes
      ensures Valid() && All() == old(All())
      ensures remotes == old(remotes) - {hash} && |remotes| == |old(remotes)| - 1
    {
      MovedSame(locals, remotes, hash);
      OneLess(remotes, hash);
      var tx := remotes[hash];
      locals, remotes := locals[hash := tx], remotes - {hash};
    }

    /** Migrates the remote transactions of local accounts. */
    method RemoteToLocals(accounts: set<nat>) returns (migrated: nat)
      requires Valid()
      modifies this
      ensures Valid() && All() == old(All())
      ensures forall h :: h in remotes <==> h in old(remotes) && old(remotes)[h].sender !in accounts
      ensures NoRemoteOf(accounts)
      ensures forall h :: h in All() ==> (h in locals <==> h in old(locals) || All()[h].sender in accounts)
      ensures migrated == |old(remotes)| - |remotes|
    {
      migrated := 0;
      var todo := remotes.Keys;
      while todo != {}
        invariant Valid() && All() == old(All())
        invariant todo <= remotes.Keys <= old(remotes).Keys
        invariant forall h :: h in remotes ==> remotes[h] == old(remotes)[h]
        invariant forall h :: h in old(remotes) && h !in todo ==> (h in remotes <==> old(remotes)[h].sender !in accounts)
        invariant migrated == |old(remotes)| - |remotes|
        decreases todo
      {
        hide Valid, All;
        var hash :| hash in todo;
        if remotes[hash].sender in accounts {
          Migrate(hash);
          migrated := migrated + 1;
        }
        todo := todo - {hash};
      }
    }
  }
}
