/** The transactions of one account, by nonce: what each list operation is meant to do (evmcore/tx_list.go). */
module TxLists {

  datatype Tx = Tx(hash: nat, sender: nat, nonce: nat, feeCap: nat, tipCap: nat, cost: nat, gas: nat, slots: nat)

  type Items = map<nat, Tx>

  datatype TxList = TxList(strict: bool, items: Items, costcap: nat, gascap: nat)

  function NewList(strict: bool): TxList {
    TxList(strict, map[], 0, 0)
  }

  predicate ItemsOk(items: Items) {
    forall n :: n in items ==> items[n].nonce == n
  }

  // ---------- the operations ----------

  /** A replacement must beat both caps of the old transaction, and by the price bump. */
  predicate Replaces(tx: Tx, was: Tx, priceBump: nat) {
    && was.feeCap < tx.feeCap && was.tipCap < tx.tipCap
    && tx.feeCap >= was.feeCap * (100 + priceBump) / 100 && tx.tipCap >= was.tipCap * (100 + priceBump) / 100
  }

  /** In whole numbers: both caps are higher, and short of the bumped ones by less than one unit. */
  lemma ReplacesIs(tx: Tx, was: Tx, priceBump: nat)
    ensures Replaces(tx, was, priceBump) <==>
      && tx.feeCap > was.feeCap && 100 * tx.feeCap + 100 > was.feeCap * (100 + priceBump)
      && tx.tipCap > was.tipCap && 100 * tx.tipCap + 100 > was.tipCap * (100 + priceBump)
  {
    Hundredths(tx.feeCap, was.feeCap * (100 + priceBump));
    Hundredths(tx.tipCap, was.tipCap * (100 + priceBump));
  }

  lemma Hundredths(a: nat, b: nat)
    ensures a >= b / 100 <==> 100 * a + 100 > b
  {
  }

  predicate Accepts(l: TxList, tx: Tx, priceBump: nat) {
    tx.nonce in l.items ==> Replaces(tx, l.items[tx.nonce], priceBump)
  }

  function Max(a: nat, b: nat): nat {
    if a < b then b else a
  }

  function Add(l: TxList, tx: Tx, priceBump: nat): TxList {
    if Accepts(l, tx, priceBump)
    then TxList(l.strict, l.items[tx.nonce := tx], Max(l.costcap, tx.cost), Max(l.gascap, tx.gas))
    else l
  }

  function Below(items: Items, threshold: nat): Items {
    map n | n in items && n < threshold :: items[n]
  }

  function Forward(l: TxList, threshold: nat): TxList {
    l.(items := l.items - Below(l.items, threshold).Keys)
  }

  predicate TooCostly(tx: Tx, costLimit: nat, gasLimit: nat) {
    tx.gas > gasLimit || tx.cost > costLimit
  }

  /** The transactions that cost too much. */
  function Costly(items: Items, costLimit: nat, gasLimit: nat): Items {
    map n | n in items && TooCostly(items[n], costLimit, gasLimit) :: items[n]
  }

  /** In a strict list, what follows a removed transaction is invalid. */
  function Stranded(l: TxList, removed: Items): Items {
    if l.strict then map n | n in l.items && n !in removed && (exists m :: m in removed && m < n) :: l.items[n]
    else map[]
  }

  predicate BelowCaps(l: TxList, costLimit: nat, gasLimit: nat) {
    l.costcap <= costLimit && l.gascap <= gasLimit
  }

  /** The source's filter: nothing is looked at when the caps are already below the limits. */
  function Filtered(l: TxList, costLimit: nat, gasLimit: nat): (Items, Items, TxList) {
    if BelowCaps(l, costLimit, gasLimit) then (map[], map[], l)
    else
      var removed := Costly(l.items, costLimit, gasLimit);
      var invalids := Stranded(l, removed);
      (removed, invalids, TxList(l.strict, l.items - removed.Keys - invalids.Keys, costLimit, gasLimit))
  }

  /** The `k` lowest nonces. */
  ghost predicate IsLowest(items: Items, k: nat, kept: Items) {
    && (forall n :: n in kept ==> n in items && kept[n] == items[n])
    && |kept| == (if k < |items| then k else |items|)
    && (forall m, n :: m in kept && n in items && n !in kept ==> m < n)
  }

  /** The transaction of one nonce, if it is there. */
  function One(l: TxList, nonce: nat): Items {
    map n | n in l.items && n == nonce :: l.items[n]
  }

  function Remove(l: TxList, nonce: nat): TxList {
    l.(items := l.items - {nonce} - Stranded(l, One(l, nonce)).Keys)
  }

  /** The consecutive nonces from `n` on. */
  function RunFrom(items: Items, n: nat): (r: set<nat>)
    decreases |items|
  {
    if n !in items then {}
    else
      assert |items.Keys - {n}| < |items.Keys|;
      assert (items - {n}).Keys == items.Keys - {n};
      {n} + RunFrom(items - {n}, n + 1)
  }

  ghost function Lowest(items: Items): (n: nat)
    requires items != map[]
    ensures n in items && forall m :: m in items ==> n <= m
    decreases |items|
  {
    var n :| n in items;
    if items.Keys == {n} then n
    else
      assert |items.Keys - {n}| < |items.Keys|;
      assert (items - {n}).Keys == items.Keys - {n};
      var m := Lowest(items - {n});
      assert forall k :: k in items ==> k == n || k in items - {n};
      if n < m then n else m
  }

  /** What is ready from `start`: the run from the lowest nonce, unless that lies ahead of `start`. */
  ghost function ReadyNonces(items: Items, start: nat): set<nat> {
    if items == map[] || Lowest(items) > start then {} else RunFrom(items, Lowest(items))
  }

  // ---------- what they guarantee ----------

  /** The caps bound the cost and the gas of every transaction. */
  predicate CapsOk(l: TxList) {
    forall n :: n in l.items ==> l.items[n].cost <= l.costcap && l.items[n].gas <= l.gascap
  }

  /** Under the caps invariant the short circuit is sound: filtering is removing what costs too much and what that
      strands, whatever path was taken, and the invariant survives. */
  lemma FilterIsNaive(l: TxList, costLimit: nat, gasLimit: nat)
    requires CapsOk(l)
    ensures var (removed, invalids, rest) := Filtered(l, costLimit, gasLimit);
      && removed == Costly(l.items, costLimit, gasLimit) && invalids == Stranded(l, removed)
      && rest.items == l.items - removed.Keys - invalids.Keys
      && CapsOk(rest) && Costly(rest.items, costLimit, gasLimit) == map[]
      && removed.Keys !! invalids.Keys !! rest.items.Keys
      && removed.Keys + invalids.Keys + rest.items.Keys == l.items.Keys
  {
  }

  /** The converse: without the invariant some list is filtered wrongly. */
  lemma FilterNeedsCaps(l: TxList)
    ensures CapsOk(l) <==> forall costLimit, gasLimit ::
      Filtered(l, costLimit, gasLimit).0 == Costly(l.items, costLimit, gasLimit)
  {
    if CapsOk(l) {
      forall costLimit, gasLimit
        ensures Filtered(l, costLimit, gasLimit).0 == Costly(l.items, costLimit, gasLimit)
      {
        FilterIsNaive(l, costLimit, gasLimit);
      }
    } else {
      var n :| n in l.items && !(l.items[n].cost <= l.costcap && l.items[n].gas <= l.gascap);
      assert n in Costly(l.items, l.costcap, l.gascap);
      assert Filtered(l, l.costcap, l.gascap).0 == map[];
    }
  }

  lemma CapsKept(l: TxList, tx: Tx, priceBump: nat, threshold: nat, nonce: nat)
    requires CapsOk(l)
    ensures CapsOk(Add(l, tx, priceBump)) && CapsOk(Forward(l, threshold)) && CapsOk(Remove(l, nonce))
  {
  }

  /** No gap between the lowest and the highest nonce. */
  predicate Contiguous(items: Items) {
    forall a, c :: a in items && c in items ==> forall b :: a <= b <= c ==> b in items
  }

  /** Dropping everything from some nonce on, or everything below one, leaves no gap. */
  lemma ContiguousCut(items: Items, rest: Items)
    requires Contiguous(items) && forall n :: n in rest ==> n in items
    requires (forall m, n :: m in rest && n in items && n !in rest ==> m < n)
      || (forall m, n :: m in rest && n in items && n !in rest ==> n < m)
    ensures Contiguous(rest)
  {
    forall a, c, b | a in rest && c in rest && a <= b <= c ensures b in rest {
      assert b in items;
    }
  }

  lemma ContiguousKept(l: TxList, costLimit: nat, gasLimit: nat, threshold: nat, nonce: nat)
    requires l.strict && Contiguous(l.items)
    ensures Contiguous(Forward(l, threshold).items)
    ensures Contiguous(Filtered(l, costLimit, gasLimit).2.items)
    ensures Contiguous(Remove(l, nonce).items)
  {
    hide Contiguous, Stranded, Costly, One;
    ForwardCuts(l, threshold);
    SomeCostly(l.items, costLimit, gasLimit);
    StrandedCuts(l, Costly(l.items, costLimit, gasLimit));
    OneIs(l, nonce);
    StrandedCuts(l, One(l, nonce));
  }

  lemma SomeCostly(items: Items, costLimit: nat, gasLimit: nat)
    ensures forall n :: n in Costly(items, costLimit, gasLimit) ==> n in items
  {
  }

  lemma OneIs(l: TxList, nonce: nat)
    ensures forall n :: n in One(l, nonce) ==> n in l.items
    ensures l.items - {nonce} == l.items - One(l, nonce).Keys
  {
  }

  lemma ForwardCuts(l: TxList, threshold: nat)
    requires Contiguous(l.items)
    ensures Contiguous(Forward(l, threshold).items)
  {
    ContiguousCut(l.items, Forward(l, threshold).items);
  }

  /** Removing some transactions of a strict list takes away all from the lowest of them on. */
  lemma StrandedCuts(l: TxList, removed: Items)
    requires l.strict && Contiguous(l.items) && forall n :: n in removed ==> n in l.items
    ensures Contiguous(l.items - removed.Keys - Stranded(l, removed).Keys)
  {
    ContiguousCut(l.items, l.items - removed.Keys - Stranded(l, removed).Keys);
  }

  lemma ContiguousCapped(items: Items, k: nat, kept: Items)
    requires Contiguous(items) && IsLowest(items, k, kept)
    ensures Contiguous(kept)
  {
    ContiguousCut(items, kept);
  }

  /** Adding keeps a list contiguous just when the nonce is known or next to the ones that are. */
  lemma ContiguousAdd(l: TxList, tx: Tx, priceBump: nat)
    requires Contiguous(l.items)
    ensures Contiguous(Add(l, tx, priceBump).items) <==>
      tx.nonce in l.items || l.items == map[] || tx.nonce + 1 in l.items || (tx.nonce > 0 && tx.nonce - 1 in l.items)
  {
    var items := l.items;
    if tx.nonce !in items && items != map[] {
      var now := items[tx.nonce := tx];
      assert Add(l, tx, priceBump).items == now;
      var a :| a in items;
      if Contiguous(now) {
        assert tx.nonce in now && a in now;
        var next := if a < tx.nonce then tx.nonce - 1 else tx.nonce + 1;
        assert next in now;
      }
      if tx.nonce + 1 in items || (tx.nonce > 0 && tx.nonce - 1 in items) {
        forall x, z, y | x in now && z in now && x <= y <= z ensures y in now {
          var next := if tx.nonce + 1 in items then tx.nonce + 1 else tx.nonce - 1;
          assert x in items && z in items ==> y in items;
          assert next in items && tx.nonce !in items;
          assert x == tx.nonce && z in items ==> (y == tx.nonce || (next <= y <= z ==> y in items));
          assert z == tx.nonce && x in items ==> (y == tx.nonce || (x <= y <= next ==> y in items));
        }
      }
    }
  }

  /** A run holds exactly the nonces reached from its start without a gap. */
  lemma {:induction false} RunIsMaximal(items: Items, n: nat, m: nat)
    ensures m in RunFrom(items, n) <==> n <= m && forall i :: n <= i <= m ==> i in items
    decreases |items|
  {
    if n in items {
      assert |items.Keys - {n}| < |items.Keys|;
      assert (items - {n}).Keys == items.Keys - {n};
      RunIsMaximal(items - {n}, n + 1, m);
      assert forall i :: n + 1 <= i ==> (i in items - {n} <==> i in items);
      assert (forall i :: n <= i <= m ==> i in items) ==> forall i :: n + 1 <= i <= m ==> i in items;
      if forall i :: n + 1 <= i <= m ==> i in items - {n} {
        forall i | n <= i <= m ensures i in items {
          assert i == n || i in items - {n};
        }
      }
    } else if n <= m {
      assert n <= n <= m;
    }
  }

  /** After the ready transactions are taken out, whatever is left lies beyond the next nonce: nothing that could be
      executed is left behind. */
  lemma NothingReadyLeft(items: Items, start: nat, ready: set<nat>, next: nat, n: nat)
    requires ready == ReadyNonces(items, start) && n in items && n !in ready
    requires if ready == {} then next == start else next > 0 && next - 1 in ready && forall m :: m in ready ==> m < next
    ensures n > next
  {
    var lo := Lowest(items);
    if ready != {} {
      RunIsMaximal(items, lo, next - 1);
      RunIsMaximal(items, lo, n);
      RunIsMaximal(items, lo, next);
    }
  }

  // ---------- the operations that search for a nonce ----------

  method LowestNonce(items: Items) returns (n: nat)
    requires items != map[]
    ensures n == Lowest(items)
  {
    n :| n in items;
    var todo := items.Keys;
    while todo != {}
      invariant n in items && todo <= items.Keys
      invariant forall m :: m in items && m !in todo ==> n <= m
      decreases todo
    {
      var m :| m in todo;
      if m < n { n := m; }
      todo := todo - {m};
    }
    assert Lowest(items) <= n <= Lowest(items);
  }

  /** Takes the ready transactions out of a list. */
  method Ready(l: TxList, start: nat) returns (ready: Items, rest: TxList)
    ensures ready.Keys == ReadyNonces(l.items, start)
    ensures forall n :: n in ready ==> n in l.items && ready[n] == l.items[n]
    ensures rest == l.(items := l.items - ready.Keys)
  {
    ready, rest := map[], l;
    if l.items == map[] {
      assert l.items - ready.Keys == l.items;
      return;
    }
    var first := LowestNonce(l.items);
    if first > start {
      assert l.items - ready.Keys == l.items;
      return;
    }
    var next := first;
    while next in l.items
      invariant first <= next
      invariant forall n :: n in ready <==> first <= n < next
      invariant forall n :: n in ready ==> n in l.items && ready[n] == l.items[n]
      decreases l.items.Keys - ready.Keys
    {
      ghost var was := ready.Keys;
      assert next in l.items.Keys - was;
      ready := ready[next := l.items[next]];
      assert ready.Keys == was + {next};
      next := next + 1;
    }
    forall n: nat ensures n in ready <==> n in RunFrom(l.items, first) {
      RunIsMaximal(l.items, first, n);
    }
    rest := l.(items := l.items - ready.Keys);
  }

  method HighestNonce(items: Items) returns (n: nat)
    requires items != map[]
    ensures n in items && forall m :: m in items ==> m <= n
  {
    n :| n in items;
    var todo := items.Keys;
    while todo != {}
      invariant n in items && todo <= items.Keys
      invariant forall m :: m in items && m !in todo ==> m <= n
      decreases todo
    {
      var m :| m in todo;
      if n < m { n := m; }
      todo := todo - {m};
    }
  }

  /** Keeps the `threshold` lowest nonces. */
  method Cap(l: TxList, threshold: nat) returns (drops: Items, rest: TxList)
    ensures IsLowest(l.items, threshold, rest.items)
    ensures forall n :: n in drops ==> n in l.items && drops[n] == l.items[n]
    ensures rest == l.(items := l.items - drops.Keys)
  {
    drops, rest := map[], l;
    assert l.items - drops.Keys == l.items;
    while |rest.items| > threshold
      invariant rest == l.(items := l.items - drops.Keys)
      invariant SubItems(drops, l.items) && AllBelow(rest.items, drops)
      invariant |rest.items| <= |l.items|
      invariant drops == map[] || threshold <= |rest.items|
      decreases |rest.items|
    {
      var n := HighestNonce(rest.items);
      DropHighest(l.items, drops, n);
      drops := drops[n := l.items[n]];
      rest := l.(items := l.items - drops.Keys);
    }
  }

  predicate SubItems(some: Items, items: Items) {
    forall n :: n in some ==> n in items && some[n] == items[n]
  }

  predicate AllBelow(low: Items, high: Items) {
    forall m, n :: m in low && n in high ==> m < n
  }

  lemma DropHighest(items: Items, drops: Items, n: nat)
    requires SubItems(drops, items) && AllBelow(items - drops.Keys, drops)
    requires n in items - drops.Keys && forall m :: m in items - drops.Keys ==> m <= n
    ensures var more := drops[n := items[n]];
      && SubItems(more, items) && AllBelow(items - more.Keys, more)
      && |items - more.Keys| == |items - drops.Keys| - 1
  {
    hide SubItems, AllBelow;
    DropOne(items, drops, n);
    DropBelow(items - drops.Keys, drops, n, items[n]);
    SubItemsNext(items, drops, n);
  }

  lemma SubItemsNext(items: Items, drops: Items, n: nat)
    requires SubItems(drops, items) && n in items
    ensures SubItems(drops[n := items[n]], items)
  {
  }

  lemma DropBelow(low: Items, high: Items, n: nat, tx: Tx)
    requires AllBelow(low, high) && n in low && forall m :: m in low ==> m <= n
    ensures AllBelow(low - {n}, high[n := tx])
  {
  }

  lemma DropOne(items: Items, drops: Items, n: nat)
    requires n in items - drops.Keys
    ensures items - drops[n := items[n]].Keys == items - drops.Keys - {n}
    ensures |items - drops[n := items[n]].Keys| == |items - drops.Keys| - 1
  {
    assert items - drops[n := items[n]].Keys == items - drops.Keys - {n};
    Without(items - drops.Keys, n);
  }

  lemma Without(items: Items, n: nat)
    requires n in items
    ensures |items - {n}| == |items| - 1
  {
    assert (items - {n}).Keys == items.Keys - {n};
  }

  /** Filters a list by cost and gas. */
  method Filter(l: TxList, costLimit: nat, gasLimit: nat) returns (removed: Items, invalids: Items, rest: TxList)
    ensures (removed, invalids, rest) == Filtered(l, costLimit, gasLimit)
  {
    if l.costcap <= costLimit && l.gascap <= gasLimit {
      return map[], map[], l;
    }
    removed := Costly(l.items, costLimit, gasLimit);
    invalids := map[];
    if removed == map[] {
      rest := TxList(l.strict, l.items, costLimit, gasLimit);
      assert l.items - removed.Keys - invalids.Keys == l.items;
      assert Stranded(l, removed) == map[];
      return;
    }
    if l.strict {
      var lowest := LowestNonce(removed);
      invalids := map n | n in l.items && n !in removed && n > lowest :: l.items[n];
    }
    assert invalids == Stranded(l, removed);
    rest := TxList(l.strict, l.items - removed.Keys - invalids.Keys, costLimit, gasLimit);
  }
}
