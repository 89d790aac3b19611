/** What the background run does to the lists of each account, and for what reasons a transaction leaves the pool
    (evmcore/tx_pool.go, runReorg). */
module PoolRuns {
  import opened Collections
  import opened TxLists
  import opened TxLookups
  import opened PoolState
  import opened PoolSteps
  import opened PoolLimits
  import MapSum

  predicate Held(s: Pool, tx: Tx) {
    Holds(s.p, tx) || Holds(s.q, tx)
  }

  /** Between operations exactly the held transactions are known. */
  lemma KnownIsHeld(s: Pool, tx: Tx)
    requires Ok(s) && s.floating == {}
    ensures Held(s, tx) <==> Known(s.all, tx)
    ensures tx.hash in s.all ==> s.all[tx.hash].hash == tx.hash && Held(s, s.all[tx.hash])
  {
    hide ListsOk, Apart, Strictness, Holds;
  }

  /** An account's lists are as they were. */
  predicate SameLists(was: Pool, a: nat, now: Pool) {
    && (a in now.p <==> a in was.p) && (a in now.p ==> now.p[a] == was.p[a])
    && (a in now.q <==> a in was.q) && (a in now.q ==> now.q[a] == was.q[a])
  }

  lemma SameHeld(was: Pool, now: Pool, tx: Tx)
    requires SameLists(was, tx.sender, now)
    ensures Held(was, tx) <==> Held(now, tx)
  {
  }

  function NonceIn(nonces: map<nat, nat>, chain: Chain, a: nat): nat {
    if a in nonces then nonces[a] else Get(chain.nonces, a)
  }

  /** Local accounts have no limit on their queue. */
  function QueueLimit(a: nat, locals: set<nat>, limit: nat): Option<nat> {
    if a in locals then None else Some(limit)
  }

  /** Too old or too costly under a chain state. */
  predicate Useless(tx: Tx, chain: Chain) {
    tx.nonce < Get(chain.nonces, tx.sender) || TooCostly(tx, Get(chain.balances, tx.sender), chain.maxGas)
  }

  /** At least `k` of these transactions come before the nonce. */
  ghost predicate Behind(items: Items, n: nat, k: nat) {
    exists kept: Items :: SubItems(kept, items) && |kept| >= k && forall m :: m in kept ==> m < n
  }

  // ---------- promotion ----------

  ghost function ReadyItems(payable: Items, start: nat): Items {
    map n | n in payable && n in ReadyNonces(payable, start) :: payable[n]
  }

  /** Of an account's queue, what is ready becomes pending, and of the other usable transactions the lowest nonces within
      the limit stay. */
  ghost predicate AccountPromoted(was: Pool, a: nat, start: nat, chain: Chain, limit: Option<nat>, now: Pool) {
    if a !in was.q then SameLists(was, a, now)
    else
      var payable := Payable(was.q[a], Get(chain.nonces, a), Get(chain.balances, a), chain.maxGas).items;
      var ready := ReadyItems(payable, start);
      var left := ListOf(now.q, a, false).items;
      && ListOf(now.p, a, true).items == ListOf(was.p, a, true).items + ready
      && (if limit.None? then left == payable - ready.Keys else IsLowest(payable - ready.Keys, limit.value, left))
  }

  /** An account's next nonce is the one after what has become pending, if anything has. */
  ghost predicate NonceAdvanced(was: Pool, a: nat, start: nat, chain: Chain, after: nat) {
    if a !in was.q then after == start
    else
      var payable := Payable(was.q[a], Get(chain.nonces, a), Get(chain.balances, a), chain.maxGas).items;
      var ready := ReadyItems(payable, start);
      if ready == map[] then after == start
      else after > 0 && after - 1 in ready && forall n :: n in ready ==> n < after
  }

  lemma AdvancedNonce(was: Pool, a: nat, start: nat, chain: Chain, limit: Option<nat>, promoted: Items, dropped: Items,
                      left: Items, after: nat)
    requires a in was.q && Advanced(start, promoted, after)
    requires PromotedFrom(was.q[a], Payable(was.q[a], Get(chain.nonces, a), Get(chain.balances, a), chain.maxGas), start,
      limit, promoted, dropped, left)
    ensures NonceAdvanced(was, a, start, chain, after)
  {
    hide ReadyNonces, IsLowest, Payable;
    ReadyIs(Payable(was.q[a], Get(chain.nonces, a), Get(chain.balances, a), chain.maxGas).items, start, promoted);
    AdvancedIs(start, promoted, after);
  }

  lemma NoQueueNoNonce(s: Pool, a: nat, start: nat, chain: Chain)
    requires a !in s.q
    ensures NonceAdvanced(s, a, start, chain, start)
  {
  }

  lemma AdvancedFrom(was: Pool, a: nat, mid: Pool, start: nat, chain: Chain, after: nat)
    requires SameLists(was, a, mid)
    ensures NonceAdvanced(mid, a, start, chain, after) <==> NonceAdvanced(was, a, start, chain, after)
  {
    hide Payable, ReadyItems;
  }

  ghost predicate AllAdvanced(was: Pool, nonces: map<nat, nat>, accounts: set<nat>, chain: Chain, after: map<nat, nat>) {
    && (forall a :: a in accounts ==> NonceAdvanced(was, a, NonceIn(nonces, chain, a), chain, NonceIn(after, chain, a)))
    && (forall a :: a !in accounts ==> NonceIn(after, chain, a) == NonceIn(nonces, chain, a))
  }

  lemma NoneAdvanced(was: Pool, nonces: map<nat, nat>, chain: Chain)
    ensures AllAdvanced(was, nonces, {}, chain, nonces)
  {
  }

  lemma OneAdvanced(was: Pool, nonces: map<nat, nat>, accounts: set<nat>, chain: Chain, mid: Pool, between: map<nat, nat>,
                    a: nat, after: map<nat, nat>)
    requires AllAdvanced(was, nonces, accounts, chain, between) && a !in accounts && SameLists(was, a, mid)
    requires NonceAdvanced(mid, a, NonceIn(between, chain, a), chain, NonceIn(after, chain, a))
    requires forall b :: b != a ==> NonceIn(after, chain, b) == NonceIn(between, chain, b)
    ensures AllAdvanced(was, nonces, accounts + {a}, chain, after)
  {
    hide NonceAdvanced, SameLists, NonceIn;
    AdvancedFrom(was, a, mid, NonceIn(between, chain, a), chain, NonceIn(after, chain, a));
  }

  lemma ReadyIs(payable: Items, start: nat, promoted: Items)
    requires promoted.Keys == ReadyNonces(payable, start) && SubItems(promoted, payable)
    ensures promoted == ReadyItems(payable, start)
  {
  }

  /** What promoting one account ensures. */
  lemma PromotedIs(was: Pool, a: nat, start: nat, chain: Chain, limit: Option<nat>, promoted: Items, dropped: Items, now: Pool)
    requires a in was.q && Grown(was.p, a, promoted, true, now.p)
    requires PromotedFrom(was.q[a], Payable(was.q[a], Get(chain.nonces, a), Get(chain.balances, a), chain.maxGas), start,
      limit, promoted, dropped, ListOf(now.q, a, false).items)
    ensures AccountPromoted(was, a, start, chain, limit, now)
  {
    hide ReadyNonces, IsLowest, Payable, ListOf;
    ReadyIs(Payable(was.q[a], Get(chain.nonces, a), Get(chain.balances, a), chain.maxGas).items, start, promoted);
  }

  lemma NothingPromoted(s: Pool, a: nat, start: nat, chain: Chain, limit: Option<nat>)
    requires a !in s.q
    ensures AccountPromoted(s, a, start, chain, limit, s)
  {
  }

  lemma OthersAsTheyWere(was: Pool, a: nat, now: Pool)
    requires now.p - {a} == was.p - {a} && now.q - {a} == was.q - {a}
    ensures forall b :: b != a ==> SameLists(was, b, now)
  {
    OthersSame(was.p, a, now.p);
    OthersSame(was.q, a, now.q);
  }

  lemma GrownOthers(was: Lists, a: nat, items: Items, strict: bool, now: Lists)
    requires Grown(was, a, items, strict, now)
    ensures now - {a} == was - {a}
  {
  }

  /** The accounts dealt with have been promoted from where they stood before, and the others are as they were. */
  ghost predicate AllPromoted(was: Pool, nonces: map<nat, nat>, accounts: set<nat>, chain: Chain, locals: set<nat>,
                              limit: nat, now: Pool)
  {
    && (forall a :: a in accounts ==>
          AccountPromoted(was, a, NonceIn(nonces, chain, a), chain, QueueLimit(a, locals, limit), now))
    && (forall a :: a !in accounts ==> SameLists(was, a, now))
  }

  lemma NonePromoted(was: Pool, nonces: map<nat, nat>, chain: Chain, locals: set<nat>, limit: nat)
    ensures AllPromoted(was, nonces, {}, chain, locals, limit, was)
  {
  }

  lemma OnePromoted(was: Pool, nonces: map<nat, nat>, accounts: set<nat>, chain: Chain, locals: set<nat>, limit: nat,
                    mid: Pool, a: nat, now: Pool)
    requires AllPromoted(was, nonces, accounts, chain, locals, limit, mid) && a !in accounts
    requires AccountPromoted(mid, a, NonceIn(nonces, chain, a), chain, QueueLimit(a, locals, limit), now)
    requires forall b :: b != a ==> SameLists(mid, b, now)
    ensures AllPromoted(was, nonces, accounts + {a}, chain, locals, limit, now)
  {
    hide AccountPromoted, SameLists, NonceIn, QueueLimit;
    forall b ensures b in accounts + {a} ==>
        AccountPromoted(was, b, NonceIn(nonces, chain, b), chain, QueueLimit(b, locals, limit), now)
      ensures b !in accounts + {a} ==> SameLists(was, b, now)
    {
      if b == a {
        PromotedFirst(was, mid, a, NonceIn(nonces, chain, a), chain, QueueLimit(a, locals, limit), now);
      } else if b in accounts {
        PromotedThen(was, b, NonceIn(nonces, chain, b), chain, QueueLimit(b, locals, limit), mid, now);
      } else {
        SameTwice(was, mid, b, now);
      }
    }
  }

  /** An account that has not been dealt with is as it was. */
  lemma StillThere(was: Pool, nonces: map<nat, nat>, accounts: set<nat>, chain: Chain, locals: set<nat>, limit: nat,
                   mid: Pool, a: nat)
    requires AllPromoted(was, nonces, accounts, chain, locals, limit, mid) && a !in accounts
    ensures SameLists(was, a, mid)
  {
  }

  lemma SameTwice(was: Pool, mid: Pool, a: nat, now: Pool)
    requires SameLists(was, a, mid) && SameLists(mid, a, now)
    ensures SameLists(was, a, now)
  {
  }

  lemma PromotedFirst(was: Pool, mid: Pool, a: nat, start: nat, chain: Chain, limit: Option<nat>, now: Pool)
    requires SameLists(was, a, mid) && AccountPromoted(mid, a, start, chain, limit, now)
    ensures AccountPromoted(was, a, start, chain, limit, now)
  {
    hide Payable, ReadyItems, IsLowest;
  }

  lemma PromotedThen(was: Pool, a: nat, start: nat, chain: Chain, limit: Option<nat>, mid: Pool, now: Pool)
    requires AccountPromoted(was, a, start, chain, limit, mid) && SameLists(mid, a, now)
    ensures AccountPromoted(was, a, start, chain, limit, now)
  {
    hide Payable, ReadyItems, IsLowest;
  }

  /** A queue has no place to lose usable transactions in. */
  lemma QueuePayable(l: TxList, nonce: nat, balance: nat, maxGas: nat)
    requires CapsOk(l) && !l.strict
    ensures SubItems(Payable(l, nonce, balance, maxGas).items, l.items)
    ensures forall n :: n in l.items && n !in Payable(l, nonce, balance, maxGas).items ==>
      n < nonce || TooCostly(l.items[n], balance, maxGas)
  {
    FilterIsNaive(Forward(l, nonce), balance, maxGas);
  }

  /** What an account's lists hold after promotion they held before. */
  lemma PromotedHeld(was: Pool, start: nat, chain: Chain, limit: Option<nat>, now: Pool, tx: Tx)
    requires Ok(was) && AccountPromoted(was, tx.sender, start, chain, limit, now)
    ensures Held(now, tx) ==> Held(was, tx)
    ensures Held(was, tx) && !Held(now, tx) ==> Holds(was.q, tx)
    ensures Held(was, tx) && !Held(now, tx) ==>
      Useless(tx, chain) || (limit.Some? && Behind(was.q[tx.sender].items, tx.nonce, limit.value))
  {
    var a := tx.sender;
    hide Ok, Payable, ReadyItems, CapsOk, Useless, Behind;
    if a in was.q {
      QueueFacts(was, a);
      var items := was.q[a].items;
      var payable := Payable(was.q[a], Get(chain.nonces, a), Get(chain.balances, a), chain.maxGas).items;
      QueuePayable(was.q[a], Get(chain.nonces, a), Get(chain.balances, a), chain.maxGas);
      ReadySub(payable, start);
      PromotedTx(items, ListOf(was.p, a, true).items, payable, ReadyItems(payable, start), chain, limit,
        ListOf(now.q, a, false).items, tx);
      HeldIs(was, tx);
      HeldIs(now, tx);
    } else {
      SameHeld(was, now, tx);
    }
  }

  lemma QueueFacts(s: Pool, a: nat)
    requires Ok(s) && a in s.q
    ensures CapsOk(s.q[a]) && !s.q[a].strict && ListOf(s.p, a, true).items.Keys !! s.q[a].items.Keys
  {
    assert ListOk(s.q[a], a);
  }

  lemma HeldIs(s: Pool, tx: Tx)
    ensures Held(s, tx) <==> In(ListOf(s.p, tx.sender, true).items, tx) || In(ListOf(s.q, tx.sender, false).items, tx)
  {
  }

  predicate In(items: Items, tx: Tx) {
    tx.nonce in items && items[tx.nonce] == tx
  }

  lemma ReadySub(payable: Items, start: nat)
    ensures SubItems(ReadyItems(payable, start), payable)
  {
  }

  lemma PromotedTx(items: Items, pending: Items, payable: Items, ready: Items, chain: Chain, limit: Option<nat>,
                   left: Items, tx: Tx)
    requires SubItems(payable, items) && pending.Keys !! items.Keys && SubItems(ready, payable)
    requires forall n :: n in items && n !in payable ==>
      n < Get(chain.nonces, tx.sender) || TooCostly(items[n], Get(chain.balances, tx.sender), chain.maxGas)
    requires if limit.None? then left == payable - ready.Keys else IsLowest(payable - ready.Keys, limit.value, left)
    ensures In(pending + ready, tx) || In(left, tx) ==> In(pending, tx) || In(items, tx)
    ensures In(pending, tx) ==> In(pending + ready, tx)
    ensures In(items, tx) ==>
      In(pending + ready, tx) || In(left, tx) || Useless(tx, chain) || (limit.Some? && Behind(items, tx.nonce, limit.value))
  {
    hide Behind, IsLowest, Useless;
    var rest := payable - ready.Keys;
    if limit.Some? { LowestIn(rest, limit.value, left); }
    InPromoted(items, pending, payable, ready, left, tx);
    if tx.nonce in rest && tx.nonce !in left { BeyondLimit(items, rest, limit.value, left, tx.nonce); }
    if tx.nonce in items && tx.nonce !in payable { UselessIs(items, chain, tx); }
  }

  lemma UselessIs(items: Items, chain: Chain, tx: Tx)
    requires tx.nonce in items
      && (tx.nonce < Get(chain.nonces, tx.sender)
          || TooCostly(items[tx.nonce], Get(chain.balances, tx.sender), chain.maxGas))
    ensures In(items, tx) ==> Useless(tx, chain)
  {
  }

  lemma InPromoted(items: Items, pending: Items, payable: Items, ready: Items, left: Items, tx: Tx)
    requires SubItems(payable, items) && pending.Keys !! items.Keys && SubItems(ready, payable)
    requires SubItems(left, payable - ready.Keys)
    ensures In(pending + ready, tx) || In(left, tx) ==> In(pending, tx) || In(items, tx)
    ensures In(pending, tx) ==> In(pending + ready, tx)
    ensures In(items, tx) && tx.nonce in ready ==> In(pending + ready, tx)
    ensures In(items, tx) && tx.nonce in left ==> In(left, tx)
  {
  }

  lemma BeyondLimit(items: Items, rest: Items, limit: nat, left: Items, n: nat)
    requires SubItems(rest, items) && IsLowest(rest, limit, left) && n in rest && n !in left
    ensures Behind(items, n, limit)
  {
    assert SubItems(left, rest);
    if |left| == |rest| { SubSame(left, rest); }
    assert SubItems(left, items);
  }

  // ---------- demotion ----------

  /** Of an account's pending list what is useless goes, and unless the rest starts at the account's nonce it is in the
      queue again, as is what follows something too costly. */
  ghost predicate AccountDemoted(was: Pool, a: nat, chain: Chain, now: Pool) {
    if a !in was.p then SameLists(was, a, now)
    else
      var items, nonce := was.p[a].items, Get(chain.nonces, a);
      var payable := Payable(was.p[a], nonce, Get(chain.balances, a), chain.maxGas).items;
      var left := if nonce in payable then payable else map[];
      var useless := Unusable(items, nonce, Get(chain.balances, a), chain.maxGas);
      && ListOf(now.p, a, true).items == left
      && ListOf(now.q, a, false).items == ListOf(was.q, a, false).items + (items - useless.Keys - left.Keys)
  }

  lemma DemotedIs(was: Pool, a: nat, chain: Chain, now: Pool)
    requires a in was.p
    requires DemotedFrom(was, a, Get(chain.nonces, a), Get(chain.balances, a), chain.maxGas, now)
    ensures AccountDemoted(was, a, chain, now) && now.q - {a} == was.q - {a}
  {
    hide Payable, Unusable, ListOf;
  }

  ghost predicate AllDemoted(was: Pool, accounts: set<nat>, chain: Chain, now: Pool) {
    && (forall a :: a in accounts ==> AccountDemoted(was, a, chain, now))
    && (forall a :: a !in accounts ==> SameLists(was, a, now))
  }

  lemma NoneDemoted(was: Pool, chain: Chain)
    ensures AllDemoted(was, {}, chain, was)
  {
  }

  lemma OneDemoted(was: Pool, accounts: set<nat>, chain: Chain, mid: Pool, a: nat, now: Pool)
    requires AllDemoted(was, accounts, chain, mid) && a !in accounts && AccountDemoted(mid, a, chain, now)
    requires forall b :: b != a ==> SameLists(mid, b, now)
    ensures AllDemoted(was, accounts + {a}, chain, now)
  {
    hide AccountDemoted, SameLists;
    forall b ensures b in accounts + {a} ==> AccountDemoted(was, b, chain, now)
      ensures b !in accounts + {a} ==> SameLists(was, b, now)
    {
      if b == a || b in accounts {
        DemotedBetween(was, b, chain, mid, now);
      } else {
        SameTwice(was, mid, b, now);
      }
    }
  }

  lemma NotYetDemoted(was: Pool, accounts: set<nat>, chain: Chain, mid: Pool, a: nat)
    requires AllDemoted(was, accounts, chain, mid) && a !in accounts
    ensures SameLists(was, a, mid)
  {
  }

  lemma DemotedBetween(was: Pool, a: nat, chain: Chain, mid: Pool, now: Pool)
    requires (SameLists(was, a, mid) && AccountDemoted(mid, a, chain, now))
      || (AccountDemoted(was, a, chain, mid) && SameLists(mid, a, now))
    ensures AccountDemoted(was, a, chain, now)
  {
    hide Payable, Unusable;
  }

  /** Demotion loses only useless pending transactions. */
  lemma DemotedHeld(was: Pool, chain: Chain, now: Pool, tx: Tx)
    requires Ok(was) && AccountDemoted(was, tx.sender, chain, now)
    ensures Held(now, tx) ==> Held(was, tx)
    ensures Held(was, tx) && !Held(now, tx) ==> Useless(tx, chain) && Holds(was.p, tx)
  {
    var a := tx.sender;
    hide Ok, Payable, Unusable, Useless;
    if a in was.p {
      PendingApart(was, a);
      PayableIs(was.p[a], Get(chain.nonces, a), Get(chain.balances, a), chain.maxGas);
      var payable := Payable(was.p[a], Get(chain.nonces, a), Get(chain.balances, a), chain.maxGas).items;
      DemotedTx(was.p[a].items, ListOf(was.q, a, false).items, chain,
        if Get(chain.nonces, a) in payable then payable else map[], tx);
      HeldIs(was, tx);
      HeldIs(now, tx);
    } else {
      SameHeld(was, now, tx);
    }
  }

  lemma PendingApart(s: Pool, a: nat)
    requires Ok(s) && a in s.p
    ensures CapsOk(s.p[a]) && s.p[a].items.Keys !! ListOf(s.q, a, false).items.Keys
  {
    assert ListOk(s.p[a], a);
  }

  lemma DemotedTx(items: Items, queued: Items, chain: Chain, left: Items, tx: Tx)
    requires SubItems(left, items) && items.Keys !! queued.Keys
    ensures var useless := Unusable(items, Get(chain.nonces, tx.sender), Get(chain.balances, tx.sender), chain.maxGas);
      var now := queued + (items - useless.Keys - left.Keys);
      && (In(left, tx) || In(now, tx) ==> In(items, tx) || In(queued, tx))
      && (In(items, tx) || In(queued, tx) ==> In(left, tx) || In(now, tx) || (Useless(tx, chain) && In(items, tx)))
  {
    hide TooCostly;
  }

  // ---------- the limits ----------

  /** What cutting transactions off a pending list does to the account's next nonce: it is at most that of any of them, and
      is one of theirs if it changes. */
  predicate NonceCut(was: Lists, a: nat, before: nat, now: Lists, after: nat) {
    && after <= before && (forall n :: IsCut(was, a, n, now) ==> after <= n) && (after == before || IsCut(was, a, after, now))
  }

  predicate IsCut(was: Lists, a: nat, n: nat, now: Lists) {
    a in was && n in was[a].items && (a !in now || n !in now[a].items)
  }

  ghost predicate NoncesCut(was: Lists, before: map<nat, nat>, chain: Chain, now: Lists, after: map<nat, nat>) {
    && (forall a :: a in now ==> a in was && SubItems(now[a].items, was[a].items))
    && (forall a :: NonceCut(was, a, NonceIn(before, chain, a), now, NonceIn(after, chain, a)))
  }

  lemma NoncesCutNone(lists: Lists, nonces: map<nat, nat>, chain: Chain)
    ensures NoncesCut(lists, nonces, chain, lists, nonces)
  {
  }

  lemma NoncesCutTwice(was: Lists, before: map<nat, nat>, chain: Chain, mid: Lists, between: map<nat, nat>, now: Lists,
                       after: map<nat, nat>)
    requires NoncesCut(was, before, chain, mid, between) && NoncesCut(mid, between, chain, now, after)
    ensures NoncesCut(was, before, chain, now, after)
  {
    hide NonceIn;
    forall a ensures NonceCut(was, a, NonceIn(before, chain, a), now, NonceIn(after, chain, a)) {
      assert NonceCut(was, a, NonceIn(before, chain, a), mid, NonceIn(between, chain, a));
      assert NonceCut(mid, a, NonceIn(between, chain, a), now, NonceIn(after, chain, a));
      CutTwice(was, a, mid, now);
    }
    forall a | a in now ensures a in was && SubItems(now[a].items, was[a].items) {
      assert a in mid;
    }
  }

  lemma CutTwice(was: Lists, a: nat, mid: Lists, now: Lists)
    requires a in mid ==> a in was && SubItems(mid[a].items, was[a].items)
    requires a in now ==> a in mid && SubItems(now[a].items, mid[a].items)
    ensures forall n :: IsCut(was, a, n, now) <==> IsCut(was, a, n, mid) || IsCut(mid, a, n, now)
  {
  }

  lemma SameCut(was: Lists, before: map<nat, nat>, chain: Chain, now: Lists, between: map<nat, nat>, after: map<nat, nat>)
    requires NoncesCut(was, before, chain, now, between)
    requires forall a :: NonceIn(after, chain, a) == NonceIn(between, chain, a)
    ensures NoncesCut(was, before, chain, now, after)
  {
    hide NonceIn;
    forall a ensures NonceCut(was, a, NonceIn(before, chain, a), now, NonceIn(after, chain, a)) {
      assert NonceCut(was, a, NonceIn(before, chain, a), now, NonceIn(between, chain, a));
    }
  }

  /** One account's. */
  lemma NoncesCutOne(was: Lists, before: map<nat, nat>, chain: Chain, a: nat, caps: Items, now: Lists, after: map<nat, nat>)
    requires a in was && a in now && now.Keys == was.Keys && now - {a} == was - {a}
    requires SubItems(caps, was[a].items) && now[a].items == was[a].items - caps.Keys
    requires forall n :: n in caps ==> NonceIn(after, chain, a) <= n
    requires NonceIn(after, chain, a) <= NonceIn(before, chain, a)
    requires NonceIn(after, chain, a) == NonceIn(before, chain, a) || NonceIn(after, chain, a) in caps
    requires forall b :: b != a ==> NonceIn(after, chain, b) == NonceIn(before, chain, b)
    ensures NoncesCut(was, before, chain, now, after)
  {
    hide NonceIn;
    forall b | b in now ensures b in was && SubItems(now[b].items, was[b].items) {
      if b != a { assert now[b] == (now - {a})[b] == was[b]; }
    }
    forall b ensures NonceCut(was, b, NonceIn(before, chain, b), now, NonceIn(after, chain, b)) {
      if b != a && b in was { assert now[b] == (now - {a})[b] == (was - {a})[b]; }
    }
  }

  /** The pending lists after the limit on them: nothing changes within it; above it all accounts that are not local are
      cut to one level. */
  ghost predicate PendingCut(was: Lists, locals: set<nat>, config: Config, level: nat, now: Lists) {
    && Trimmed(was, now)
    && if MapSum.Sum(Lens(was)) <= config.globalSlots then now == was
       else Fair(Lens(was), locals, config.globalSlots, config.accountSlots, level, Lens(now))
  }

  /** The queue after the limit on it: nothing changes within it or for local accounts. */
  ghost predicate QueueTrimmed(was: Lists, locals: set<nat>, config: Config, now: Lists) {
    && (forall a :: a in now ==> a in was && LowPart(now[a].items, was[a].items))
    && (forall a :: a in was && a in locals ==> a in now && now[a] == was[a])
    && (MapSum.Sum(Lens(was)) <= config.globalQueue ==> now == was)
  }

  lemma CutTrims(was: Lists, locals: set<nat>, config: Config, level: nat, now: Lists)
    requires PendingCut(was, locals, config, level, now)
    ensures Trimmed(was, now)
  {
  }

  lemma QueueTrimmedIs(was: Lists, beats: Counts, locals: set<nat>, config: Config, now: Lists)
    requires was.Keys <= beats.Keys && QueueCut(was, beats, locals, now)
    requires MapSum.Sum(Lens(was)) <= config.globalQueue ==> now == was
    ensures QueueTrimmed(was, locals, config, now)
  {
    hide LowPart, Lens;
  }

  /** Why a limit drops a transaction: the limit is exceeded, its account is not local, and a pending one has at least the
      guaranteed number of its account's transactions before it. */
  ghost predicate CutOff(was: Pool, tx: Tx, locals: set<nat>, config: Config) {
    && tx.sender !in locals
    && ((Holds(was.p, tx) && MapSum.Sum(Lens(was.p)) > config.globalSlots
          && Behind(was.p[tx.sender].items, tx.nonce, config.accountSlots))
        || (Holds(was.q, tx) && MapSum.Sum(Lens(was.q)) > config.globalQueue))
  }

  lemma CutHeld(was: Pool, locals: set<nat>, config: Config, level: nat, now: Pool, tx: Tx)
    requires PendingCut(was.p, locals, config, level, now.p) && QueueTrimmed(was.q, locals, config, now.q)
    ensures Held(now, tx) ==> Held(was, tx)
    ensures Held(was, tx) && !Held(now, tx) ==> CutOff(was, tx, locals, config)
  {
    hide Lens, Fair;
    if Holds(was.p, tx) && !Holds(now.p, tx) {
      PendingLost(was.p, locals, config, level, now.p, tx);
    }
  }

  lemma PendingLost(was: Lists, locals: set<nat>, config: Config, level: nat, now: Lists, tx: Tx)
    requires PendingCut(was, locals, config, level, now) && Holds(was, tx) && !Holds(now, tx)
    ensures tx.sender !in locals && MapSum.Sum(Lens(was)) > config.globalSlots
    ensures Behind(was[tx.sender].items, tx.nonce, config.accountSlots)
  {
    hide Lens, Fair;
    var a := tx.sender;
    var kept := now[a].items;
    FairMeans(Lens(was), locals, config.globalSlots, config.accountSlots, level, Lens(now));
    LensAt(was, a);
    LensAt(now, a);
    assert SubItems(kept, was[a].items) && tx.nonce !in kept;
    if |kept| == |was[a].items| { SubSame(kept, was[a].items); }
  }

  lemma SubSame(some: Items, items: Items)
    requires SubItems(some, items) && |some| == |items|
    ensures some == items
  {
    SubKeys(some.Keys, items.Keys);
  }

  lemma {:induction false} SubKeys(s: set<nat>, t: set<nat>)
    requires s <= t && |s| == |t|
    ensures s == t
  {
    if s != t {
      var x :| x in t && x !in s;
      assert s <= t - {x};
      SmallerSet(s, t - {x});
    }
  }

  lemma {:induction false} SmallerSet(s: set<nat>, t: set<nat>)
    requires s <= t
    ensures |s| <= |t|
  {
    if s != {} {
      var x :| x in s;
      SmallerSet(s - {x}, t - {x});
    }
  }

  // ---------- the whole run ----------

  /** Why a background run drops a transaction: it is useless under the chain state, or there are as many queued before it as
      its account's queue may hold, or a limit was exceeded when the run came to it. */
  ghost predicate LostFor(was: Pool, tx: Tx, chain: Chain, locals: set<nat>, config: Config, demoted: Pool) {
    || Useless(tx, chain)
    || (tx.sender !in locals && Holds(was.q, tx) && Behind(was.q[tx.sender].items, tx.nonce, config.accountQueue))
    || CutOff(demoted, tx, locals, config)
  }

  lemma PromotionLoses(was: Pool, nonces: map<nat, nat>, accounts: set<nat>, chain: Chain, locals: set<nat>, limit: nat,
                       now: Pool, tx: Tx)
    requires Ok(was) && AllPromoted(was, nonces, accounts, chain, locals, limit, now)
    ensures Held(now, tx) ==> Held(was, tx)
    ensures Held(was, tx) && !Held(now, tx) ==> tx.sender in accounts && Holds(was.q, tx)
    ensures Held(was, tx) && !Held(now, tx) ==>
      Useless(tx, chain) || (tx.sender !in locals && Behind(was.q[tx.sender].items, tx.nonce, limit))
  {
    hide Ok, AccountPromoted, SameLists, NonceIn, Held, Useless, Behind;
    if tx.sender in accounts {
      PromotedHeld(was, NonceIn(nonces, chain, tx.sender), chain, QueueLimit(tx.sender, locals, limit), now, tx);
    } else {
      SameHeld(was, now, tx);
    }
  }

  lemma DemotionLoses(was: Pool, accounts: set<nat>, chain: Chain, now: Pool, tx: Tx)
    requires Ok(was) && AllDemoted(was, accounts, chain, now)
    ensures Held(now, tx) ==> Held(was, tx)
    ensures Held(was, tx) && !Held(now, tx) ==> Useless(tx, chain) && Holds(was.p, tx)
  {
    hide Ok, AccountDemoted, SameLists, Held, Useless, Holds;
    if tx.sender in accounts {
      DemotedHeld(was, chain, now, tx);
    } else {
      SameHeld(was, now, tx);
    }
  }

  /** In terms of the lookup: nothing new, and whatever is no longer known is no longer held. */
  lemma OnlyLoses(was: Pool, now: Pool)
    requires Ok(was) && Ok(now) && was.floating == {} && now.floating == {}
    requires forall tx :: Held(now, tx) ==> Held(was, tx)
    ensures forall h :: h in now.all ==> h in was.all && now.all[h] == was.all[h]
    ensures forall h :: h in was.all && h !in now.all ==> Held(was, was.all[h]) && !Held(now, was.all[h])
  {
    hide PoolOk, Held, Strictness;
    forall h | h in now.all ensures h in was.all && now.all[h] == was.all[h] {
      HashIs(now, h);
      KnownIsHeld(now, now.all[h]);
      KnownIsHeld(was, now.all[h]);
    }
    forall h | h in was.all && h !in now.all ensures Held(was, was.all[h]) && !Held(now, was.all[h]) {
      HashIs(was, h);
      KnownIsHeld(was, was.all[h]);
      KnownIsHeld(now, was.all[h]);
    }
  }

  lemma HashIs(s: Pool, h: nat)
    requires Ok(s) && h in s.all
    ensures s.all[h].hash == h
  {
  }

  /** Nothing is new, and what is gone was useless or too far behind in the queue of one of the accounts. */
  ghost predicate PromotionLost(was: Pool, accounts: set<nat>, chain: Chain, locals: set<nat>, limit: nat, now: Pool) {
    && (forall h :: h in now.all ==> h in was.all && now.all[h] == was.all[h])
    && (forall h :: h in was.all && h !in now.all ==> var tx := was.all[h];
          tx.sender in accounts && Holds(was.q, tx)
          && (Useless(tx, chain) || (tx.sender !in locals && Behind(was.q[tx.sender].items, tx.nonce, limit))))
  }

  lemma PromotionLostIs(was: Pool, nonces: map<nat, nat>, accounts: set<nat>, chain: Chain, locals: set<nat>, limit: nat,
                        now: Pool)
    requires Ok(was) && Ok(now) && was.floating == {} && now.floating == {}
    requires AllPromoted(was, nonces, accounts, chain, locals, limit, now)
    ensures PromotionLost(was, accounts, chain, locals, limit, now)
  {
    hide Ok, AllPromoted, Held, Useless, Behind;
    forall tx ensures Held(now, tx) ==> Held(was, tx) {
      PromotionLoses(was, nonces, accounts, chain, locals, limit, now, tx);
    }
    OnlyLoses(was, now);
    forall h | h in was.all && h !in now.all {
      PromotionLoses(was, nonces, accounts, chain, locals, limit, now, was.all[h]);
    }
  }

  /** Nothing is new, and what is gone was pending and useless. */
  ghost predicate DemotionLost(was: Pool, chain: Chain, now: Pool) {
    && (forall h :: h in now.all ==> h in was.all && now.all[h] == was.all[h])
    && (forall h :: h in was.all && h !in now.all ==> Useless(was.all[h], chain) && Holds(was.p, was.all[h]))
  }

  lemma DemotionLostIs(was: Pool, accounts: set<nat>, chain: Chain, now: Pool)
    requires Ok(was) && Ok(now) && was.floating == {} && now.floating == {} && AllDemoted(was, accounts, chain, now)
    ensures DemotionLost(was, chain, now)
    ensures forall h :: h in was.all && h !in now.all ==> var tx := was.all[h];
      || tx.nonce < (if tx.sender in chain.nonces then chain.nonces[tx.sender] else 0)
      || tx.cost > (if tx.sender in chain.balances then chain.balances[tx.sender] else 0)
      || tx.gas > chain.maxGas
  {
    hide Ok, AllDemoted, Held, Holds;
    forall tx ensures Held(now, tx) ==> Held(was, tx) {
      DemotionLoses(was, accounts, chain, now, tx);
    }
    OnlyLoses(was, now);
    forall h | h in was.all && h !in now.all {
      DemotionLoses(was, accounts, chain, now, was.all[h]);
    }
  }

  /** Nothing is new, and each transaction that is gone is so for a reason. */
  ghost predicate RunLost(was: Pool, chain: Chain, locals: set<nat>, config: Config, demoted: Pool, now: Pool) {
    && (forall h :: h in now.all ==> h in was.all && now.all[h] == was.all[h])
    && (forall h :: h in was.all && h !in now.all ==> LostFor(was, was.all[h], chain, locals, config, demoted))
  }

  lemma RunLostIs(was: Pool, nonces: map<nat, nat>, accounts: set<nat>, chain: Chain, locals: set<nat>, config: Config,
                  promoted: Pool, demoted: Pool, level: nat, now: Pool)
    requires Ok(was) && Ok(promoted) && Ok(now) && was.floating == {} && now.floating == {}
    requires AllPromoted(was, nonces, accounts, chain, locals, config.accountQueue, promoted)
    requires demoted == promoted || AllDemoted(promoted, promoted.p.Keys, chain, demoted)
    requires PendingCut(demoted.p, locals, config, level, now.p) && QueueTrimmed(demoted.q, locals, config, now.q)
    ensures RunLost(was, chain, locals, config, demoted, now)
  {
    hide Ok, AllPromoted, AllDemoted, Held, Useless, Behind, Holds, CutOff, PendingCut, QueueTrimmed;
    forall tx ensures Held(now, tx) ==> Held(was, tx)
      ensures Held(was, tx) && !Held(now, tx) ==> LostFor(was, tx, chain, locals, config, demoted)
    {
      PromotionLoses(was, nonces, accounts, chain, locals, config.accountQueue, promoted, tx);
      if demoted != promoted { DemotionLoses(promoted, promoted.p.Keys, chain, demoted, tx); }
      CutHeld(demoted, locals, config, level, now, tx);
    }
    OnlyLoses(was, now);
  }
}
