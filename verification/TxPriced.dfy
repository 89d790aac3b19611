/** The two-heap price list from which the pool evicts remote transactions (evmcore/tx_list.go, txPricedList). */
module PricedLists {
  import opened Collections
  import opened TxLists
  import opened TxLookups
  import opened Heaps
  import opened PoolState

  // ---------- the price order ----------

  function Sign(a: int, b: int): int {
    if a < b then -1 else if a > b then 1 else 0
  }

  /** What a transaction pays on top of the base fee. */
  function Tip(tx: Tx, baseFee: nat): int {
    if tx.tipCap <= tx.feeCap - baseFee then tx.tipCap else tx.feeCap - baseFee
  }

  /** Compares by effective tip if there is a base fee, then by fee cap, then by tip cap. */
  function Cmp(a: Tx, b: Tx, baseFee: Option<nat>): int {
    if baseFee.Some? && Tip(a, baseFee.value) != Tip(b, baseFee.value)
    then Sign(Tip(a, baseFee.value), Tip(b, baseFee.value))
    else if a.feeCap != b.feeCap then Sign(a.feeCap, b.feeCap)
    else Sign(a.tipCap, b.tipCap)
  }

  /** Of equally priced transactions the one with the higher nonce goes first. */
  predicate Cheaper(a: Tx, b: Tx, baseFee: Option<nat>) {
    Cmp(a, b, baseFee) == -1 || (Cmp(a, b, baseFee) == 0 && a.nonce > b.nonce)
  }

  function Less(baseFee: Option<nat>): (Tx, Tx) -> bool {
    (a: Tx, b: Tx) => Cheaper(a, b, baseFee)
  }

  /** Pays less, in numbers: with a base fee, for the lesser of its tip cap and what its fee cap leaves above the base fee;
      for equal ones, and without a base fee, for its fee cap, and then for its tip cap. */
  predicate PaysLess(a: Tx, b: Tx, baseFee: Option<nat>) {
    match baseFee
    case None => CapsLess(a, b)
    case Some(fee) =>
      || LesserBelow(a.tipCap, a.feeCap - fee, b.tipCap, b.feeCap - fee)
      || (!LesserBelow(b.tipCap, b.feeCap - fee, a.tipCap, a.feeCap - fee) && CapsLess(a, b))
  }

  predicate CapsLess(a: Tx, b: Tx) {
    a.feeCap < b.feeCap || (a.feeCap == b.feeCap && a.tipCap < b.tipCap)
  }

  /** The lesser of the first two numbers is below that of the other two. */
  predicate LesserBelow(m: int, n: int, x: int, y: int) {
    (m < x || n < x) && (m < y || n < y)
  }

  lemma CmpIs(a: Tx, b: Tx, baseFee: Option<nat>)
    ensures Cmp(a, b, baseFee) == if PaysLess(a, b, baseFee) then -1 else if PaysLess(b, a, baseFee) then 1 else 0
  {
  }

  /** Goes first: pays less, or the same with a higher nonce. */
  predicate GoesFirst(a: Tx, b: Tx, baseFee: Option<nat>) {
    PaysLess(a, b, baseFee) || (!PaysLess(b, a, baseFee) && a.nonce > b.nonce)
  }

  lemma LessIs(a: Tx, b: Tx, baseFee: Option<nat>)
    ensures Less(baseFee)(a, b) <==> GoesFirst(a, b, baseFee)
  {
    CmpIs(a, b, baseFee);
    CmpIs(b, a, baseFee);
    hide Cmp;
  }

  lemma LessMeans(baseFee: Option<nat>)
    ensures forall a, b :: Less(baseFee)(a, b) <==> GoesFirst(a, b, baseFee)
  {
    forall a, b ensures Less(baseFee)(a, b) <==> GoesFirst(a, b, baseFee) {
      LessIs(a, b, baseFee);
    }
  }

  lemma LessOrder(baseFee: Option<nat>)
    ensures Order(Less(baseFee))
  {
    hide Cheaper;
    forall x, y | Less(baseFee)(x, y) ensures !Less(baseFee)(y, x) {
      CheaperOnce(x, y, baseFee);
    }
    forall x, y, z | !Less(baseFee)(y, x) && !Less(baseFee)(z, y) ensures !Less(baseFee)(z, x) {
      CheaperThen(x, y, z, baseFee);
    }
  }

  lemma CheaperOnce(x: Tx, y: Tx, baseFee: Option<nat>)
    ensures !(Cheaper(x, y, baseFee) && Cheaper(y, x, baseFee))
  {
  }

  lemma CheaperThen(x: Tx, y: Tx, z: Tx, baseFee: Option<nat>)
    requires !Cheaper(y, x, baseFee) && !Cheaper(z, y, baseFee)
    ensures !Cheaper(z, x, baseFee)
  {
    hide Tip;
  }

  lemma LeastIsCheapest(a: Tx, b: Tx, tx: Tx, baseFee: Option<nat>)
    requires !Less(baseFee)(b, a) && Cmp(a, tx, baseFee) >= 0
    ensures Cmp(b, tx, baseFee) >= 0
  {
  }

  // ---------- counting ----------

  /** How many entries are no longer remote transactions of the pool. */
  ghost function Stale(m: multiset<Tx>, remotes: Lookup): nat
    decreases |m|
  {
    if m == multiset{} then 0
    else
      var x :| x in m;
      Weight(x, remotes) + Stale(m - multiset{x}, remotes)
  }

  function Weight(x: Tx, remotes: Lookup): nat {
    if x.hash in remotes then 0 else 1
  }

  lemma {:induction false} StaleWithout(m: multiset<Tx>, x: Tx, remotes: Lookup)
    requires x in m
    ensures Stale(m, remotes) == Weight(x, remotes) + Stale(m - multiset{x}, remotes)
    decreases |m|
  {
    hide Weight, Stale;
    var y := StaleStep(m, remotes);
    if y != x {
      TakeBoth(m, x, y);
      StaleWithout(m - multiset{y}, x, remotes);
      StaleWithout(m - multiset{x}, y, remotes);
    }
  }

  lemma StaleStep(m: multiset<Tx>, remotes: Lookup) returns (y: Tx)
    requires m != multiset{}
    ensures y in m && Stale(m, remotes) == Weight(y, remotes) + Stale(m - multiset{y}, remotes)
  {
    hide Weight;
    y :| y in m && Stale(m, remotes) == Weight(y, remotes) + Stale(m - multiset{y}, remotes);
  }

  lemma TakeBoth(m: multiset<Tx>, x: Tx, y: Tx)
    requires x in m && y in m && x != y
    ensures y in m - multiset{x} && x in m - multiset{y}
    ensures m - multiset{y} - multiset{x} == m - multiset{x} - multiset{y}
    ensures |m - multiset{x}| < |m| && |m - multiset{y}| < |m|
  {
  }

  lemma StaleAdd(m: multiset<Tx>, x: Tx, remotes: Lookup)
    ensures Stale(m + multiset{x}, remotes) == Stale(m, remotes) + Weight(x, remotes)
  {
    StaleWithout(m + multiset{x}, x, remotes);
    assert m + multiset{x} - multiset{x} == m;
  }

  lemma {:induction false} NoneStale(m: multiset<Tx>, remotes: Lookup)
    requires forall x :: x in m ==> x.hash in remotes
    ensures Stale(m, remotes) == 0
    decreases |m|
  {
    if m != multiset{} {
      var x :| x in m;
      StaleWithout(m, x, remotes);
      NoneStale(m - multiset{x}, remotes);
    }
  }

  function SlotsIn(txs: seq<Tx>): nat {
    if txs == [] then 0 else SlotsIn(txs[..|txs| - 1]) + txs[|txs| - 1].slots
  }

  lemma SlotsNext(txs: seq<Tx>, tx: Tx)
    ensures SlotsIn(txs + [tx]) == SlotsIn(txs) + tx.slots
  {
    assert (txs + [tx])[..|txs|] == txs;
  }

  /** The entries of remote transactions are the same. */
  ghost predicate LiveSame(one: multiset<Tx>, other: multiset<Tx>, remotes: Lookup) {
    forall x: Tx :: x.hash in remotes ==> one[x] == other[x]
  }

  // ---------- one heap ----------

  /** Takes the first entry out. */
  method PopHead(h: seq<Tx>, baseFee: Option<nat>, ghost remotes: Lookup) returns (x: Tx, rest: seq<Tx>)
    requires IsHeap(h, Less(baseFee)) && h != []
    ensures IsHeap(rest, Less(baseFee)) && multiset(h) == multiset(rest) + multiset{x} && x == h[0] && |rest| == |h| - 1
    ensures Stale(multiset(h), remotes) == Stale(multiset(rest), remotes) + Weight(x, remotes)
    ensures forall y :: y in h ==> !Less(baseFee)(y, x)
  {
    hide Less, IsHeap, Order, Stale, Weight;
    LessOrder(baseFee);
    x, rest := Pop(h, Less(baseFee));
    StaleAdd(multiset(rest), x, remotes);
    assert |multiset(h)| == |h| && |multiset(rest)| == |rest|;
  }

  /** Takes the cheapest entries out. */
  method TakeLowest(h: seq<Tx>, count: nat, baseFee: Option<nat>, ghost remotes: Lookup) returns (low: seq<Tx>, rest: seq<Tx>)
    requires IsHeap(h, Less(baseFee)) && count <= |h|
    ensures IsHeap(rest, Less(baseFee)) && |low| == count && |rest| + |low| == |h|
    ensures multiset(rest) + multiset(low) == multiset(h)
    ensures forall f, u :: f in low && u in rest ==> !Less(baseFee)(u, f)
  {
    hide Less, IsHeap, Order, Stale;
    low, rest := [], h;
    while |low| < count
      invariant IsHeap(rest, Less(baseFee)) && |low| <= count && |rest| + |low| == |h|
      invariant multiset(rest) + multiset(low) == multiset(h)
      invariant forall f, u :: f in low && u in rest ==> !Less(baseFee)(u, f)
      decreases count - |low|
    {
      var tx, less := PopHead(rest, baseFee, remotes);
      RestIn(rest, less, tx);
      rest, low := less, low + [tx];
    }
  }

  /** Cleans stale entries off the head, and compares what is then the head with a transaction. */
  method UnderpricedFor(h: seq<Tx>, baseFee: Option<nat>, tx: Tx, remotes: Lookup)
    returns (under: bool, rest: seq<Tx>, popped: nat)
    requires IsHeap(h, Less(baseFee))
    ensures IsHeap(rest, Less(baseFee)) && LiveSame(multiset(h), multiset(rest), remotes)
    ensures Stale(multiset(h), remotes) == Stale(multiset(rest), remotes) + popped
    ensures rest == [] <==> forall x :: x in h ==> x.hash !in remotes
    ensures under <==> rest != [] && forall x :: x in h && x.hash in remotes ==> Cmp(x, tx, baseFee) >= 0
  {
    hide Less, IsHeap, Stale, LiveSame, Cmp;
    rest, popped := h, 0;
    LiveSelf(multiset(h), remotes);
    while |rest| > 0 && rest[0].hash !in remotes
      invariant IsHeap(rest, Less(baseFee)) && LiveSame(multiset(h), multiset(rest), remotes)
      invariant Stale(multiset(h), remotes) == Stale(multiset(rest), remotes) + popped
      decreases |rest|
    {
      var x, less := PopHead(rest, baseFee, remotes);
      LiveLess(multiset(h), multiset(rest), multiset(less), x, remotes);
      rest, popped := less, popped + 1;
    }
    LiveIn(h, rest, remotes);
    under := |rest| > 0 && Cmp(rest[0], tx, baseFee) >= 0;
    if |rest| > 0 { HeadDecides(rest, baseFee, tx, remotes); }
  }

  lemma LiveTwice(one: multiset<Tx>, mid: multiset<Tx>, other: multiset<Tx>, remotes: Lookup)
    requires LiveSame(one, mid, remotes) && LiveSame(mid, other, remotes)
    ensures LiveSame(one, other, remotes)
  {
  }

  lemma LiveSelf(m: multiset<Tx>, remotes: Lookup)
    ensures LiveSame(m, m, remotes)
  {
  }

  lemma LiveLess(all: multiset<Tx>, m: multiset<Tx>, less: multiset<Tx>, x: Tx, remotes: Lookup)
    requires LiveSame(all, m, remotes) && m == less + multiset{x} && x.hash !in remotes
    ensures LiveSame(all, less, remotes)
  {
  }

  lemma LiveIn(h: seq<Tx>, rest: seq<Tx>, remotes: Lookup)
    requires LiveSame(multiset(h), multiset(rest), remotes)
    ensures forall x: Tx :: x.hash in remotes ==> (x in h <==> x in rest)
  {
    forall x: Tx | x.hash in remotes ensures x in h <==> x in rest {
      assert x in multiset(h) <==> x in multiset(rest);
    }
  }

  /** The head is a cheapest entry: it alone decides whether the transaction is underpriced. */
  lemma HeadDecides(h: seq<Tx>, baseFee: Option<nat>, tx: Tx, remotes: Lookup)
    requires IsHeap(h, Less(baseFee)) && h != [] && h[0].hash in remotes
    ensures Cmp(h[0], tx, baseFee) >= 0 <==> forall x :: x in h && x.hash in remotes ==> Cmp(x, tx, baseFee) >= 0
  {
    hide Less, IsHeap, Cmp;
    LessOrder(baseFee);
    assert h[0] in h;
    if Cmp(h[0], tx, baseFee) >= 0 {
      forall x | x in h ensures Cmp(x, tx, baseFee) >= 0 {
        var i :| 0 <= i < |h| && h[i] == x;
        FirstIsLeast(h, Less(baseFee), i);
        LeastIsCheapest(h[0], x, tx, baseFee);
      }
    }
  }

  /** There are remote transactions, and none of them is cheaper. */
  predicate NoBetter(urgent: seq<Tx>, floating: seq<Tx>, baseFee: Option<nat>, remotes: Lookup, tx: Tx) {
    && (exists x :: x in urgent + floating && x.hash in remotes)
    && (forall x :: x in urgent && x.hash in remotes ==> !PaysLess(x, tx, baseFee))
    && (forall x :: x in floating && x.hash in remotes ==> !PaysLess(x, tx, None))
  }

  lemma NoBetterIs(urgent: seq<Tx>, floating: seq<Tx>, baseFee: Option<nat>, remotes: Lookup, tx: Tx)
    ensures NoBetter(urgent, floating, baseFee, remotes, tx) <==>
      && (exists x :: x in urgent + floating && x.hash in remotes)
      && (forall x :: x in urgent && x.hash in remotes ==> Cmp(x, tx, baseFee) >= 0)
      && (forall x :: x in floating && x.hash in remotes ==> Cmp(x, tx, None) >= 0)
  {
    forall x: Tx ensures Cmp(x, tx, baseFee) >= 0 <==> !PaysLess(x, tx, baseFee)
      ensures Cmp(x, tx, None) >= 0 <==> !PaysLess(x, tx, None)
    {
      CmpIs(x, tx, baseFee);
      CmpIs(x, tx, None);
    }
    hide Cmp, PaysLess;
  }

  /** Without a base fee, a transaction with the lowest fee cap of all is not better than any. With one it is not if its tip
      cap is below both the tip cap and the fee cap less the base fee of each urgent one. */
  lemma LowestIsUnderpriced(urgent: seq<Tx>, floating: seq<Tx>, baseFee: Option<nat>, remotes: Lookup, tx: Tx)
    requires exists x :: x in urgent + floating && x.hash in remotes
    requires forall x :: x in floating && x.hash in remotes ==> tx.feeCap < x.feeCap
    requires forall x :: x in urgent && x.hash in remotes ==>
      if baseFee.None? then tx.feeCap < x.feeCap else tx.tipCap < x.tipCap && tx.tipCap < x.feeCap - baseFee.value
    ensures NoBetter(urgent, floating, baseFee, remotes, tx)
  {
  }

  class PricedList {
    const all: TxLookup
    var urgent: seq<Tx>
    var floating: seq<Tx>
    var baseFee: Option<nat>
    var stales: int

    ghost predicate Valid()
      reads this`urgent, this`floating, this`baseFee
    {
      IsHeap(urgent, Less(baseFee)) && IsHeap(floating, Less(None))
    }

    ghost function Entries(): multiset<Tx>
      reads this`urgent, this`floating
    {
      multiset(urgent) + multiset(floating)
    }

    /** By how much the counter of stale entries is off. */
    ghost function Drift(): int
      reads this, all
    {
      stales - Stale(multiset(urgent), all.remotes) - Stale(multiset(floating), all.remotes)
    }

    constructor (all: TxLookup)
      ensures Valid() && this.all == all && Entries() == multiset{} && Drift() == 0
    {
      this.all := all;
      urgent, floating, baseFee, stales := [], [], None, 0;
    }

    /** A new transaction first enters the urgent heap. */
    method Put(tx: Tx, local: bool)
      requires Valid()
      modifies this`urgent
      ensures Valid() && Entries() == (if local then old(Entries()) else old(Entries()) + multiset{tx})
      ensures local || tx.hash in all.remotes ==> Drift() == old(Drift())
    {
      hide Order, Less, IsHeap, Stale;
      if local {
        return;
      }
      LessOrder(baseFee);
      urgent := Push(urgent, Less(baseFee), tx);
      StaleAdd(old(multiset(urgent)), tx, all.remotes);
    }

    /** Whether a transaction is no better than every remote transaction in both heaps. */
    method Underpriced(tx: Tx) returns (under: bool)
      requires Valid()
      modifies this`urgent, this`floating, this`stales
      ensures Valid() && Drift() == old(Drift()) && LiveSame(old(Entries()), Entries(), all.remotes)
      ensures under <==> NoBetter(old(urgent), old(floating), baseFee, all.remotes, tx)
    {
      hide Valid, Drift, Entries, LiveSame, Cmp, NoBetter;
      ghost var before, high, low := Entries(), urgent, floating;
      NoBetterIs(high, low, baseFee, all.remotes, tx);
      under := UnderpricedUrgent(tx);
      if under || |urgent| == 0 {
        ghost var mid := Entries();
        var also := UnderpricedFloating(tx);
        under := (also || |floating| == 0) && (|urgent| != 0 || |floating| != 0);
        LiveTwice(before, mid, Entries(), all.remotes);
      }
    }

    method UnderpricedUrgent(tx: Tx) returns (under: bool)
      requires Valid()
      modifies this`urgent, this`stales
      ensures Valid() && Drift() == old(Drift()) && LiveSame(old(Entries()), Entries(), all.remotes)
      ensures urgent == [] <==> forall x :: x in old(urgent) ==> x.hash !in all.remotes
      ensures under <==> urgent != [] && forall x :: x in old(urgent) && x.hash in all.remotes ==> Cmp(x, tx, baseFee) >= 0
    {
      hide Less, IsHeap, Stale, Cmp;
      var rest, popped;
      under, rest, popped := UnderpricedFor(urgent, baseFee, tx, all.remotes);
      urgent, stales := rest, stales - popped;
    }

    method UnderpricedFloating(tx: Tx) returns (under: bool)
      requires Valid()
      modifies this`floating, this`stales
      ensures Valid() && Drift() == old(Drift()) && LiveSame(old(Entries()), Entries(), all.remotes)
      ensures floating == [] <==> forall x :: x in old(floating) ==> x.hash !in all.remotes
      ensures under <==> floating != [] && forall x :: x in old(floating) && x.hash in all.remotes ==> Cmp(x, tx, None) >= 0
    {
      hide Less, IsHeap, Stale, Cmp;
      var rest, popped;
      under, rest, popped := UnderpricedFor(floating, None, tx, all.remotes);
      floating, stales := rest, stales - popped;
    }

    /** Takes the first urgent entry out; if it is still a remote transaction, it moves to the floating heap. */
    method MoveUrgent() returns (ghost tx: Tx)
      requires Valid() && urgent != []
      modifies this`urgent, this`floating, this`stales
      ensures UrgentMoved(old(multiset(urgent)), old(multiset(floating)), tx, baseFee, all.remotes, multiset(urgent),
        multiset(floating))
      ensures Valid() && Drift() == old(Drift()) && LiveSame(old(Entries()), Entries(), all.remotes)
      ensures |urgent| == |old(urgent)| - 1 && |floating| <= |old(floating)| + 1
      ensures forall x :: x in urgent ==> x in old(urgent)
      ensures forall x :: x in floating ==> x in old(floating) || x in old(urgent)
    {
      hide Less, IsHeap, Order, Stale, GoesFirst;
      LessMeans(baseFee);
      var first, rest := PopHead(urgent, baseFee, all.remotes);
      tx := first;
      RestIn(urgent, rest, first);
      urgent := rest;
      if first.hash !in all.remotes {
        stales := stales - 1;
      } else {
        LessOrder(None);
        floating := Push(floating, Less(None), first);
        StaleAdd(old(multiset(floating)), first, all.remotes);
        assert |multiset(floating)| == |floating| && |old(multiset(floating))| == |old(floating)|;
        OneMore(old(floating), floating, first);
      }
    }

    /** Takes the first floating entry out. */
    method TakeFloating() returns (tx: Tx)
      requires Valid() && floating != []
      modifies this`floating, this`stales
      ensures Valid() && |floating| == |old(floating)| - 1 && old(Entries()) == Entries() + multiset{tx}
      ensures Drift() == old(Drift()) && tx in old(floating)
      ensures forall x :: x in floating ==> x in old(floating) && !Less(None)(x, tx)
      ensures FloatingTaken(old(multiset(floating)), tx, multiset(floating))
    {
      hide Less, IsHeap, Order, Stale, GoesFirst;
      LessMeans(None);
      var rest;
      tx, rest := PopHead(floating, None, all.remotes);
      RestIn(floating, rest, tx);
      floating := rest;
      if tx.hash !in all.remotes {
        stales := stales - 1;
      }
    }

    /** Puts transactions back. */
    method PutBack(txs: seq<Tx>)
      requires Valid() && forall x :: x in txs ==> x.hash in all.remotes
      modifies this`urgent
      ensures Valid() && Drift() == old(Drift()) && Entries() == old(Entries()) + multiset(txs)
    {
      hide Valid, Drift, Entries;
      assert txs[..0] == [];
      for i := 0 to |txs|
        invariant Valid() && Drift() == old(Drift()) && Entries() == old(Entries()) + multiset(txs[..i])
      {
        Put(txs[i], false);
        assert txs[..i + 1] == txs[..i] + [txs[i]];
        assert multiset(txs[..i + 1]) == multiset(txs[..i]) + multiset{txs[i]};
      }
      assert txs[..|txs|] == txs;
    }

    /** Takes cheapest remote transactions out until they make up the requested slots. An urgent one first moves to the
        floating heap, which is the one that is evicted from. Without enough of them nothing is taken, unless forced. What
        stays of the floating heap is no cheaper than what was taken. The turns say in which order it was done. */
    method Discard(slots: nat, force: bool) returns (drop: seq<Tx>, success: bool, ghost turns: seq<Turn>)
      requires Valid()
      modifies this`urgent, this`floating, this`stales
      ensures Valid() && Drift() == old(Drift()) && LiveSame(old(Entries()), Entries() + multiset(drop), all.remotes)
      ensures forall x :: x in drop ==> x.hash in all.remotes
      ensures success <==> force || !TooFew(old(Entries()), slots, all.remotes)
      ensures success ==> SlotsIn(drop) >= slots || (force && Entries() == multiset{})
      ensures drop != [] ==> SlotsIn(drop[..|drop| - 1]) < slots
      ensures !success ==> drop == []
      ensures CheapestFirst(drop, floating, old(urgent))
      ensures success ==> drop == Taken(turns, all.remotes)
      ensures !success ==> multiset(urgent) == multiset(Taken(turns, all.remotes)) && floating == []
      ensures Turned(turns, baseFee, all.remotes, slots, old(multiset(urgent)), old(multiset(floating)),
        if success then multiset(urgent) else multiset{}, multiset(floating))
    {
      hide Less, IsHeap, Stale, Discarding, TooFew, LiveSame, SlotsIn, CheapestFirst, Turned, UrgentMoved, FloatingTaken, Taken;
      ghost var before, remotes, start := Entries(), all.remotes, urgent;
      ghost var high0, low0 := multiset(urgent), multiset(floating);
      drop, turns := [], [];
      NoTurns(baseFee, remotes, slots, multiset(urgent), multiset(floating));
      var left: int := slots;
      DiscardStart(before, slots, remotes);
      NothingTaken(floating, start);
      while left > 0
        invariant Valid() && Drift() == old(Drift()) && Discarding(before, Entries(), drop, left, slots, remotes)
        invariant CheapestFirst(drop, floating, start) && forall x :: x in urgent ==> x in start
        invariant drop == Taken(turns, remotes)
        invariant Turned(turns, baseFee, remotes, slots, high0, low0, multiset(urgent),
          multiset(floating))
        decreases 2 * |urgent| + |floating|
      {
        ghost var mid, low, high := Entries(), floating, urgent;
        LeftIs(before, mid, drop, left, slots, remotes);
        if |urgent| > 4 * |floating| {
          ghost var moved := MoveUrgent();
          OneMoved(turns, baseFee, remotes, slots, high0, low0, high, low, moved,
            multiset(urgent), multiset(floating));
          turns := turns + [Turn(multiset(high), multiset(low), moved)];
          DiscardSame(before, mid, Entries(), drop, left, slots, remotes);
          StillCheapest(drop, low, floating, start);
        } else {
          if |floating| == 0 {
            break;
          }
          var tx := TakeFloating();
          OneTaken(turns, baseFee, remotes, slots, high0, low0, high, low, tx,
            multiset(floating));
          turns := turns + [Turn(multiset(high), multiset(low), tx)];
          DiscardTake(before, mid, Entries(), drop, left, slots, remotes, tx);
          NextCheapest(drop, low, floating, start, tx);
          if tx.hash in all.remotes {
            drop := drop + [tx];
            left := left - tx.slots;
          }
        }
      }
      DiscardEnd(before, Entries(), drop, left, slots, remotes);
      if left > 0 && !force {
        assert urgent == [] && floating == [];
        PutBack(drop);
        OnlyUrgent(Entries(), urgent, floating, drop);
        PutBackSame(before, drop, remotes);
        NothingTaken(floating, start);
        return [], false, turns;
      }
      success := true;
    }

    /** Rebuilds both heaps from the remote transactions: the cheapest fifth is floating, and nothing is stale. */
    method Reheap()
      requires Hashed(all.remotes)
      modifies this`urgent, this`floating, this`stales
      ensures Valid() && stales == 0 && Drift() == 0 && Entries() == multiset(all.remotes.Values)
      ensures |floating| == |all.remotes| / 5
      ensures forall f, u :: f in floating && u in urgent ==> !GoesFirst(u, f, baseFee)
    {
      hide Less, IsHeap, Order, Stale, GoesFirst;
      LessMeans(baseFee);
      stales := 0;
      LessOrder(baseFee);
      LessOrder(None);
      var txs := RemoteTxs(all.remotes);
      var h := Init(txs, Less(baseFee));
      var low, rest := TakeLowest(h, |h| / 5, baseFee, all.remotes);
      urgent := rest;
      floating := Init(low, Less(None));
      RestSame(low, floating);
      EntriesLive(urgent, floating, all.remotes);
    }

    /** Transactions have left the pool: their entries are stale now. Above a quarter of the entries, both heaps are
        rebuilt. */
    method Removed(count: nat)
      requires Valid() && Hashed(all.remotes)
      modifies this`urgent, this`floating, this`stales
      ensures Valid()
      ensures if old(stales) + count <= (|old(urgent)| + |old(floating)|) / 4
        then Entries() == old(Entries()) && Drift() == old(Drift()) + count
        else Entries() == multiset(all.remotes.Values) && Drift() == 0
    {
      stales := stales + count;
      if stales <= (|urgent| + |floating|) / 4 {
        return;
      }
      Reheap();
    }

    /** A changed base fee changes the urgent order, so that both heaps are rebuilt. */
    method SetBaseFee(fee: nat)
      requires Valid() && Hashed(all.remotes)
      modifies this
      ensures Valid() && baseFee == Some(fee)
      ensures if old(baseFee) == Some(fee) then Entries() == old(Entries()) && stales == old(stales)
        else Entries() == multiset(all.remotes.Values) && Drift() == 0
    {
      if baseFee != Some(fee) {
        baseFee := Some(fee);
        Reheap();
      }
    }
  }

  /** One turn of an eviction: the entries of both heaps, and the one that is moved or taken. */
  datatype Turn = Turn(urgent: multiset<Tx>, floating: multiset<Tx>, tx: Tx) {
    /** With more than four fifths of the entries urgent, one of those moves; else a floating one is taken. */
    predicate Moves() {
      |urgent| > 4 * |floating|
    }
  }

  /** An urgent entry that goes first moves to the floating heap, if it is still a remote transaction. */
  predicate UrgentMoved(urgent: multiset<Tx>, floating: multiset<Tx>, tx: Tx, baseFee: Option<nat>, remotes: Lookup,
                  urgent': multiset<Tx>, floating': multiset<Tx>)
  {
    && urgent == urgent' + multiset{tx} && (forall x :: x in urgent ==> !GoesFirst(x, tx, baseFee))
    && floating' == if tx.hash in remotes then floating + multiset{tx} else floating
  }

  /** A floating entry that goes first, by the caps alone, is taken out. */
  predicate FloatingTaken(floating: multiset<Tx>, tx: Tx, floating': multiset<Tx>) {
    floating == floating' + multiset{tx} && forall x :: x in floating ==> !GoesFirst(x, tx, None)
  }

  /** What the turns have taken, but for stale entries. */
  function Taken(turns: seq<Turn>, remotes: Lookup): seq<Tx> {
    if turns == [] then []
    else
      var t := turns[|turns| - 1];
      Taken(turns[..|turns| - 1], remotes) + if t.Moves() || t.tx.hash !in remotes then [] else [t.tx]
  }

  /** The turns lead from the first entries to the last, and each was needed. */
  predicate Turned(turns: seq<Turn>, baseFee: Option<nat>, remotes: Lookup, slots: nat, urgent: multiset<Tx>,
                   floating: multiset<Tx>, urgent': multiset<Tx>, floating': multiset<Tx>)
    decreases |turns|
  {
    if turns == [] then urgent' == urgent && floating' == floating
    else
      var before, t := turns[..|turns| - 1], turns[|turns| - 1];
      && Turned(before, baseFee, remotes, slots, urgent, floating, t.urgent, t.floating)
      && SlotsIn(Taken(before, remotes)) < slots
      && if t.Moves() then UrgentMoved(t.urgent, t.floating, t.tx, baseFee, remotes, urgent', floating')
         else urgent' == t.urgent && FloatingTaken(t.floating, t.tx, floating')
  }

  lemma NoTurns(baseFee: Option<nat>, remotes: Lookup, slots: nat, urgent: multiset<Tx>, floating: multiset<Tx>)
    ensures Turned([], baseFee, remotes, slots, urgent, floating, urgent, floating) && Taken([], remotes) == []
  {
  }

  lemma OneMoved(turns: seq<Turn>, baseFee: Option<nat>, remotes: Lookup, slots: nat, urgent: multiset<Tx>,
                 floating: multiset<Tx>, high: seq<Tx>, low: seq<Tx>, tx: Tx, urgent': multiset<Tx>,
                 floating': multiset<Tx>)
    requires Turned(turns, baseFee, remotes, slots, urgent, floating, multiset(high), multiset(low))
    requires SlotsIn(Taken(turns, remotes)) < slots && |high| > 4 * |low|
    requires UrgentMoved(multiset(high), multiset(low), tx, baseFee, remotes, urgent', floating')
    ensures var t := Turn(multiset(high), multiset(low), tx);
      && Turned(turns + [t], baseFee, remotes, slots, urgent, floating, urgent', floating')
      && Taken(turns + [t], remotes) == Taken(turns, remotes)
  {
    hide UrgentMoved, FloatingTaken;
    var t := Turn(multiset(high), multiset(low), tx);
    assert (turns + [t])[..|turns|] == turns && |t.urgent| == |high| && |t.floating| == |low|;
  }

  lemma OneTaken(turns: seq<Turn>, baseFee: Option<nat>, remotes: Lookup, slots: nat, urgent: multiset<Tx>,
                 floating: multiset<Tx>, high: seq<Tx>, low: seq<Tx>, tx: Tx, floating': multiset<Tx>)
    requires Turned(turns, baseFee, remotes, slots, urgent, floating, multiset(high), multiset(low))
    requires SlotsIn(Taken(turns, remotes)) < slots && |high| <= 4 * |low|
    requires FloatingTaken(multiset(low), tx, floating')
    ensures var t := Turn(multiset(high), multiset(low), tx);
      && Turned(turns + [t], baseFee, remotes, slots, urgent, floating, multiset(high), floating')
      && Taken(turns + [t], remotes) == Taken(turns, remotes) + if tx.hash in remotes then [tx] else []
  {
    hide UrgentMoved, FloatingTaken;
    var t := Turn(multiset(high), multiset(low), tx);
    assert (turns + [t])[..|turns|] == turns && |t.urgent| == |high| && |t.floating| == |low|;
  }

  lemma OnlyUrgent(entries: multiset<Tx>, urgent: seq<Tx>, floating: seq<Tx>, drop: seq<Tx>)
    requires entries == multiset(urgent) + multiset(floating) && floating == [] && entries == multiset{} + multiset(drop)
    ensures multiset(urgent) == multiset(drop)
  {
    assert multiset(urgent) + multiset{} == multiset(urgent) && multiset{} + multiset(drop) == multiset(drop);
    assert multiset(floating) == multiset{};
  }

  lemma LeftIs(before: multiset<Tx>, entries: multiset<Tx>, drop: seq<Tx>, left: int, slots: nat, remotes: Lookup)
    requires Discarding(before, entries, drop, left, slots, remotes) && left > 0
    ensures SlotsIn(drop) < slots
  {
  }

  /** What stays of the floating heap is not cheaper than anything taken from it; an urgent transaction may have joined it
      later. */
  ghost predicate CheapestFirst(drop: seq<Tx>, floating: seq<Tx>, urgent: seq<Tx>) {
    forall d, x :: d in drop && x in floating && x !in urgent ==>
      d.feeCap < x.feeCap
      || (d.feeCap == x.feeCap && (d.tipCap < x.tipCap || (d.tipCap == x.tipCap && d.nonce >= x.nonce)))
  }

  lemma NothingTaken(floating: seq<Tx>, urgent: seq<Tx>)
    ensures CheapestFirst([], floating, urgent)
  {
  }

  lemma StillCheapest(drop: seq<Tx>, was: seq<Tx>, floating: seq<Tx>, urgent: seq<Tx>)
    requires CheapestFirst(drop, was, urgent) && forall x :: x in floating ==> x in was || x in urgent
    ensures CheapestFirst(drop, floating, urgent)
  {
  }

  lemma NextCheapest(drop: seq<Tx>, was: seq<Tx>, floating: seq<Tx>, urgent: seq<Tx>, tx: Tx)
    requires CheapestFirst(drop, was, urgent) && forall x :: x in floating ==> x in was && !Less(None)(x, tx)
    ensures CheapestFirst(drop, floating, urgent) && CheapestFirst(drop + [tx], floating, urgent)
  {
    LessMeans(None);
    hide Less;
  }

  lemma OneMore(h: seq<Tx>, more: seq<Tx>, x: Tx)
    requires multiset(more) == multiset(h) + multiset{x}
    ensures forall y :: y in more ==> y in h || y == x
  {
    forall y | y in more ensures y in h || y == x {
      assert y in multiset(more);
    }
  }

  lemma RestIn(h: seq<Tx>, rest: seq<Tx>, x: Tx)
    requires multiset(h) == multiset(rest) + multiset{x}
    ensures x in h && forall y :: y in rest ==> y in h
  {
    assert x in multiset(h);
    forall y | y in rest ensures y in h {
      assert y in multiset(rest) && y in multiset(h);
    }
  }

  lemma RestSame(one: seq<Tx>, other: seq<Tx>)
    requires Same(one, other)
    ensures forall y :: y in one <==> y in other
  {
    forall y ensures y in one <==> y in other {
      assert y in multiset(one) <==> y in multiset(other);
    }
  }

  lemma EntriesLive(urgent: seq<Tx>, floating: seq<Tx>, remotes: Lookup)
    requires Hashed(remotes) && multiset(urgent) + multiset(floating) == multiset(remotes.Values)
    ensures Stale(multiset(urgent), remotes) == 0 && Stale(multiset(floating), remotes) == 0
  {
    forall x | x in multiset(urgent) || x in multiset(floating) ensures x.hash in remotes {
      assert x in multiset(remotes.Values);
      var h :| h in remotes && remotes[h] == x;
    }
    NoneStale(multiset(urgent), remotes);
    NoneStale(multiset(floating), remotes);
  }

  /** Each hash stands for its own transaction. */
  predicate Hashed(remotes: Lookup) {
    forall h :: h in remotes ==> remotes[h].hash == h
  }

  method RemoteTxs(remotes: Lookup) returns (txs: seq<Tx>)
    requires Hashed(remotes)
    ensures multiset(txs) == multiset(remotes.Values) && |txs| == |remotes| && AllLive(txs, remotes)
  {
    txs := [];
    var todo := remotes;
    while todo.Keys != {}
      invariant Hashed(todo) && |txs| + |todo| == |remotes| && todo.Keys <= remotes.Keys && AllLive(txs, remotes)
      invariant multiset(txs) + multiset(todo.Values) == multiset(remotes.Values)
      decreases todo.Keys
    {
      var h :| h in todo;
      ValuesWithout(todo, h);
      txs := txs + [todo[h]];
      todo := todo - {h};
    }
    assert todo == map[];
  }

  lemma ValuesWithout(todo: Lookup, h: nat)
    requires Hashed(todo) && h in todo
    ensures multiset(todo.Values) == multiset((todo - {h}).Values) + multiset{todo[h]}
    ensures (todo - {h}).Keys == todo.Keys - {h} && |todo - {h}| == |todo| - 1 && Hashed(todo - {h})
  {
    OneLess(todo, h);
    ValuesOf(todo, h);
    SetPlus((todo - {h}).Values, todo[h]);
  }

  lemma ValuesOf(todo: Lookup, h: nat)
    requires Hashed(todo) && h in todo
    ensures todo.Values == (todo - {h}).Values + {todo[h]} && todo[h] !in (todo - {h}).Values
  {
    var rest := todo - {h};
    forall x ensures x in todo.Values <==> x in rest.Values || x == todo[h] {
      if x in todo.Values && x != todo[h] {
        var k :| k in todo && todo[k] == x;
        assert k in rest && rest[k] == x;
      }
      if x in rest.Values {
        var k :| k in rest && rest[k] == x;
        assert k in todo && todo[k] == x;
      }
    }
  }

  lemma SetPlus(s: set<Tx>, x: Tx)
    requires x !in s
    ensures multiset(s + {x}) == multiset(s) + multiset{x}
  {
  }

  /** The remote transactions among the entries take up fewer slots than requested. */
  ghost predicate TooFew(entries: multiset<Tx>, slots: nat, remotes: Lookup) {
    exists txs: seq<Tx> :: LiveSame(entries, multiset(txs), remotes) && AllLive(txs, remotes) && SlotsIn(txs) < slots
  }

  predicate AllLive(txs: seq<Tx>, remotes: Lookup) {
    forall x :: x in txs ==> x.hash in remotes
  }

  ghost predicate Discarding(before: multiset<Tx>, entries: multiset<Tx>, drop: seq<Tx>, left: int, slots: nat,
                             remotes: Lookup)
  {
    && LiveSame(before, entries + multiset(drop), remotes) && AllLive(drop, remotes) && left == slots - SlotsIn(drop)
    && (drop != [] ==> SlotsIn(drop[..|drop| - 1]) < slots)
  }

  lemma DiscardStart(before: multiset<Tx>, slots: nat, remotes: Lookup)
    ensures Discarding(before, before, [], slots, slots, remotes)
  {
  }

  lemma DiscardSame(before: multiset<Tx>, mid: multiset<Tx>, entries: multiset<Tx>, drop: seq<Tx>, left: int, slots: nat,
                    remotes: Lookup)
    requires Discarding(before, mid, drop, left, slots, remotes) && LiveSame(mid, entries, remotes)
    ensures Discarding(before, entries, drop, left, slots, remotes)
  {
  }

  lemma DiscardTake(before: multiset<Tx>, mid: multiset<Tx>, entries: multiset<Tx>, drop: seq<Tx>, left: int, slots: nat,
                    remotes: Lookup, tx: Tx)
    requires Discarding(before, mid, drop, left, slots, remotes) && mid == entries + multiset{tx} && left > 0
    ensures if tx.hash in remotes then Discarding(before, entries, drop + [tx], left - tx.slots, slots, remotes)
      else Discarding(before, entries, drop, left, slots, remotes)
  {
    SlotsNext(drop, tx);
    assert (drop + [tx])[..|drop|] == drop && multiset(drop + [tx]) == multiset(drop) + multiset{tx};
  }

  lemma DiscardEnd(before: multiset<Tx>, entries: multiset<Tx>, drop: seq<Tx>, left: int, slots: nat, remotes: Lookup)
    requires Discarding(before, entries, drop, left, slots, remotes) && (left <= 0 || entries == multiset{})
    ensures LiveSame(before, entries + multiset(drop), remotes) && AllLive(drop, remotes)
    ensures drop != [] ==> SlotsIn(drop[..|drop| - 1]) < slots
    ensures SlotsIn(drop) >= slots <==> left <= 0
    ensures left > 0 <==> TooFew(before, slots, remotes)
  {
    if left > 0 {
      assert entries + multiset(drop) == multiset(drop);
    } else if TooFew(before, slots, remotes) {
      var txs: seq<Tx> :| LiveSame(before, multiset(txs), remotes) && AllLive(txs, remotes) && SlotsIn(txs) < slots;
      LiveWithin(drop, txs, entries, before, remotes);
      SlotsWithin(drop, txs);
    }
  }

  lemma LiveWithin(drop: seq<Tx>, txs: seq<Tx>, entries: multiset<Tx>, before: multiset<Tx>, remotes: Lookup)
    requires LiveSame(before, entries + multiset(drop), remotes) && LiveSame(before, multiset(txs), remotes)
    requires AllLive(drop, remotes)
    ensures multiset(drop) <= multiset(txs)
  {
    forall x ensures multiset(drop)[x] <= multiset(txs)[x] {
      if x in multiset(drop) { assert x in drop; }
    }
  }

  /** Fewer transactions take up no more slots. */
  lemma {:induction false} SlotsWithin(some: seq<Tx>, txs: seq<Tx>)
    requires multiset(some) <= multiset(txs)
    ensures SlotsIn(some) <= SlotsIn(txs)
    decreases |some|
  {
    if some != [] {
      var i := Shared(some, txs);
      SlotsDrop(txs, i);
      SlotsWithin(some[..|some| - 1], txs[..i] + txs[i + 1..]);
    }
  }

  lemma Shared(some: seq<Tx>, txs: seq<Tx>) returns (i: nat)
    requires some != [] && multiset(some) <= multiset(txs)
    ensures i < |txs| && txs[i] == some[|some| - 1]
    ensures multiset(some[..|some| - 1]) <= multiset(txs[..i] + txs[i + 1..])
  {
    var k := |some| - 1;
    assert some[k] in multiset(some) && some[k] in multiset(txs);
    i :| 0 <= i < |txs| && txs[i] == some[k];
    MultisetDrop(some, k);
    MultisetDrop(txs, i);
    assert some[..k] + some[k + 1..] == some[..k];
    MultisetLess(multiset(some[..k]), multiset(txs[..i] + txs[i + 1..]), some[k]);
  }

  lemma MultisetLess(a: multiset<Tx>, b: multiset<Tx>, x: Tx)
    requires a + multiset{x} <= b + multiset{x}
    ensures a <= b
  {
    forall y ensures a[y] <= b[y] {
      assert (a + multiset{x})[y] <= (b + multiset{x})[y];
    }
  }

  lemma {:induction false} SlotsDrop(txs: seq<Tx>, i: nat)
    requires i < |txs|
    ensures SlotsIn(txs) == SlotsIn(txs[..i] + txs[i + 1..]) + txs[i].slots
  {
    var k := |txs| - 1;
    if i == k {
      assert txs[..i] + txs[i + 1..] == txs[..k];
    } else {
      SlotsDrop(txs[..k], i);
      var rest := txs[..i] + txs[i + 1..];
      assert rest[..|rest| - 1] == txs[..k][..i] + txs[..k][i + 1..] && rest[|rest| - 1] == txs[k];
    }
  }

  lemma PutBackSame(before: multiset<Tx>, drop: seq<Tx>, remotes: Lookup)
    requires LiveSame(before, multiset{} + multiset(drop), remotes)
    ensures LiveSame(before, multiset{} + multiset(drop) + multiset([]), remotes)
  {
  }
}
