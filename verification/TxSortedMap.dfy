/** The nonce-sorted map of an account: a map, a heap of its nonces, and a cached sorted list (evmcore/tx_list.go). */
module TxSortedMaps {
  import opened Collections
  import opened TxLists
  import opened Heaps
  import opened Sorting

  predicate NonceLess(a: nat, b: nat) {
    a < b
  }

  lemma NonceOrder()
    ensures Order(NonceLess)
  {
  }

  /** The heap holds just the keys of the map, each once. */
  ghost predicate Indexed(index: seq<nat>, items: Items) {
    IsHeap(index, NonceLess) && multiset(index) == multiset(items.Keys)
  }

  /** All values of the map, sorted by nonce. */
  predicate IsFlat(flat: seq<Tx>, items: Items) {
    && (forall i :: 0 <= i < |flat| ==> flat[i].nonce in items && items[flat[i].nonce] == flat[i])
    && (forall i, j :: 0 <= i < j < |flat| ==> flat[i].nonce < flat[j].nonce)
    && (forall n :: n in items ==> items[n] in flat)
  }

  // ---------- the sorted list ----------

  /** There is only one such list. */
  lemma {:induction false} FlatUnique(one: seq<Tx>, other: seq<Tx>, items: Items)
    requires ItemsOk(items) && IsFlat(one, items) && IsFlat(other, items)
    ensures one == other && |one| == |items|
    decreases |one|
  {
    hide IsFlat;
    if items == map[] {
      FlatEmpty(one);
      FlatEmpty(other);
    } else {
      FlatTail(one, items);
      FlatTail(other, items);
      var n := one[0].nonce;
      TxLists.Without(items, n);
      FlatHead(one, items);
      FlatHead(other, items);
      FlatUnique(one[1..], other[1..], items - {n});
    }
  }

  lemma FlatEmpty(flat: seq<Tx>)
    requires IsFlat(flat, map[])
    ensures flat == []
  {
    if flat != [] { FlatHas(flat, map[], 0); }
  }

  lemma FlatHas(flat: seq<Tx>, items: Items, i: nat)
    requires IsFlat(flat, items) && i < |flat|
    ensures flat[i].nonce in items && items[flat[i].nonce] == flat[i]
  {
  }

  lemma FlatHead(flat: seq<Tx>, items: Items)
    requires IsFlat(flat, items) && flat != []
    ensures flat[0].nonce in items && flat[0] == items[flat[0].nonce] && flat == [flat[0]] + flat[1..]
  {
  }

  /** Its first element has the lowest nonce; the others are the list of the others. */
  lemma FlatTail(flat: seq<Tx>, items: Items)
    requires ItemsOk(items) && IsFlat(flat, items) && items != map[]
    ensures flat != [] && flat[0].nonce in items && forall n :: n in items ==> flat[0].nonce <= n
    ensures IsFlat(flat[1..], items - {flat[0].nonce})
  {
    var n :| n in items;
    assert items[n] in flat;
    forall n | n in items ensures flat[0].nonce <= n && (n != flat[0].nonce ==> items[n] in flat[1..]) {
      var i :| 0 <= i < |flat| && flat[i] == items[n];
      if i > 0 { assert flat[1..][i - 1] == items[n]; }
    }
  }

  lemma FlatInit(flat: seq<Tx>, items: Items)
    requires ItemsOk(items) && IsFlat(flat, items) && items != map[]
    ensures flat != [] && flat[|flat| - 1].nonce in items && forall n :: n in items ==> n <= flat[|flat| - 1].nonce
    ensures IsFlat(flat[..|flat| - 1], items - {flat[|flat| - 1].nonce})
  {
    var k := |flat| - 1;
    var n :| n in items;
    assert items[n] in flat;
    forall n | n in items ensures n <= flat[k].nonce && (n != flat[k].nonce ==> items[n] in flat[..k]) {
      FlatAt(flat, items, n);
    }
  }

  lemma FlatAt(flat: seq<Tx>, items: Items, n: nat)
    requires ItemsOk(items) && IsFlat(flat, items) && n in items && flat != []
    ensures var k := |flat| - 1; n <= flat[k].nonce && (n != flat[k].nonce ==> items[n] in flat[..k])
  {
    var k := |flat| - 1;
    var i :| 0 <= i < |flat| && flat[i] == items[n];
    if i < k { assert flat[..k][i] == items[n]; }
  }

  lemma FlatAppend(flat: seq<Tx>, items: Items, tx: Tx)
    requires ItemsOk(items) && IsFlat(flat, items) && forall n :: n in items ==> n < tx.nonce
    ensures IsFlat(flat + [tx], items[tx.nonce := tx])
  {
    var more := flat + [tx];
    assert more[|flat|] == tx;
    forall n | n in items ensures items[n] in more {
      var i :| 0 <= i < |flat| && flat[i] == items[n];
      assert more[i] == items[n];
    }
  }

  // ---------- the heap ----------

  lemma IndexedHas(index: seq<nat>, items: Items, n: nat)
    requires Indexed(index, items)
    ensures n in index <==> n in items
    ensures |index| == |items|
  {
    assert n in multiset(index) <==> n in multiset(items.Keys);
    assert |multiset(index)| == |index| && |multiset(items.Keys)| == |items.Keys|;
  }

  /** The first element of the heap is the lowest nonce. */
  lemma IndexedFirst(index: seq<nat>, items: Items)
    requires Indexed(index, items) && index != []
    ensures index[0] in items && forall n :: n in items ==> index[0] <= n
    ensures index[0] == Lowest(items)
  {
    NonceOrder();
    IndexedHas(index, items, index[0]);
    forall n | n in items ensures index[0] <= n {
      IndexedHas(index, items, n);
      var i :| 0 <= i < |index| && index[i] == n;
      FirstIsLeast(index, NonceLess, i);
    }
  }

  method PopFirst(index: seq<nat>, items: Items) returns (nonce: nat, rest: seq<nat>)
    requires Indexed(index, items) && index != []
    ensures nonce in items && nonce == index[0] == Lowest(items) && Indexed(rest, items - {nonce})
  {
    NonceOrder();
    IndexedFirst(index, items);
    nonce, rest := Pop(index, NonceLess);
    assert (items - {nonce}).Keys == items.Keys - {nonce};
    assert multiset(items.Keys - {nonce}) == multiset(items.Keys) - multiset{nonce};
  }

  method Collect(items: Items) returns (nonces: seq<nat>)
    ensures multiset(nonces) == multiset(items.Keys)
  {
    nonces := [];
    var todo := items.Keys;
    while todo != {}
      invariant todo <= items.Keys && multiset(nonces) + multiset(todo) == multiset(items.Keys)
      decreases todo
    {
      var n :| n in todo;
      assert multiset(todo) == multiset(todo - {n}) + multiset{n};
      nonces := nonces + [n];
      todo := todo - {n};
    }
    assert multiset(todo) == multiset{};
  }

  /** Makes a heap of the keys. */
  method IndexOf(items: Items) returns (index: seq<nat>)
    ensures Indexed(index, items)
  {
    NonceOrder();
    var nonces := Collect(items);
    index := Init(nonces, NonceLess);
  }

  /** Sorts the transactions by nonce. */
  method Sorted(items: Items) returns (flat: seq<Tx>)
    requires ItemsOk(items)
    ensures IsFlat(flat, items)
  {
    hide IsFlat, SubItems, AllBelow, ItemsOk;
    flat := [];
    var done: Items := map[];
    var todo := items;
    FlatNone();
    SortStart(items);
    while todo.Keys != {}
      invariant SortedSoFar(items, done, todo) && IsFlat(flat, done)
      decreases todo.Keys
    {
      var n := LowestNonce(todo);
      SortStep(items, done, todo, n);
      FlatAppend(flat, done, todo[n]);
      flat := flat + [todo[n]];
      done := done[n := todo[n]];
      todo := todo - {n};
    }
    SortEnd(items, done, todo);
  }

  /** What is sorted already comes before the rest. */
  predicate SortedSoFar(items: Items, done: Items, todo: Items) {
    && SubItems(done, items) && SubItems(todo, items) && items.Keys == done.Keys + todo.Keys && AllBelow(done, todo)
  }

  lemma SortStart(items: Items)
    ensures SortedSoFar(items, map[], items)
  {
  }

  lemma SortStep(items: Items, done: Items, todo: Items, n: nat)
    requires ItemsOk(items) && SortedSoFar(items, done, todo) && n in todo && forall m :: m in todo ==> n <= m
    ensures SortedSoFar(items, done[n := todo[n]], todo - {n}) && (todo - {n}).Keys == todo.Keys - {n}
    ensures ItemsOk(done) && todo[n].nonce == n && forall m :: m in done ==> m < n
  {
  }

  lemma SortEnd(items: Items, done: Items, todo: Items)
    requires SortedSoFar(items, done, todo) && todo.Keys == {}
    ensures done == items
  {
  }

  lemma FlatNone()
    ensures IsFlat([], map[])
  {
  }

  class SortedMap {
    var items: Items
    var index: seq<nat>
    var cache: Option<seq<Tx>>

    ghost predicate Valid()
      reads this
    {
      && ItemsOk(items) && Indexed(index, items)
      && (cache.Some? ==> IsFlat(cache.value, items))
    }

    constructor ()
      ensures Valid() && items == map[]
    {
      items, index, cache := map[], [], None;
    }

    /** Stores a transaction under its nonce, in the place of an earlier one. */
    method Put(tx: Tx)
      requires Valid()
      modifies this
      ensures Valid() && items == old(items)[tx.nonce := tx]
    {
      if tx.nonce !in items {
        NonceOrder();
        index := Push(index, NonceLess, tx.nonce);
        assert multiset(items.Keys + {tx.nonce}) == multiset(items.Keys) + multiset{tx.nonce};
        assert items[tx.nonce := tx].Keys == items.Keys + {tx.nonce};
      } else {
        assert items[tx.nonce := tx].Keys == items.Keys;
      }
      items, cache := items[tx.nonce := tx], None;
    }

    /** Removes all nonces below the threshold; a cached list is shifted. */
    method Forward(threshold: nat) returns (removed: seq<Tx>)
      requires Valid()
      modifies this
      ensures Valid() && items == old(items) - Below(old(items), threshold).Keys
      ensures IsFlat(removed, Below(old(items), threshold))
    {
      hide Indexed, IsFlat, Lowest;
      removed := [];
      ghost var gone: Items := map[];
      FlatNone();
      assert items - gone.Keys == items;
      while |index| > 0 && index[0] < threshold
        invariant ItemsOk(items) && Indexed(index, items) && cache == old(cache)
        invariant Taken(old(items), gone, items) && (forall n :: n in gone ==> n < threshold) && IsFlat(removed, gone)
        invariant cache.Some? ==> |removed| <= |cache.value| && IsFlat(cache.value[|removed|..], items)
        decreases items.Keys
      {
        IndexedFirst(index, items);
        var nonce, rest := PopFirst(index, items);
        TakeLowest(old(items), gone, items, nonce);
        FlatAppend(removed, gone, items[nonce]);
        if cache.Some? { CutFront(cache.value, |removed|, items, nonce); }
        index := rest;
        removed := removed + [items[nonce]];
        gone := gone[nonce := items[nonce]];
        items := items - {nonce};
      }
      AllForwarded(old(items), gone, items, threshold, index);
      if cache.Some? {
        cache := Some(cache.value[|removed|..]);
      }
    }

    /** Takes out the transactions that match, without restoring the heap. */
    method FilterOut(matches: Tx -> bool) returns (removed: Items)
      requires ItemsOk(items) && (cache.Some? ==> IsFlat(cache.value, items))
      modifies this`items, this`cache
      ensures removed == map n | n in old(items) && matches(old(items)[n]) :: old(items)[n]
      ensures items == old(items) - removed.Keys && ItemsOk(items) && (cache.Some? ==> IsFlat(cache.value, items))
      ensures if removed == map[] then items == old(items) && cache == old(cache) else cache == None
    {
      removed := map n | n in items && matches(items[n]) :: items[n];
      if removed != map[] {
        items, cache := items - removed.Keys, None;
      } else {
        assert items - removed.Keys == items;
      }
    }

    method Reheap()
      requires ItemsOk(items)
      modifies this`index, this`cache
      ensures Valid() && cache == None
    {
      index := IndexOf(items);
      cache := None;
    }

    /** Removes the transactions that match. */
    method Filter(matches: Tx -> bool) returns (removed: Items)
      requires Valid()
      modifies this
      ensures Valid() && removed == map n | n in old(items) && matches(old(items)[n]) :: old(items)[n]
      ensures items == old(items) - removed.Keys
    {
      removed := FilterOut(matches);
      if |removed| > 0 {
        Reheap();
      }
    }

    /** Keeps the `threshold` lowest nonces; a cached list is cut at the back. */
    method Cap(threshold: nat) returns (drops: seq<Tx>)
      requires Valid()
      modifies this
      ensures Valid() && IsLowest(old(items), threshold, items)
      ensures IsFlat(Reversed(drops), old(items) - items.Keys)
    {
      hide Indexed, IsFlat, IsLowest, Reversed, SortedKeys;
      drops := [];
      FlatNone();
      ReversedNone();
      if |items| <= threshold {
        LowestAll(items, threshold);
        assert items - items.Keys == map[];
        return;
      }
      var nonces := SortBy(index, Itself());
      IndexedSorted(index, items, nonces);
      ghost var all := items;
      items, drops := CutHighest(items, nonces, threshold, cache);
      NonceOrder();
      index := Init(nonces[..threshold], NonceLess);
      IndexedAgain(index, nonces[..threshold], items);
      if cache.Some? {
        cache := Some(cache.value[..|cache.value| - |drops|]);
      }
    }

    /** Removes one nonce; says whether it was there. */
    method Remove(nonce: nat) returns (found: bool)
      requires Valid()
      modifies this
      ensures Valid() && found == (nonce in old(items)) && items == old(items) - {nonce}
    {
      found := nonce in items;
      if !found {
        assert items - {nonce} == items;
        return;
      }
      IndexedHas(index, items, nonce);
      var i: nat := 0;
      while i < |index| && index[i] != nonce
        invariant i <= |index| && nonce in index[i..]
      {
        i := i + 1;
      }
      NonceOrder();
      index := RemoveAt(index, NonceLess, i);
      assert (items - {nonce}).Keys == items.Keys - {nonce};
      assert multiset(items.Keys - {nonce}) == multiset(items.Keys) - multiset{nonce};
      items, cache := items - {nonce}, None;
    }

    /** Takes out the run from the lowest nonce, unless that lies ahead of `start`. */
    method Ready(start: nat) returns (ready: seq<Tx>)
      requires Valid()
      modifies this
      ensures Valid() && items == old(items) - ReadyNonces(old(items), start)
      ensures IsFlat(ready, Part(old(items), ReadyNonces(old(items), start)))
    {
      hide Indexed, IsFlat, Lowest, RunFrom, Part, Running;
      ready := [];
      FlatNone();
      IndexedHas(index, items, 0);
      if |index| == 0 || index[0] > start {
        if index != [] { IndexedFirst(index, items); }
        NoneReady(items, start);
        return;
      }
      IndexedFirst(index, items);
      var first := index[0];
      var next: nat := first;
      RunFirst(index, items);
      while |index| > 0 && index[0] == next
        invariant ItemsOk(items) && Indexed(index, items) && Running(old(items), items, ready, first, next)
        decreases items.Keys
      {
        IndexedFirst(index, items);
        RunStep(old(items), items, ready, first, next);
        ready := ready + [items[next]];
        var nonce, rest := PopFirst(index, items);
        assert (items - {nonce}).Keys == items.Keys - {nonce};
        items := items - {nonce};
        index := rest;
        next := next + 1;
      }
      cache := None;
      RunDone(old(items), items, ready, first, next, index);
    }

    /** The sorted list, made once and then cached. */
    method Flatten() returns (flat: seq<Tx>)
      requires Valid()
      modifies this`cache
      ensures Valid() && IsFlat(flat, items) && cache == Some(flat)
    {
      if cache == None {
        var sorted := Sorted(items);
        cache := Some(sorted);
      }
      flat := cache.value;
    }

    /** The transaction with the highest nonce. */
    method LastElement() returns (tx: Tx)
      requires Valid() && items != map[]
      modifies this`cache
      ensures Valid() && tx.nonce in items && items[tx.nonce] == tx && forall n :: n in items ==> n <= tx.nonce
    {
      var flat := Flatten();
      FlatInit(flat, items);
      tx := flat[|flat| - 1];
    }
  }

  /** Takes the highest nonces out of the map, from the back of the sorted nonces. */
  method CutHighest(items: Items, nonces: seq<nat>, threshold: nat, ghost cache: Option<seq<Tx>>)
    returns (left: Items, drops: seq<Tx>)
    requires ItemsOk(items) && SortedKeys(nonces, items) && |nonces| == |items| > threshold
    requires cache.Some? ==> IsFlat(cache.value, items)
    ensures IsLowest(items, threshold, left) && ItemsOk(left) && SortedKeys(nonces[..threshold], left)
    ensures IsFlat(Reversed(drops), items - left.Keys)
    ensures cache.Some? ==> |cache.value| >= |drops| && IsFlat(cache.value[..|cache.value| - |drops|], left)
  {
    hide Cutting;
    drops, left := [], items;
    CutFirst(items, nonces, cache);
    var size: nat := |items|;
    while size > threshold
      invariant threshold <= size && Cutting(items, nonces, cache, left, drops, size)
      decreases size
    {
      LastThere(items, nonces, cache, left, drops, size);
      var nonce := nonces[size - 1];
      CutStep(items, nonces, cache, left, drops, size);
      drops := drops + [left[nonce]];
      left := left - {nonce};
      size := size - 1;
    }
    CutLast(items, nonces, cache, left, drops, threshold);
  }

  /** What has been cut off the back so far, and what is left. */
  ghost predicate Cutting(items: Items, nonces: seq<nat>, cache: Option<seq<Tx>>, left: Items, drops: seq<Tx>, size: nat) {
    && size <= |nonces| && size == |left| && ItemsOk(items) && ItemsOk(left) && SortedKeys(nonces[..size], left)
    && Left(items, items - left.Keys, left) && IsFlat(Reversed(drops), items - left.Keys)
    && (cache.Some? ==> |cache.value| >= |drops| && IsFlat(cache.value[..|cache.value| - |drops|], left))
  }

  lemma CutFirst(items: Items, nonces: seq<nat>, cache: Option<seq<Tx>>)
    requires ItemsOk(items) && SortedKeys(nonces, items) && |nonces| == |items|
    requires cache.Some? ==> IsFlat(cache.value, items)
    ensures Cutting(items, nonces, cache, items, [], |items|)
  {
    hide IsFlat, Reversed, SortedKeys, Left;
    FlatNone();
    ReversedNone();
    LeftAll(items);
    assert items - items.Keys == map[] && nonces[..|items|] == nonces;
    if cache.Some? { assert cache.value[..|cache.value| - 0] == cache.value; }
  }

  lemma LastThere(items: Items, nonces: seq<nat>, cache: Option<seq<Tx>>, left: Items, drops: seq<Tx>, size: nat)
    requires Cutting(items, nonces, cache, left, drops, size) && size > 0
    ensures size <= |nonces| && nonces[size - 1] in left
  {
    hide IsFlat, Reversed, SortedKeys, Left;
    LastKey(nonces, size, left);
  }

  lemma CutStep(items: Items, nonces: seq<nat>, cache: Option<seq<Tx>>, left: Items, drops: seq<Tx>, size: nat)
    requires Cutting(items, nonces, cache, left, drops, size) && 0 < size <= |nonces| && nonces[size - 1] in left
    ensures var n := nonces[size - 1]; Cutting(items, nonces, cache, left - {n}, drops + [left[n]], size - 1)
  {
    hide IsFlat, Reversed, SortedKeys, Left;
    var n := nonces[size - 1];
    LastKey(nonces, size, left);
    TakeHighest(items, items - left.Keys, left, n);
    GoneNext(items, left, n);
    FlatPrepend(Reversed(drops), items - left.Keys, left[n]);
    ReversedNext(drops, left[n]);
    if cache.Some? {
      CutBack(cache.value, |cache.value| - |drops|, left, n);
      assert |cache.value| - |drops| - 1 == |cache.value| - |drops + [left[n]]|;
    }
  }

  lemma GoneNext(items: Items, left: Items, n: nat)
    requires Left(items, items - left.Keys, left) && n in left && ItemsOk(items)
    ensures items - (left - {n}).Keys == (items - left.Keys)[n := left[n]]
    ensures ItemsOk(items - left.Keys) && left[n].nonce == n
  {
    assert (left - {n}).Keys == left.Keys - {n};
  }

  lemma CutLast(items: Items, nonces: seq<nat>, cache: Option<seq<Tx>>, left: Items, drops: seq<Tx>, size: nat)
    requires Cutting(items, nonces, cache, left, drops, size) && size <= |items|
    ensures IsLowest(items, size, left) && ItemsOk(left) && SortedKeys(nonces[..size], left)
    ensures IsFlat(Reversed(drops), items - left.Keys)
    ensures cache.Some? ==> |cache.value| >= |drops| && IsFlat(cache.value[..|cache.value| - |drops|], left)
  {
    hide IsFlat, Reversed, SortedKeys, Left, IsLowest;
    LeftLowest(items, items - left.Keys, left, size);
  }

  lemma LeftAll(items: Items)
    ensures Left(items, map[], items)
  {
    var none: Items := map[];
    assert items - none.Keys == items;
  }

  /** The transactions taken out so far have lower nonces than the others. */
  predicate Taken(all: Items, gone: Items, left: Items) {
    SubItems(gone, all) && left == all - gone.Keys && AllBelow(gone, left)
  }

  lemma TakeLowest(all: Items, gone: Items, left: Items, n: nat)
    requires Taken(all, gone, left) && n in left && forall m :: m in left ==> n <= m
    ensures Taken(all, gone[n := left[n]], left - {n}) && (left - {n}).Keys == left.Keys - {n}
  {
    assert gone[n := left[n]].Keys == gone.Keys + {n};
  }

  lemma CutFront(flat: seq<Tx>, k: nat, items: Items, n: nat)
    requires ItemsOk(items) && k <= |flat| && IsFlat(flat[k..], items)
    requires n in items && forall m :: m in items ==> n <= m
    ensures k + 1 <= |flat| && IsFlat(flat[k + 1..], items - {n})
  {
    FlatTail(flat[k..], items);
    assert flat[k..][1..] == flat[k + 1..];
  }

  lemma AllForwarded(all: Items, gone: Items, left: Items, threshold: nat, index: seq<nat>)
    requires Taken(all, gone, left) && Indexed(index, left) && (|index| > 0 ==> index[0] >= threshold)
    requires forall n :: n in gone ==> n < threshold
    ensures gone == Below(all, threshold)
  {
    hide Indexed;
    if index != [] { IndexedFirst(index, left); }
    forall n | n in left ensures n >= threshold {
      IndexedHas(index, left, n);
    }
    forall n | n in all ensures n in gone <==> n < threshold {
      assert n !in gone ==> n in all - gone.Keys;
    }
    assert gone.Keys == Below(all, threshold).Keys;
  }

  function Reversed(s: seq<Tx>): seq<Tx> {
    if s == [] then [] else Reversed(s[1..]) + [s[0]]
  }

  lemma ReversedNone()
    ensures Reversed([]) == []
  {
  }

  lemma {:induction false} ReversedNext(s: seq<Tx>, tx: Tx)
    ensures Reversed(s + [tx]) == [tx] + Reversed(s)
  {
    if s != [] {
      assert (s + [tx])[1..] == s[1..] + [tx];
      ReversedNext(s[1..], tx);
    } else {
      assert s + [tx] == [tx] && Reversed([tx]) == Reversed([]) + [tx];
    }
  }

  lemma FlatPrepend(flat: seq<Tx>, items: Items, tx: Tx)
    requires ItemsOk(items) && IsFlat(flat, items) && forall n :: n in items ==> tx.nonce < n
    ensures IsFlat([tx] + flat, items[tx.nonce := tx])
  {
    var more := [tx] + flat;
    assert more[0] == tx;
    forall n | n in items ensures items[n] in more {
      var i :| 0 <= i < |flat| && flat[i] == items[n];
      assert more[i + 1] == items[n];
    }
  }

  // ---------- capping ----------

  lemma LowestAll(items: Items, k: nat)
    requires |items| <= k
    ensures IsLowest(items, k, items)
  {
  }

  /** The keys of the map in ascending order. */
  ghost predicate SortedKeys(nonces: seq<nat>, items: Items) {
    && (forall i, j :: 0 <= i < j < |nonces| ==> nonces[i] < nonces[j])
    && (forall n :: n in nonces <==> n in items)
  }

  function Itself(): nat -> nat {
    (n: nat) => n
  }

  lemma IndexedSorted(index: seq<nat>, items: Items, nonces: seq<nat>)
    requires Indexed(index, items) && InOrder(nonces, Itself()) && multiset(nonces) == multiset(index)
    ensures SortedKeys(nonces, items) && |nonces| == |items|
  {
    assert |multiset(nonces)| == |nonces| && |multiset(items.Keys)| == |items.Keys|;
    forall n ensures n in nonces <==> n in items {
      assert n in multiset(nonces) <==> n in multiset(items.Keys);
    }
    forall i, j | 0 <= i < j < |nonces| ensures nonces[i] < nonces[j] {
      assert Itself()(nonces[i]) <= Itself()(nonces[j]);
      OnceInSet(items.Keys, nonces[i]);
      if nonces[i] == nonces[j] { TwiceThere(nonces, i, j); }
    }
  }

  lemma OnceInSet(s: set<nat>, n: nat)
    ensures multiset(s)[n] <= 1
  {
  }

  lemma TwiceThere(s: seq<nat>, i: nat, j: nat)
    requires i < j < |s| && s[i] == s[j]
    ensures multiset(s)[s[i]] >= 2
  {
    assert s == s[..j] + [s[j]] + s[j + 1..];
    assert s[..j][i] == s[i] && s[i] in multiset(s[..j]);
  }

  lemma LastKey(nonces: seq<nat>, size: nat, items: Items)
    requires 0 < size <= |nonces| && SortedKeys(nonces[..size], items)
    ensures var n := nonces[size - 1];
      n in items && (forall m :: m in items ==> m <= n) && SortedKeys(nonces[..size - 1], items - {n})
  {
    var n, front := nonces[size - 1], nonces[..size];
    assert front[size - 1] == n;
    assert nonces[..size] == nonces[..size - 1] + [n];
  }

  /** The transactions taken out so far have higher nonces than the others. */
  predicate Left(all: Items, gone: Items, left: Items) {
    SubItems(gone, all) && left == all - gone.Keys && AllBelow(left, gone)
  }

  lemma TakeHighest(all: Items, gone: Items, left: Items, n: nat)
    requires Left(all, gone, left) && n in left && forall m :: m in left ==> m <= n
    ensures Left(all, gone[n := left[n]], left - {n}) && |left - {n}| == |left| - 1 && n !in gone
    ensures forall m :: m in gone ==> n < m
    ensures ItemsOk(all) ==> ItemsOk(gone)
  {
    hide AllBelow, SubItems;
    MoveOne(all, gone, left, n);
    TxLists.Without(left, n);
    HighestAbove(left, gone, n);
    SubItemsOk(all, gone);
  }

  lemma SubItemsOk(all: Items, some: Items)
    requires SubItems(some, all)
    ensures ItemsOk(all) ==> ItemsOk(some)
  {
  }

  lemma MoveOne(all: Items, gone: Items, left: Items, n: nat)
    requires SubItems(gone, all) && left == all - gone.Keys && n in left
    ensures SubItems(gone[n := left[n]], all) && left - {n} == all - gone[n := left[n]].Keys
  {
    assert gone[n := left[n]].Keys == gone.Keys + {n};
  }

  lemma HighestAbove(left: Items, gone: Items, n: nat)
    requires AllBelow(left, gone) && n in left && forall m :: m in left ==> m <= n
    ensures AllBelow(left - {n}, gone[n := left[n]]) && (forall m :: m in gone ==> n < m) && n !in gone
  {
    var less, more := left - {n}, gone[n := left[n]];
    forall a, b | a in less && b in more ensures a < b {
      assert a in left && a != n;
    }
  }

  lemma CutBack(flat: seq<Tx>, k: nat, items: Items, n: nat)
    requires ItemsOk(items) && k <= |flat| && IsFlat(flat[..k], items)
    requires n in items && forall m :: m in items ==> m <= n
    ensures k >= 1 && IsFlat(flat[..k - 1], items - {n})
  {
    FlatInit(flat[..k], items);
    assert flat[..k][..k - 1] == flat[..k - 1];
  }

  lemma LeftLowest(all: Items, gone: Items, left: Items, k: nat)
    requires Left(all, gone, left) && |left| == k <= |all|
    ensures IsLowest(all, k, left) && gone == all - left.Keys
  {
    GoneIs(all, gone, left);
  }

  lemma GoneIs(all: Items, gone: Items, left: Items)
    requires SubItems(gone, all) && left == all - gone.Keys
    ensures gone == all - left.Keys
  {
    assert gone.Keys == (all - left.Keys).Keys;
  }

  lemma IndexedAgain(index: seq<nat>, nonces: seq<nat>, items: Items)
    requires IsHeap(index, NonceLess) && Same(nonces, index) && SortedKeys(nonces, items)
    ensures Indexed(index, items)
  {
    forall n ensures multiset(nonces)[n] == multiset(items.Keys)[n] {
      if n in nonces {
        assert n in multiset(nonces);
        OnceThere(nonces, n);
      } else {
        assert n !in multiset(nonces);
      }
    }
  }

  lemma OnceThere(s: seq<nat>, n: nat)
    requires n in s && forall i, j :: 0 <= i < j < |s| ==> s[i] < s[j]
    ensures multiset(s)[n] == 1
  {
    var i :| 0 <= i < |s| && s[i] == n;
    assert s == s[..i] + [n] + s[i + 1..];
    assert n !in multiset(s[..i]) && n !in multiset(s[i + 1..]);
  }

  // ---------- what is ready ----------

  lemma NoneReady(items: Items, start: nat)
    requires items == map[] || Lowest(items) > start
    ensures ReadyNonces(items, start) == {} && items - ReadyNonces(items, start) == items
    ensures Part(items, ReadyNonces(items, start)) == map[]
  {
  }

  /** The run taken out so far. */
  ghost predicate Running(all: Items, left: Items, ready: seq<Tx>, first: nat, next: nat) {
    && Taken(all, all - left.Keys, left) && IsFlat(ready, all - left.Keys) && NoneBelow(left, next) && first <= next
    && forall n: nat :: n in all - left.Keys <==> first <= n < next
  }

  lemma RunFirst(index: seq<nat>, items: Items)
    requires Indexed(index, items) && index != []
    ensures Running(items, items, [], index[0], index[0])
  {
    hide Indexed, IsFlat;
    FlatNone();
    TakenNone(items);
    NoneBelowFirst(index, items);
    assert items - items.Keys == map[];
  }

  lemma RunStep(all: Items, left: Items, ready: seq<Tx>, first: nat, next: nat)
    requires ItemsOk(all) && Running(all, left, ready, first, next) && next in left
    requires forall n :: n in left ==> next <= n
    ensures Running(all, left - {next}, ready + [left[next]], first, next + 1)
  {
    hide IsFlat, NoneBelow, Taken;
    var gone := all - left.Keys;
    NoneBelowNext(left, next);
    TakenBelow(all, gone, left, next);
    TakeLowest(all, gone, left, next);
    TakenNext(all, left, next);
    FlatAppend(ready, gone, left[next]);
  }

  lemma TakenNext(all: Items, left: Items, n: nat)
    requires Taken(all, all - left.Keys, left) && n in left && ItemsOk(all)
    ensures all - (left - {n}).Keys == (all - left.Keys)[n := left[n]] && left[n].nonce == n
    ensures forall m: nat :: m in all - (left - {n}).Keys <==> m == n || m in all - left.Keys
  {
    assert (left - {n}).Keys == left.Keys - {n};
  }

  lemma RunDone(all: Items, left: Items, ready: seq<Tx>, first: nat, next: nat, index: seq<nat>)
    requires Running(all, left, ready, first, next) && Indexed(index, left) && (|index| > 0 ==> index[0] != next)
    ensures left == all - RunFrom(all, first) && IsFlat(ready, Part(all, RunFrom(all, first)))
  {
    hide Indexed, Lowest, RunFrom, Taken, NoneBelow, IsFlat, Part;
    var gone := all - left.Keys;
    NotFirst(left, next, index);
    TakenIs(all, gone, left);
    assert next !in all;
    forall n: nat ensures n in gone.Keys <==> n in RunFrom(all, first) {
      RunIsMaximal(all, first, n);
      RunReaches(all, gone, left, first, next, n);
    }
    assert gone.Keys == RunFrom(all, first);
    PartIs(all, gone, left);
  }

  predicate NoneBelow(items: Items, next: nat) {
    forall n :: n in items ==> n >= next
  }

  lemma NoneBelowNext(items: Items, next: nat)
    requires NoneBelow(items, next)
    ensures NoneBelow(items - {next}, next + 1)
  {
  }

  lemma NoneBelowFirst(index: seq<nat>, items: Items)
    requires Indexed(index, items) && index != []
    ensures NoneBelow(items, index[0])
  {
    IndexedFirst(index, items);
  }

  lemma TakenNone(items: Items)
    ensures Taken(items, map[], items)
  {
    var none: Items := map[];
    assert items - none.Keys == items;
  }

  lemma TakenBelow(all: Items, gone: Items, left: Items, n: nat)
    requires Taken(all, gone, left) && n in left
    ensures (forall m :: m in gone ==> m < n) && (ItemsOk(all) ==> ItemsOk(gone))
  {
  }

  /** Some of the transactions. */
  function Part(items: Items, nonces: set<nat>): Items {
    map n | n in items && n in nonces :: items[n]
  }

  lemma PartIs(all: Items, gone: Items, left: Items)
    requires Taken(all, gone, left)
    ensures gone == Part(all, gone.Keys) && left == all - gone.Keys
  {
  }

  /** A nonce is taken out just when every nonce from the first one up to it was there. */
  lemma RunReaches(all: Items, gone: Items, left: Items, first: nat, next: nat, n: nat)
    requires (forall m :: m in all <==> m in gone || m in left) && next !in all && first <= next
    requires forall m :: m in gone <==> first <= m < next
    ensures n in gone <==> first <= n && forall i :: first <= i <= n ==> i in all
  {
    if n in gone {
      forall i | first <= i <= n ensures i in all {
        assert i in gone;
      }
    }
  }

  lemma NotFirst(left: Items, next: nat, index: seq<nat>)
    requires Indexed(index, left) && (|index| > 0 ==> index[0] != next) && NoneBelow(left, next)
    ensures next !in left
  {
    hide Indexed;
    IndexedHas(index, left, next);
    if |index| > 0 { IndexedFirst(index, left); }
  }

  lemma TakenIs(all: Items, gone: Items, left: Items)
    requires Taken(all, gone, left)
    ensures forall n :: n in all <==> n in gone || n in left
  {
    forall n ensures n in all <==> n in gone || n in left {
      assert n in left <==> n in all && n !in gone.Keys;
    }
  }
}
