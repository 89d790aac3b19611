/** The heartbeats of accounts, by which the queue is truncated (evmcore/tx_pool.go, beats). */
module PoolBeats {
  import opened Collections
  import opened TxLists
  import opened TxLookups
  import opened PoolState
  import opened PoolSteps
  import opened PoolLimits
  import opened PoolRuns
  import MapSum

  /** An account's heartbeat, if one is recorded. */
  function Beat(beats: Counts, a: nat): Option<nat> {
    if a in beats then Some(beats[a]) else None
  }

  predicate SameQueue(was: Lists, a: nat, now: Lists) {
    ListOf(now, a, false).items == ListOf(was, a, false).items
  }

  /** Promoting an account: without a queue it keeps its heartbeat, and when its queue is emptied it loses it; otherwise it
      beats now if anything was promoted. */
  ghost predicate BeatPromoted(was: Pool, times: Counts, a: nat, at: nat, now: Pool, later: Counts) {
    Beat(later, a) ==
      if a !in was.q then Beat(times, a)
      else if a !in now.q then None
      else if ListOf(now.p, a, true).items != ListOf(was.p, a, true).items then Some(at)
      else Beat(times, a)
  }

  ghost predicate AllBeatPromoted(was: Pool, times: Counts, accounts: set<nat>, at: nat, now: Pool, later: Counts) {
    && (forall a :: a in accounts ==> BeatPromoted(was, times, a, at, now, later))
    && (forall a :: a !in accounts ==> Beat(later, a) == Beat(times, a))
  }

  /** Putting transactions back into an account's queue: its first heartbeat is now if it has none yet. */
  ghost predicate BeatQueued(was: Pool, times: Counts, a: nat, at: nat, now: Pool, later: Counts) {
    Beat(later, a) == if a in times || SameQueue(was.q, a, now.q) then Beat(times, a) else Some(at)
  }

  ghost predicate AllBeatQueued(was: Pool, times: Counts, accounts: set<nat>, at: nat, now: Pool, later: Counts) {
    && (forall a :: a in accounts ==> BeatQueued(was, times, a, at, now, later))
    && (forall a :: a !in accounts ==> Beat(later, a) == Beat(times, a))
  }

  /** Removing a transaction: a pending one may put later ones back, and a queued one may empty the queue. */
  ghost predicate BeatRemoved(was: Pool, times: Counts, hash: nat, at: nat, now: Pool, later: Counts) {
    if hash !in was.all then later == times
    else
      var tx := was.all[hash];
      var a := tx.sender;
      && (forall b :: b != a ==> Beat(later, b) == Beat(times, b))
      && Beat(later, a) ==
        if Holds(was.p, tx) then
          (if a in times || forall n :: n in was.p[a].items ==> n <= tx.nonce then Beat(times, a) else Some(at))
        else if a in now.q then Beat(times, a) else None
  }

  // ---------- one account ----------

  /** A list that has grown by something it did not have is another one. */
  lemma GrownSame(was: Lists, a: nat, items: Items, strict: bool, now: Lists)
    requires Grown(was, a, items, strict, now) && items.Keys !! ListOf(was, a, strict).items.Keys
    ensures ListOf(now, a, strict).items == ListOf(was, a, strict).items <==> items == map[]
  {
    hide ListOf;
    var l := ListOf(was, a, strict).items;
    if items == map[] {
      assert l + items == l;
    } else {
      var n :| n in items;
      assert n in l + items && n !in l;
    }
  }

  lemma PromotedBeat(was: Pool, times: Counts, a: nat, at: nat, promoted: Items, now: Pool, later: Counts)
    requires Ok(was) && a in was.q && Grown(was.p, a, promoted, true, now.p) && SubItems(promoted, was.q[a].items)
    requires later == if a !in now.q then times - {a} else if promoted == map[] then times else times[a := at]
    ensures BeatPromoted(was, times, a, at, now, later) && forall b :: b != a ==> Beat(later, b) == Beat(times, b)
  {
    hide Grown, ListOf, Ok, SubItems;
    PromotedApart(was, a, promoted);
    GrownSame(was.p, a, promoted, true, now.p);
  }

  lemma PromotedSub(l: TxList, nonce: nat, balance: nat, maxGas: nat, start: nat, limit: Option<nat>, promoted: Items,
                    dropped: Items, left: Items)
    requires CapsOk(l) && !l.strict
    requires PromotedFrom(l, Payable(l, nonce, balance, maxGas), start, limit, promoted, dropped, left)
    ensures SubItems(promoted, l.items)
  {
    hide Payable, ReadyNonces, IsLowest, CapsOk;
    QueuePayable(l, nonce, balance, maxGas);
  }

  lemma PromotedApart(s: Pool, a: nat, promoted: Items)
    requires Ok(s) && a in s.q && SubItems(promoted, s.q[a].items)
    ensures promoted.Keys !! ListOf(s.p, a, true).items.Keys
  {
    QueueFacts(s, a);
  }

  lemma QueuedBeat(was: Pool, times: Counts, a: nat, at: nat, one: Items, other: Items, mid: Lists, now: Pool,
                   later: Counts)
    requires Ok(was) && a in was.p && SubItems(one, was.p[a].items) && SubItems(other, was.p[a].items)
    requires Grown(was.q, a, one, false, mid) && Grown(mid, a, other, false, now.q)
    requires later == if (one == map[] && other == map[]) || a in times then times else times[a := at]
    ensures BeatQueued(was, times, a, at, now, later) && forall b :: b != a ==> Beat(later, b) == Beat(times, b)
  {
    hide Grown, ListOf, Ok;
    PendingApart(was, a);
    GrownTwice(was.q, a, one, other, false, mid, now.q);
    GrownSame(was.q, a, one + other, false, now.q);
    assert (one + other).Keys == one.Keys + other.Keys;
  }

  /** Taking a nonce out of a strict list strands just what lies above it. */
  lemma StrandedNone(l: TxList, nonce: nat)
    requires l.strict && nonce in l.items
    ensures Stranded(l, One(l, nonce)) == map[] <==> forall n :: n in l.items ==> n <= nonce
  {
    var gone := Stranded(l, One(l, nonce));
    forall n | n in l.items && n > nonce ensures n in gone {
      assert nonce in One(l, nonce);
    }
    assert forall n :: n in gone ==> n in l.items && n > nonce;
  }

  lemma RemovedBeat(was: Pool, times: Counts, tx: Tx, at: nat, now: Pool, later: Counts)
    requires Known(was.all, tx)
    requires Holds(was.p, tx) ==>
      later == if tx.sender in times || forall n :: n in was.p[tx.sender].items ==> n <= tx.nonce then times
        else times[tx.sender := at]
    requires !Holds(was.p, tx) ==> later == if tx.sender in now.q then times else times - {tx.sender}
    requires !Holds(was.p, tx) ==> tx.sender in now.q ==> tx.sender in times
    ensures BeatRemoved(was, times, tx.hash, at, now, later)
  {
  }

  lemma QueuedRemoved(was: Pool, times: Counts, tx: Tx, at: nat, now: Pool, later: Counts)
    requires BeatRemoved(was, times, tx.hash, at, now, later) && Known(was.all, tx) && !Holds(was.p, tx)
    ensures later == if tx.sender in now.q then times else times - {tx.sender}
  {
    var left := if tx.sender in now.q then times else times - {tx.sender};
    forall b ensures (b in later <==> b in left) && (b in later ==> later[b] == left[b]) {
      assert Beat(later, b) == Beat(left, b);
    }
  }

  /** The lists that are gone when only one account's may be. */
  lemma GoneKeys(was: Lists, a: nat, now: Lists)
    requires now - {a} == was - {a} && a in was
    ensures now.Keys <= was.Keys && was.Keys - now.Keys == if a in now then {} else {a}
  {
    forall b | b != a ensures b in now <==> b in was {
      assert b in now - {a} <==> b in was - {a};
    }
  }

  lemma NoQueueNoBeat(s: Pool, times: Counts, a: nat, at: nat)
    requires a !in s.q
    ensures BeatPromoted(s, times, a, at, s, times)
  {
  }

  // ---------- all accounts ----------

  lemma NoBeatPromoted(was: Pool, times: Counts, at: nat)
    ensures AllBeatPromoted(was, times, {}, at, was, times) && AllBeatQueued(was, times, {}, at, was, times)
  {
  }

  lemma BeatPromotedFirst(was: Pool, times: Counts, a: nat, at: nat, mid: Pool, then_: Counts, now: Pool, later: Counts)
    requires SameLists(was, a, mid) && Beat(then_, a) == Beat(times, a) && BeatPromoted(mid, then_, a, at, now, later)
    ensures BeatPromoted(was, times, a, at, now, later)
  {
  }

  lemma BeatPromotedStill(was: Pool, times: Counts, a: nat, at: nat, mid: Pool, then_: Counts, now: Pool, later: Counts)
    requires BeatPromoted(was, times, a, at, mid, then_) && SameLists(mid, a, now) && Beat(later, a) == Beat(then_, a)
    ensures BeatPromoted(was, times, a, at, now, later)
  {
  }

  lemma OneBeatPromoted(was: Pool, times: Counts, accounts: set<nat>, at: nat, mid: Pool, then_: Counts, a: nat, now: Pool,
                        later: Counts)
    requires AllBeatPromoted(was, times, accounts, at, mid, then_) && a !in accounts
    requires BeatPromoted(mid, then_, a, at, now, later) && SameLists(was, a, mid)
    requires forall b :: b != a ==> SameLists(mid, b, now) && Beat(later, b) == Beat(then_, b)
    ensures AllBeatPromoted(was, times, accounts + {a}, at, now, later)
  {
    hide BeatPromoted, SameLists, Beat;
    forall b | b in accounts + {a} ensures BeatPromoted(was, times, b, at, now, later) {
      if b == a {
        BeatPromotedFirst(was, times, a, at, mid, then_, now, later) by { assert Beat(then_, a) == Beat(times, a); }
      } else {
        BeatPromotedStill(was, times, b, at, mid, then_, now, later);
      }
    }
  }

  lemma BeatQueuedFirst(was: Pool, times: Counts, a: nat, at: nat, mid: Pool, then_: Counts, now: Pool, later: Counts)
    requires SameLists(was, a, mid) && Beat(then_, a) == Beat(times, a) && BeatQueued(mid, then_, a, at, now, later)
    ensures BeatQueued(was, times, a, at, now, later)
  {
  }

  lemma BeatQueuedStill(was: Pool, times: Counts, a: nat, at: nat, mid: Pool, then_: Counts, now: Pool, later: Counts)
    requires BeatQueued(was, times, a, at, mid, then_) && SameLists(mid, a, now) && Beat(later, a) == Beat(then_, a)
    ensures BeatQueued(was, times, a, at, now, later)
  {
  }

  lemma OneBeatQueued(was: Pool, times: Counts, accounts: set<nat>, at: nat, mid: Pool, then_: Counts, a: nat, now: Pool,
                      later: Counts)
    requires AllBeatQueued(was, times, accounts, at, mid, then_) && a !in accounts
    requires BeatQueued(mid, then_, a, at, now, later) && SameLists(was, a, mid)
    requires forall b :: b != a ==> SameLists(mid, b, now) && Beat(later, b) == Beat(then_, b)
    ensures AllBeatQueued(was, times, accounts + {a}, at, now, later)
  {
    hide BeatQueued, SameLists, Beat;
    forall b | b in accounts + {a} ensures BeatQueued(was, times, b, at, now, later) {
      if b == a {
        BeatQueuedFirst(was, times, a, at, mid, then_, now, later) by { assert Beat(then_, a) == Beat(times, a); }
      } else {
        BeatQueuedStill(was, times, b, at, mid, then_, now, later);
      }
    }
  }

  /** While transactions are removed, each account keeps its heartbeat, loses it with its queue, or gets a new one; it keeps
      it unless one of its transactions goes. */
  ghost predicate BeatsRemoved(all: Lookup, times: Counts, gone: set<nat>, at: nat, later: Counts) {
    forall b ::
      && (b in later ==> later[b] == at || Beat(times, b) == Some(later[b]))
      && ((forall h :: h in gone && h in all ==> all[h].sender != b) ==> Beat(later, b) == Beat(times, b))
  }

  lemma NoneRemoved(all: Lookup, times: Counts, gone: set<nat>, at: nat)
    ensures BeatsRemoved(all, times, gone, at, times)
  {
  }

  lemma OneRemoved(all: Lookup, times: Counts, gone: set<nat>, hash: nat, at: nat, mid: Pool, then_: Counts, now: Pool,
                   later: Counts)
    requires BeatsRemoved(all, times, gone, at, then_) && BeatRemoved(mid, then_, hash, at, now, later)
    requires mid.all == all - gone
    ensures BeatsRemoved(all, times, gone + {hash}, at, later)
  {
    forall b ensures b in later ==> later[b] == at || Beat(times, b) == Some(later[b])
      ensures (forall h :: h in gone + {hash} && h in all ==> all[h].sender != b) ==> Beat(later, b) == Beat(times, b)
    {
      if hash in mid.all && b == mid.all[hash].sender {
        assert hash in all;
      } else {
        assert Beat(later, b) == Beat(then_, b);
      }
    }
  }

  /** Adding a transaction: a pending one always beats now, and a queued one if its account has no heartbeat yet. */
  function BeatsAdded(times: Counts, tx: Tx, pending: bool, at: nat): Counts {
    if pending || tx.sender !in times then times[tx.sender := at] else times
  }

  /** The queue after the limit on it, by the heartbeats before: within the limit nothing goes; above it exactly the larger
      of the limit and what local accounts have is left, and no account that is not local keeps anything if one with an
      earlier heartbeat has lost something. Accounts that have lost their queue have lost their heartbeat. */
  ghost predicate QueueTruncated(was: Lists, times: Counts, locals: set<nat>, config: Config, now: Lists, later: Counts) {
    && now.Keys <= was.Keys <= times.Keys && later == times - (was.Keys - now.Keys)
    && (forall a, b :: a in was && b in was && Lost(was, a, now) && b !in locals && times[a] < times[b] ==> b !in now)
    && if MapSum.Sum(Lens(was)) <= config.globalQueue then now == was
       else
         var left, kept := MapSum.Sum(Lens(now)), MapSum.Sum(MapSum.Restrict(Lens(was), locals));
         left >= config.globalQueue && left >= kept && (left == config.globalQueue || left == kept)
  }

  lemma QueueTruncatedIs(was: Lists, times: Counts, locals: set<nat>, config: Config, now: Lists, later: Counts)
    requires now.Keys <= was.Keys <= times.Keys && later == times - (was.Keys - now.Keys)
    requires QueueCut(was, times, locals, now)
    requires var queued := MapSum.Sum(Lens(was));
      if queued <= config.globalQueue then now == was
      else MapSum.Sum(Lens(now)) == Larger(config.globalQueue, MapSum.Sum(MapSum.Restrict(Lens(was), locals)))
    ensures QueueTruncated(was, times, locals, config, now, later)
  {
    hide Lens, Lost, LowPart;
  }

  /** The accounts whose queue has outlived its last heartbeat. */
  function Idle(queue: Lists, times: Counts, locals: set<nat>, lifetime: nat, now: nat): set<nat> {
    set a | a in queue && a !in locals && a in times && now > times[a] + lifetime
  }
}
