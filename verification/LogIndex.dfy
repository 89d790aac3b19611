/** The two tables of the log index: what Push writes, what an iterator scans and what fetch reads back. */
module LogIndex {
  import opened LogKeys

  const ADDRESS_SIZE := 20
  const MAX_TOPICS := 5

  type Address = a: bytes | |a| == ADDRESS_SIZE witness seq(ADDRESS_SIZE, _ => 0)

  datatype Log = Log(id: ID, blockHash: Hash, address: Address, topics: seq<Hash>, data: bytes)

  function AddressHash(a: Address): Hash {
    seq(HASH_SIZE - ADDRESS_SIZE, _ => 0) + a
  }

  /** What is indexed at position `p`: the address at 0, then the topics. */
  function FieldAt(l: Log, p: nat): Hash
    requires p <= |l.topics|
  {
    if p == 0 then AddressHash(l.address) else l.topics[p - 1]
  }

  /** What stands at a position of a log: its address behind twelve zero bytes at 0, and then its topics in order. */
  predicate Stands(l: Log, p: nat, h: Hash) {
    if p == 0 then (forall i :: 0 <= i < 12 ==> h[i] == 0) && h[12..] == l.address
    else p <= |l.topics| && h == l.topics[p - 1]
  }

  lemma FieldIs(l: Log, p: nat, h: Hash)
    requires p <= |l.topics|
    ensures Stands(l, p, h) <==> h == FieldAt(l, p)
  {
    if p == 0 && Stands(l, p, h) {
      assert h == h[..12] + h[12..] && h[..12] == seq(HASH_SIZE - ADDRESS_SIZE, _ => 0);
    }
  }

  function Concat(hs: seq<Hash>): (b: bytes)
    ensures |b| == HASH_SIZE * |hs|
  {
    if |hs| == 0 then [] else Concat(hs[..|hs| - 1]) + hs[|hs| - 1]
  }

  lemma {:induction false} ConcatAt(hs: seq<Hash>, i: nat)
    requires i < |hs|
    ensures Concat(hs)[HASH_SIZE * i..HASH_SIZE * (i + 1)] == hs[i]
  {
    if i < |hs| - 1 {
      ConcatAt(hs[..|hs| - 1], i);
      assert Concat(hs)[HASH_SIZE * i..HASH_SIZE * (i + 1)]
          == Concat(hs[..|hs| - 1])[HASH_SIZE * i..HASH_SIZE * (i + 1)];
    }
  }

  /** The value stored under a record's identifier. */
  function Encode(l: Log): bytes {
    Concat(l.topics) + l.blockHash + l.address + l.data
  }

  /** The logs that went in, keyed by identifier; entries of one identifier never differ. */
  type Contents = map<ID, Log>

  ghost predicate Coherent(logs: Contents) {
    forall id :: id in logs ==> logs[id].id == id && |logs[id].topics| <= MAX_TOPICS
  }

  /** The index entries of positions below `n`: the topic count, under each position's key. */
  function IndexEntries(l: Log, n: nat): map<bytes, byte>
    requires n <= |l.topics| + 1 && |l.topics| <= MAX_TOPICS
  {
    if n == 0 then map[] else IndexEntries(l, n - 1)[TopicKey(FieldAt(l, n - 1), n - 1, l.id) := |l.topics|]
  }

  /** `key` is the index key of what stands at one of the positions of `l`. */
  ghost predicate IndexKeyOf(l: Log, key: bytes) {
    |l.topics| <= 5 && exists p: byte, h: Hash :: p <= |l.topics| && Stands(l, p, h) && key == TopicKey(h, p, l.id)
  }

  lemma IndexKeyIs(l: Log, key: bytes)
    requires |l.topics| <= MAX_TOPICS
    ensures IndexKeyOf(l, key) <==> key in IndexEntries(l, |l.topics| + 1)
    ensures IndexKeyOf(l, key) ==> IndexEntries(l, |l.topics| + 1)[key] == |l.topics|
  {
    hide TopicKey, Stands, IndexEntries, FieldAt;
    if IndexKeyOf(l, key) {
      var p: byte, h: Hash :| p <= |l.topics| && Stands(l, p, h) && key == TopicKey(h, p, l.id);
      FieldIs(l, p, h);
      EntryIn(l, |l.topics| + 1, p);
    }
    if key in IndexEntries(l, |l.topics| + 1) {
      var p := EntryAt(l, |l.topics| + 1, key);
      FieldIs(l, p, FieldAt(l, p));
    }
  }

  lemma {:induction false} EntryAt(l: Log, n: nat, key: bytes) returns (p: byte)
    requires |l.topics| <= MAX_TOPICS && n <= |l.topics| + 1 && key in IndexEntries(l, n)
    ensures p < n && key == TopicKey(FieldAt(l, p), p, l.id)
    ensures IndexEntries(l, n)[key] == |l.topics|
  {
    if key == TopicKey(FieldAt(l, n - 1), n - 1, l.id) {
      p := n - 1;
    } else {
      p := EntryAt(l, n - 1, key);
    }
  }

  lemma {:induction false} EntryIn(l: Log, n: nat, p: byte)
    requires |l.topics| <= MAX_TOPICS && n <= |l.topics| + 1 && p < n
    ensures TopicKey(FieldAt(l, p), p, l.id) in IndexEntries(l, n)
  {
    if p < n - 1 { EntryIn(l, n - 1, p); }
  }

  /** The record table has the encoding of exactly these logs. */
  ghost predicate RecordsOf(logrec: map<bytes, bytes>, logs: Contents) {
    && (forall id :: id in logs ==> IdBytes(id) in logrec && logrec[IdBytes(id)] == Encode(logs[id]))
    && (forall key :: key in logrec ==> exists id :: id in logs && key == IdBytes(id))
  }

  /** Every index key of `l` is there with its topic count. */
  ghost predicate Lists(topic: map<bytes, byte>, l: Log) {
    forall key :: IndexKeyOf(l, key) ==> key in topic && topic[key] == |l.topics|
  }

  /** The log that owns an index key. */
  ghost predicate Owned(logs: Contents, key: bytes) {
    exists id :: id in logs && IndexKeyOf(logs[id], key)
  }

  /** The topic table has the index entries of exactly these logs. */
  ghost predicate TopicsOf(topic: map<bytes, byte>, logs: Contents) {
    && (forall id :: id in logs ==> Lists(topic, logs[id]))
    && (forall key :: key in topic ==> Owned(logs, key))
  }

  ghost predicate Represents(topic: map<bytes, byte>, logrec: map<bytes, bytes>, logs: Contents) {
    Coherent(logs) && RecordsOf(logrec, logs) && TopicsOf(topic, logs)
  }

  /** Everything of these logs is stored, though the index may have more entries. */
  ghost predicate Stored(topic: map<bytes, byte>, logrec: map<bytes, bytes>, logs: Contents) {
    Coherent(logs) && RecordsOf(logrec, logs) && forall id :: id in logs ==> Lists(topic, logs[id])
  }

  lemma AllListed(topic: map<bytes, byte>, logrec: map<bytes, bytes>, logs: Contents)
    requires Represents(topic, logrec, logs)
    ensures Stored(topic, logrec, logs) && forall key :: key in topic <==> Owned(logs, key)
  {
    hide IndexKeyOf, RecordsOf, Coherent;
    forall key | Owned(logs, key) ensures key in topic {
      var id :| id in logs && IndexKeyOf(logs[id], key);
      assert Lists(topic, logs[id]);
    }
  }

  /** Two logs sharing an index key share their identifier. */
  lemma IndexKeyDeterminesId(a: Log, b: Log, key: bytes)
    requires IndexKeyOf(a, key) && IndexKeyOf(b, key)
    ensures a.id == b.id
  {
    hide TopicKey, Stands;
    var p: byte, g: Hash :| p <= |a.topics| && Stands(a, p, g) && key == TopicKey(g, p, a.id);
    var q: byte, h: Hash :| q <= |b.topics| && Stands(b, q, h) && key == TopicKey(h, q, b.id);
    TopicKeyRoundTrip(g, p, a.id, g, p);
    TopicKeyRoundTrip(h, q, b.id, h, q);
  }

  /** The pushed logs in order, up to the first with too many topics: that one makes Push fail. */
  function Accepted(recs: seq<Log>): (n: nat)
    ensures n <= |recs|
    ensures forall i :: 0 <= i < n ==> |recs[i].topics| <= MAX_TOPICS
    ensures n < |recs| ==> |recs[n].topics| > MAX_TOPICS
  {
    if |recs| == 0 || |recs[0].topics| > MAX_TOPICS then 0 else 1 + Accepted(recs[1..])
  }

  ghost function AddAll(logs: Contents, recs: seq<Log>): Contents
  {
    if |recs| == 0 then logs else AddAll(logs, recs[..|recs| - 1])[recs[|recs| - 1].id := recs[|recs| - 1]]
  }

  lemma AddAllNone(logs: Contents)
    ensures AddAll(logs, []) == logs
  {
  }

  lemma AddAllNext(logs: Contents, recs: seq<Log>, n: nat)
    requires n < |recs|
    ensures AddAll(logs, recs[..n + 1]) == AddAll(logs, recs[..n])[recs[n].id := recs[n]]
  {
    assert recs[..n + 1][..n] == recs[..n];
  }

  ghost predicate Among(recs: seq<Log>, id: ID) {
    exists i :: 0 <= i < |recs| && recs[i].id == id
  }

  /** No later log has the same identifier. */
  ghost predicate IsLast(recs: seq<Log>, i: nat)
    requires i < |recs|
  {
    forall j :: i < j < |recs| ==> recs[j].id != recs[i].id
  }

  lemma LastNext(recs: seq<Log>, i: nat)
    requires i < |recs| - 1 && IsLast(recs, i)
    ensures IsLast(recs[..|recs| - 1], i) && recs[|recs| - 1].id != recs[i].id
  {
  }

  /** Nothing but the old and the pushed logs is stored, the last one pushed under each identifier. */
  ghost predicate HasLast(now: Contents, logs: Contents, recs: seq<Log>) {
    && (forall id :: id in logs && !Among(recs, id) ==> id in now && now[id] == logs[id])
    && (forall i: nat :: i < |recs| && IsLast(recs, i) ==> recs[i].id in now && now[recs[i].id] == recs[i])
    && (forall id :: id in now <==> id in logs || Among(recs, id))
  }

  lemma {:induction false} AddAllIs(logs: Contents, recs: seq<Log>)
    ensures HasLast(AddAll(logs, recs), logs, recs)
  {
    if |recs| > 0 {
      AddAllIs(logs, recs[..|recs| - 1]);
      HasLastNext(AddAll(logs, recs[..|recs| - 1]), logs, recs);
    }
  }

  lemma AmongNext(recs: seq<Log>)
    requires |recs| > 0
    ensures forall id :: Among(recs, id) <==> id == recs[|recs| - 1].id || Among(recs[..|recs| - 1], id)
  {
    var front := recs[..|recs| - 1];
    forall id | Among(front, id) ensures Among(recs, id) {
      var i :| 0 <= i < |front| && front[i].id == id;
      assert recs[i].id == id;
    }
  }

  lemma HasLastNext(was: Contents, logs: Contents, recs: seq<Log>)
    requires |recs| > 0 && HasLast(was, logs, recs[..|recs| - 1])
    ensures var rec := recs[|recs| - 1]; HasLast(was[rec.id := rec], logs, recs)
  {
    hide Among, IsLast;
    var front, rec := recs[..|recs| - 1], recs[|recs| - 1];
    var now := was[rec.id := rec];
    AmongNext(recs);
    forall i: nat | i < |recs| && IsLast(recs, i) ensures recs[i].id in now && now[recs[i].id] == recs[i] {
      if i < |front| {
        LastNext(recs, i);
        assert front[i] == recs[i];
      }
    }
  }

  /** Each index key of the one log is one of the other. */
  ghost predicate Covers(m: Log, l: Log) {
    forall key :: IndexKeyOf(l, key) ==> IndexKeyOf(m, key)
  }

  /** No index entry is left of a log that was overwritten by another one with its identifier. */
  ghost predicate NoneLeft(logs: Contents, recs: seq<Log>, now: Contents) {
    && (forall id :: id in logs ==> id in now && Covers(now[id], logs[id]))
    && (forall i :: 0 <= i < |recs| ==> recs[i].id in now && Covers(now[recs[i].id], recs[i]))
  }

  /** One identifier never names two different logs of `all`. */
  ghost predicate Within(logs: Contents, recs: seq<Log>, all: Contents) {
    && (forall id :: id in logs ==> id in all && all[id] == logs[id])
    && (forall i :: 0 <= i < |recs| ==> recs[i].id in all && all[recs[i].id] == recs[i])
  }

  /** Then nothing is overwritten. */
  lemma {:induction false} AddAllWithin(logs: Contents, recs: seq<Log>, all: Contents)
    requires Within(logs, recs, all)
    ensures forall id :: id in AddAll(logs, recs) ==> id in all && AddAll(logs, recs)[id] == all[id]
    ensures NoneLeft(logs, recs, AddAll(logs, recs))
  {
    hide IndexKeyOf;
    if |recs| > 0 {
      var front := recs[..|recs| - 1];
      AddAllWithin(logs, front, all);
      forall i | 0 <= i < |recs| ensures recs[i].id in AddAll(logs, recs) {
        if i < |front| { assert front[i] == recs[i]; }
      }
    }
  }

  /** The keys of the index entries written by then. */
  ghost predicate Written(logs: Contents, recs: seq<Log>, key: bytes) {
    Owned(logs, key) || exists i :: 0 <= i < |recs| && IndexKeyOf(recs[i], key)
  }

  lemma WrittenNone(logs: Contents)
    ensures forall key :: Written(logs, [], key) <==> Owned(logs, key)
  {
  }

  lemma WrittenNext(logs: Contents, recs: seq<Log>, n: nat, key: bytes)
    requires n < |recs|
    ensures Written(logs, recs[..n + 1], key) <==> Written(logs, recs[..n], key) || IndexKeyOf(recs[n], key)
  {
    hide Owned, IndexKeyOf;
    var some, more := recs[..n], recs[..n + 1];
    assert more == some + [recs[n]];
    if i :| 0 <= i < |some| && IndexKeyOf(some[i], key) {
      assert IndexKeyOf(more[i], key);
    }
    assert more[n] == recs[n];
  }

  /** The tables are those of the logs that are left just when no entry is left of any other. */
  lemma StoredIs(topic: map<bytes, byte>, logrec: map<bytes, bytes>, logs: Contents, recs: seq<Log>, now: Contents)
    requires Coherent(logs) && Stored(topic, logrec, now) && forall key :: key in topic <==> Written(logs, recs, key)
    requires forall id :: id in now <==> id in logs || Among(recs, id)
    ensures Represents(topic, logrec, now) <==> NoneLeft(logs, recs, now)
  {
    hide RecordsOf, IndexKeyOf, Lists;
    if NoneLeft(logs, recs, now) {
      forall key | key in topic ensures Owned(now, key) {
        WrittenIs(logs, recs, now, key);
      }
    }
    if Represents(topic, logrec, now) {
      forall id | id in logs ensures id in now && Covers(now[id], logs[id]) {
        forall key | IndexKeyOf(logs[id], key) ensures IndexKeyOf(now[id], key) {
          assert Owned(logs, key);
          OwnerIs(now, logs[id], key);
        }
      }
      forall i | 0 <= i < |recs| ensures recs[i].id in now && Covers(now[recs[i].id], recs[i]) {
        forall key | IndexKeyOf(recs[i], key) ensures IndexKeyOf(now[recs[i].id], key) {
          assert Written(logs, recs, key);
          OwnerIs(now, recs[i], key);
        }
      }
    }
  }

  lemma WrittenIs(logs: Contents, recs: seq<Log>, now: Contents, key: bytes)
    requires NoneLeft(logs, recs, now) && Written(logs, recs, key)
    ensures Owned(now, key)
  {
    hide IndexKeyOf;
    if Owned(logs, key) {
      var id :| id in logs && IndexKeyOf(logs[id], key);
      assert id in now && IndexKeyOf(now[id], key);
    } else {
      var i :| 0 <= i < |recs| && IndexKeyOf(recs[i], key);
      assert recs[i].id in now && IndexKeyOf(now[recs[i].id], key);
    }
  }

  /** An index key belongs to the log with the identifier it was made with. */
  lemma OwnerIs(now: Contents, l: Log, key: bytes)
    requires Coherent(now) && Owned(now, key) && IndexKeyOf(l, key) && l.id in now
    ensures IndexKeyOf(now[l.id], key)
  {
    hide IndexKeyOf;
    var id :| id in now && IndexKeyOf(now[id], key);
    IndexKeyDeterminesId(now[id], l, key);
  }

  lemma HasIds(now: Contents, logs: Contents, recs: seq<Log>)
    requires HasLast(now, logs, recs)
    ensures forall id :: id in now <==> id in logs || Among(recs, id)
  {
  }

  class Index {
    var topic: map<bytes, byte>
    var logrec: map<bytes, bytes>

    constructor ()
      ensures Represents(topic, logrec, map[])
    {
      topic, logrec := map[], map[];
    }

    /** Writes each record and its index entries; stops at the first log with too many topics. A log overwrites one with the
        same identifier, whose index entries stay: the tables are right afterwards just when each of those is an entry of
        the log that is left. */
    method Push(recs: seq<Log>, ghost logs: Contents) returns (tooBigTopics: bool)
      requires Represents(topic, logrec, logs)
      modifies this
      ensures tooBigTopics <==> exists i :: 0 <= i < |recs| && |recs[i].topics| > 5
      ensures var pushed := recs[..Accepted(recs)];
        && HasLast(AddAll(logs, pushed), logs, pushed)
        && Stored(topic, logrec, AddAll(logs, pushed))
        && (Represents(topic, logrec, AddAll(logs, pushed)) <==> NoneLeft(logs, pushed, AddAll(logs, pushed)))
    {
      hide RecordsOf, HasLast, AddAll, NoneLeft, IndexKeyOf, Lists, Written, Owned;
      AddAllIs(logs, recs[..Accepted(recs)]);
      AddAllNone(logs);
      WrittenNone(logs);
      AllListed(topic, logrec, logs);
      var n := 0;
      assert recs[..0] == [];
      tooBigTopics := false;
      while n < |recs|
        invariant 0 <= n <= Accepted(recs) && !tooBigTopics
        invariant Stored(topic, logrec, AddAll(logs, recs[..n]))
        invariant forall key :: key in topic <==> Written(logs, recs[..n], key)
      {
        if |recs[n].topics| > MAX_TOPICS {
          tooBigTopics := true;
          break;
        }
        forall key ensures Written(logs, recs[..n + 1], key) <==> Written(logs, recs[..n], key) || IndexKeyOf(recs[n], key) {
          WrittenNext(logs, recs, n, key);
        }
        PushOne(recs[n], AddAll(logs, recs[..n]));
        AddAllNext(logs, recs, n);
        n := n + 1;
      }
      assert n == Accepted(recs);
      HasIds(AddAll(logs, recs[..n]), logs, recs[..n]);
      StoredIs(topic, logrec, logs, recs[..n], AddAll(logs, recs[..n]));
    }

    method PushOne(rec: Log, ghost logs: Contents)
      requires |rec.topics| <= MAX_TOPICS && Stored(topic, logrec, logs)
      modifies this
      ensures Stored(topic, logrec, logs[rec.id := rec])
      ensures forall key :: key in topic <==> key in old(topic) || IndexKeyOf(rec, key)
      ensures old(Represents(topic, logrec, logs)) ==>
        (Represents(topic, logrec, logs[rec.id := rec]) <==> rec.id in logs ==> Covers(rec, logs[rec.id]))
    {
      hide IdBytes, Encode, RecordsOf, TopicsOf, IndexEntries, Lists, Coherent, Covers;
      RecordAdded(logrec, logs, rec);
      StillListed(topic, logs, rec);
      ghost var was := topic;
      logrec := logrec[IdBytes(rec.id) := Encode(rec)];
      PushTopics(rec);
      Overwritten(was, old(logrec), logs, rec, topic, logrec);
    }

    method PushTopics(rec: Log)
      requires |rec.topics| <= MAX_TOPICS
      modifies this`topic
      ensures topic == old(topic) + IndexEntries(rec, |rec.topics| + 1)
    {
      hide IndexEntries, TopicKey, FieldAt;
      EntriesStart(topic, rec);
      var pos := 0;
      while pos <= |rec.topics|
        invariant pos <= |rec.topics| + 1
        invariant topic == old(topic) + IndexEntries(rec, pos)
      {
        EntriesNext(old(topic), rec, pos);
        topic := topic[TopicKey(FieldAt(rec, pos), pos, rec.id) := |rec.topics|];
        pos := pos + 1;
      }
    }
  }

  lemma EntriesStart(was: map<bytes, byte>, rec: Log)
    requires |rec.topics| <= MAX_TOPICS
    ensures was + IndexEntries(rec, 0) == was
  {
  }

  lemma EntriesNext(was: map<bytes, byte>, rec: Log, pos: nat)
    requires pos <= |rec.topics| <= MAX_TOPICS
    ensures (was + IndexEntries(rec, pos))[TopicKey(FieldAt(rec, pos), pos, rec.id) := |rec.topics|]
      == was + IndexEntries(rec, pos + 1)
  {
    hide TopicKey, FieldAt;
  }

  lemma RecordAdded(was: map<bytes, bytes>, logs: Contents, rec: Log)
    requires RecordsOf(was, logs) && Coherent(logs)
    ensures RecordsOf(was[IdBytes(rec.id) := Encode(rec)], logs[rec.id := rec])
  {
    hide Encode, IdBytes, Coherent;
    var now, after := was[IdBytes(rec.id) := Encode(rec)], logs[rec.id := rec];
    IdRoundTrip(rec.id);
    forall id | id in after ensures IdBytes(id) in now && now[IdBytes(id)] == Encode(after[id]) {
      IdRoundTrip(id);
    }
    forall key | key in now ensures exists id :: id in after && key == IdBytes(id) {
      if key in was && key != IdBytes(rec.id) {
        var id :| id in logs && key == IdBytes(id);
        assert id in after;
      } else {
        assert rec.id in after;
      }
    }
  }

  /** A log's entries do not touch those of logs with other identifiers. */
  lemma StillListed(was: map<bytes, byte>, logs: Contents, rec: Log)
    requires |rec.topics| <= MAX_TOPICS && Coherent(logs)
    requires forall id :: id in logs ==> Lists(was, logs[id])
    ensures Coherent(logs[rec.id := rec])
    ensures var now, more := was + IndexEntries(rec, |rec.topics| + 1), logs[rec.id := rec];
      && (forall id :: id in more ==> Lists(now, more[id]))
      && (forall key :: key in now <==> key in was || IndexKeyOf(rec, key))
  {
    hide IndexEntries, IndexKeyOf;
    var now := was + IndexEntries(rec, |rec.topics| + 1);
    forall key ensures key in now <==> key in was || IndexKeyOf(rec, key)
      ensures IndexKeyOf(rec, key) ==> key in now && now[key] == |rec.topics|
    {
      IndexKeyIs(rec, key);
    }
    forall id | id in logs && id != rec.id ensures Lists(now, logs[id]) {
      forall key | IndexKeyOf(logs[id], key) ensures key in now && now[key] == |logs[id].topics| {
        IndexKeyIs(rec, key);
        if IndexKeyOf(rec, key) { IndexKeyDeterminesId(logs[id], rec, key); }
      }
    }
  }

  /** Writing one log leaves the tables right just when it covers the one that it overwrites. */
  lemma Overwritten(was: map<bytes, byte>, before: map<bytes, bytes>, logs: Contents, rec: Log, topic: map<bytes, byte>,
                    logrec: map<bytes, bytes>)
    requires Coherent(logs) && Stored(topic, logrec, logs[rec.id := rec])
    requires forall key :: key in topic <==> key in was || IndexKeyOf(rec, key)
    ensures Represents(was, before, logs) ==>
      (Represents(topic, logrec, logs[rec.id := rec]) <==> rec.id in logs ==> Covers(rec, logs[rec.id]))
  {
    hide RecordsOf, IndexKeyOf, Lists, Owned, NoneLeft, Covers, Written, Represents;
    if Represents(was, before, logs) {
      AllListed(was, before, logs);
      forall key ensures Written(logs, [rec], key) <==> key in was || IndexKeyOf(rec, key) {
        WrittenOne(logs, rec, key);
      }
      assert [rec][0].id == rec.id;
      StoredIs(topic, logrec, logs, [rec], logs[rec.id := rec]);
      LeftOne(logs, rec);
    }
  }

  lemma WrittenOne(logs: Contents, rec: Log, key: bytes)
    ensures Written(logs, [rec], key) <==> Owned(logs, key) || IndexKeyOf(rec, key)
  {
    hide Owned, IndexKeyOf;
    assert [rec][0] == rec;
  }

  lemma LeftOne(logs: Contents, rec: Log)
    ensures NoneLeft(logs, [rec], logs[rec.id := rec]) <==> rec.id in logs ==> Covers(rec, logs[rec.id])
  {
    hide IndexKeyOf;
  }

  /** The parts of a stored value, read at the offsets fetch reads them at. */
  lemma EncodedParts(l: Log)
    ensures var b, o := Encode(l), HASH_SIZE * |l.topics|;
      && o + HASH_SIZE + ADDRESS_SIZE <= |b|
      && b[..o] == Concat(l.topics)
      && b[o..o + HASH_SIZE] == l.blockHash
      && b[o + HASH_SIZE..o + HASH_SIZE + ADDRESS_SIZE] == l.address
      && b[o + HASH_SIZE + ADDRESS_SIZE..] == l.data
  {
    hide Concat;
    var c := Concat(l.topics);
    assert Encode(l) == c + (l.blockHash + (l.address + l.data));
  }

  lemma EncodedTopic(l: Log, i: nat)
    requires i < |l.topics|
    ensures HASH_SIZE * (i + 1) <= |Encode(l)|
    ensures Encode(l)[HASH_SIZE * i..HASH_SIZE * (i + 1)] == l.topics[i]
  {
    hide Encode, Concat;
    EncodedParts(l);
    ConcatAt(l.topics, i);
    assert Encode(l)[HASH_SIZE * i..HASH_SIZE * (i + 1)]
        == Encode(l)[..HASH_SIZE * |l.topics|][HASH_SIZE * i..HASH_SIZE * (i + 1)];
  }

  /** The record stored for a log. */
  lemma Recorded(logrec: map<bytes, bytes>, id: ID, logs: Contents)
    requires Coherent(logs) && RecordsOf(logrec, logs) && id in logs
    ensures IdBytes(id) in logrec && logrec[IdBytes(id)] == Encode(logs[id]) && logs[id].id == id
  {
    hide Encode, IdBytes;
  }

  /** Rebuilds the log of an identifier from the record table, given the topic count of its index entry. */
  method Fetch(logrec: map<bytes, bytes>, id: ID, topicsCount: byte, ghost logs: Contents) returns (log: Log)
    requires Coherent(logs) && RecordsOf(logrec, logs)
    requires id in logs && topicsCount == |logs[id].topics|
    ensures log == logs[id]
  {
    hide *;
    ghost var l := logs[id];
    Recorded(logrec, id, logs);
    var buf := logrec[IdBytes(id)];
    EncodedParts(l);
    var topics: seq<Hash> := [];
    var offset := 0;
    for i := 0 to topicsCount
      invariant offset == HASH_SIZE * i
      invariant topics == l.topics[..i]
    {
      EncodedTopic(l, i);
      topics := topics + [buf[offset..offset + HASH_SIZE]];
      offset := offset + HASH_SIZE;
    }
    var blockHash := buf[offset..offset + HASH_SIZE];
    offset := offset + HASH_SIZE;
    var address := buf[offset..offset + ADDRESS_SIZE];
    offset := offset + ADDRESS_SIZE;
    log := Log(id, blockHash, address, topics, buf[offset..]);
  }

  /** An entry a pattern thread reads: an identifier and the topic count stored with it. */
  datatype Entry = Entry(id: ID, topics: nat)

  /** The iterator contract: the keys under the prefix from the start key on, in byte order. */
  ghost predicate IsScan(topic: map<bytes, byte>, variant: Hash, pos: byte, start: uint64, keys: seq<bytes>) {
    && (forall i, j :: 0 <= i < j < |keys| ==> LexLess(keys[i], keys[j]))
    && (forall key :: key in keys <==>
          key in topic && ScanPrefix(variant, pos) <= key && LexLeq(ScanPrefix(variant, pos) + UintToBytes(start), key))
  }

  /** A log found at position `pos` under `variant` from block `start` on. */
  predicate HasField(l: Log, variant: Hash, pos: nat, start: uint64) {
    pos <= |l.topics| && Stands(l, pos, variant) && start <= l.id.block
  }

  lemma ScannedKey(topic: map<bytes, byte>, logrec: map<bytes, bytes>, logs: Contents,
                   variant: Hash, pos: byte, start: uint64, keys: seq<bytes>, key: bytes)
    returns (id: ID)
    requires Represents(topic, logrec, logs) && IsScan(topic, variant, pos, start, keys) && key in keys
    ensures key == TopicKey(variant, pos, id) && ExtractLogrecId(key) == id
    ensures id in logs && HasField(logs[id], variant, pos, start) && topic[key] == |logs[id].topics|
  {
    hide TopicKey, Stands, ScanPrefix, LexLeq, LexLess, UintToBytes, ExtractLogrecId, RecordsOf;
    id :| id in logs && IndexKeyOf(logs[id], key);
    var p: byte, h: Hash :| p <= |logs[id].topics| && Stands(logs[id], p, h) && key == TopicKey(h, p, id);
    TopicKeyRoundTrip(h, p, id, variant, pos);
    TopicKeyOrder(variant, pos, id, id, start);
  }

  lemma FieldListed(l: Log, variant: Hash, pos: byte, start: uint64)
    requires HasField(l, variant, pos, start) && |l.topics| <= MAX_TOPICS
    ensures IndexKeyOf(l, TopicKey(variant, pos, l.id)) && start <= l.id.block
  {
    hide TopicKey, Stands;
  }

  lemma KeyIsScanned(topic: map<bytes, byte>, logrec: map<bytes, bytes>, logs: Contents,
                     variant: Hash, pos: byte, start: uint64, keys: seq<bytes>, id: ID)
    requires Represents(topic, logrec, logs) && IsScan(topic, variant, pos, start, keys)
    requires id in logs && HasField(logs[id], variant, pos, start)
    ensures TopicKey(variant, pos, id) in keys
  {
    hide RecordsOf, IndexEntries, TopicKey, ScanPrefix, UintToBytes, LexLess, LexLeq, FieldAt, Owned;
    var key := TopicKey(variant, pos, id);
    FieldListed(logs[id], variant, pos, start);
    TopicKeyRoundTrip(variant, pos, id, variant, pos);
    TopicKeyOrder(variant, pos, id, id, start);
  }

  /** One scan reads exactly the logs with that field, once each, in block order, with their topic counts. */
  lemma ScanMeaning(topic: map<bytes, byte>, logrec: map<bytes, bytes>, logs: Contents,
                    variant: Hash, pos: byte, start: uint64, keys: seq<bytes>, entries: seq<Entry>)
    requires Represents(topic, logrec, logs) && IsScan(topic, variant, pos, start, keys)
    requires |entries| == |keys|
    requires forall i :: 0 <= i < |keys| ==>
      |keys[i]| == TOPIC_KEY_SIZE && keys[i] in topic && entries[i] == Entry(ExtractLogrecId(keys[i]), topic[keys[i]])
    ensures forall i :: 0 <= i < |entries| ==>
      var e := entries[i];
      e.id in logs && HasField(logs[e.id], variant, pos, start) && e.topics == |logs[e.id].topics|
    ensures forall id :: id in logs && HasField(logs[id], variant, pos, start) ==>
      exists i :: 0 <= i < |entries| && entries[i].id == id
    ensures forall i, j :: 0 <= i < j < |entries| ==>
      entries[i].id != entries[j].id && entries[i].id.block <= entries[j].id.block
  {
    hide Represents, ExtractLogrecId, TopicKey, HasField;
    forall i | 0 <= i < |entries|
      ensures var e := entries[i];
        e.id in logs && HasField(logs[e.id], variant, pos, start) && e.topics == |logs[e.id].topics|
    {
      var id := ScannedKey(topic, logrec, logs, variant, pos, start, keys, keys[i]);
    }
    forall id | id in logs && HasField(logs[id], variant, pos, start)
      ensures exists i :: 0 <= i < |entries| && entries[i].id == id
    {
      KeyIsScanned(topic, logrec, logs, variant, pos, start, keys, id);
      var i :| 0 <= i < |keys| && keys[i] == TopicKey(variant, pos, id);
      TopicKeyRoundTrip(variant, pos, id, variant, pos);
      assert entries[i].id == id;
    }
    forall i, j | 0 <= i < j < |entries|
      ensures entries[i].id != entries[j].id && entries[i].id.block <= entries[j].id.block
    {
      var a := ScannedKey(topic, logrec, logs, variant, pos, start, keys, keys[i]);
      var b := ScannedKey(topic, logrec, logs, variant, pos, start, keys, keys[j]);
      assert LexLess(keys[i], keys[j]);
      LexIrreflexive(keys[i]);
      TopicKeyOrder(variant, pos, a, b, start);
    }
  }

  lemma {:induction false} LexIrreflexive(a: bytes)
    ensures !LexLess(a, a)
  {
    if |a| > 0 { LexIrreflexive(a[1..]); }
  }
}
