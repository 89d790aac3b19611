/** Vote weights behind a write-back cache (gossip/store_llr_block.go) with their validator bitmaps (utils/bitmap). */
module VoteStore {
  import opened LogKeys

  type uint32 = n: int | 0 <= n < 0x1_0000_0000

  const WEIGHT_SIZE := 4

  /** What one vote is counted under; epoch votes have block 0. */
  datatype Key = Key(block: nat, epoch: nat, v: Hash)

  datatype Tally = Tally(weight: uint32, voters: bytes)

  datatype Cached = Cached(tally: Tally, mutated: bool)

  // ---------- bitmaps ----------

  function Pow2(b: nat): (p: nat)
    ensures p > 0
  {
    if b == 0 then 1 else 2 * Pow2(b - 1)
  }

  predicate HasBit(x: nat, b: nat) {
    if b == 0 then x % 2 == 1 else HasBit(x / 2, b - 1)
  }

  lemma {:induction false} BitAdded(x: nat, b: nat, c: nat)
    requires !HasBit(x, b)
    ensures HasBit(x + Pow2(b), c) <==> c == b || HasBit(x, c)
  {
    if b > 0 {
      assert (x + Pow2(b)) / 2 == x / 2 + Pow2(b - 1);
      if c > 0 { BitAdded(x / 2, b - 1, c - 1); }
    }
  }

  lemma {:induction false} BitFits(x: nat, b: nat, width: nat)
    requires !HasBit(x, b) && b < width && x < Pow2(width)
    ensures x + Pow2(b) < Pow2(width)
  {
    assert Pow2(width) == 2 * Pow2(width - 1) && x == 2 * (x / 2) + x % 2;
    if b > 0 {
      BitFits(x / 2, b - 1, width - 1);
    } else {
      assert x % 2 == 0 && Pow2(0) == 1;
    }
  }

  /** `x | 1 << b`. */
  function SetBit(x: byte, b: nat): byte
    requires b < 8
  {
    if HasBit(x, b) then x
    else
      assert Pow2(8) == 256;
      BitFits(x, b, 8);
      x + Pow2(b)
  }

  lemma NoBits(b: nat)
    ensures !HasBit(0, b)
  {
  }

  function NewBitmap(max: nat): (s: bytes)
    ensures |s| * 8 >= max
    ensures forall i: nat :: i < |s| * 8 ==> !Has(s, i)
  {
    assert forall b: nat :: !HasBit(0, b) by { forall b: nat ensures !HasBit(0, b) { NoBits(b); } }
    seq(max / 8 + (if max % 8 != 0 then 1 else 0), _ => 0)
  }

  /** An index beyond the bitmap makes the original panic. */
  predicate Has(s: bytes, i: nat)
    requires i < |s| * 8
  {
    HasBit(s[i / 8], i % 8)
  }

  function Put(s: bytes, i: nat): (t: bytes)
    requires i < |s| * 8
    ensures |t| == |s|
  {
    s[i / 8 := SetBit(s[i / 8], i % 8)]
  }

  /** Put adds one index to the set and nothing else. */
  lemma PutHas(s: bytes, i: nat, j: nat)
    requires i < |s| * 8 && j < |s| * 8
    ensures Has(Put(s, i), j) <==> i == j || Has(s, j)
  {
    hide HasBit, Pow2;
    if !HasBit(s[i / 8], i % 8) { BitAdded(s[i / 8], i % 8, j % 8); }
    assert i == i / 8 * 8 + i % 8 && j == j / 8 * 8 + j % 8;
  }

  // ---------- table values ----------

  function Encode(t: Tally): bytes {
    BigEndian(t.weight, WEIGHT_SIZE) + t.voters
  }

  function Decode(b: bytes): Tally
    requires |b| >= WEIGHT_SIZE
  {
    Pow256Of4();
    Tally(FromBigEndian(b[..WEIGHT_SIZE]), b[WEIGHT_SIZE..])
  }

  lemma Pow256Of4()
    ensures Pow256(WEIGHT_SIZE) == 0x1_0000_0000
  {
    assert Pow256(WEIGHT_SIZE) == 256 * 256 * 256 * 256;
  }

  lemma TallyRoundTrip(t: Tally)
    ensures Decode(Encode(t)) == t
  {
    Pow256Of4();
    BigEndianRoundTrip(t.weight, WEIGHT_SIZE);
    assert Encode(t)[..WEIGHT_SIZE] == BigEndian(t.weight, WEIGHT_SIZE);
    assert Encode(t)[WEIGHT_SIZE..] == t.voters;
  }

  // ---------- the meaning ----------

  /** There is no bit for the validator in a bitmap made for a smaller group: the original panics. */
  predicate Room(votes: map<Key, Tally>, key: Key, validator: nat) {
    key in votes ==> validator < |votes[key].voters| * 8
  }

  function TallyOf(votes: map<Key, Tally>, key: Key, num: nat): (t: Tally)
    ensures forall i: nat :: i < num && Room(votes, key, i) ==> i < |t.voters| * 8
  {
    if key in votes then votes[key] else Tally(0, NewBitmap(num))
  }

  /** A validator is counted once, and weights have 32 bits. */
  function CountOne(t: Tally, validator: nat, diff: uint32): Tally
    requires validator < |t.voters| * 8
  {
    if Has(t.voters, validator) then t else Tally(Wrap(t.weight + diff), Put(t.voters, validator))
  }

  function Wrap(n: nat): (w: uint32)
    ensures n < 0x1_0000_0000 ==> w == n
  {
    n % 0x1_0000_0000
  }

  /** What a plain map would do. */
  function Counted(votes: map<Key, Tally>, key: Key, validator: nat, num: nat, diff: uint32): map<Key, Tally>
    requires validator < num && Room(votes, key, validator)
  {
    votes[key := CountOne(TallyOf(votes, key, num), validator, diff)]
  }

  /** The cache over its table. Which entries the cache evicts is up to it: callers pass any set. */
  class Votes {
    var cache: map<Key, Cached>
    var table: map<Key, bytes>

    /** An entry the cache may drop silently is the one in the table. */
    predicate Valid()
      reads this
    {
      && (forall k :: k in table ==> |table[k]| >= WEIGHT_SIZE)
      && (forall k :: k in cache && !cache[k].mutated ==> k in table && Decode(table[k]) == cache[k].tally)
    }

    /** The votes as a reader sees them: cached, or else stored. */
    function View(): map<Key, Tally>
      requires Valid()
      reads this
    {
      map k | k in cache.Keys + table.Keys :: if k in cache then cache[k].tally else Decode(table[k])
    }

    constructor ()
      ensures Valid() && View() == map[]
    {
      cache, table := map[], map[];
    }

    method FlushOne(k: Key)
      requires Valid() && k in cache
      modifies this`table
      ensures Valid() && View() == old(View())
      ensures k in table && |table[k]| >= WEIGHT_SIZE && Decode(table[k]) == cache[k].tally
    {
      hide Decode, Encode;
      TallyRoundTrip(cache[k].tally);
      assert |Encode(cache[k].tally)| >= WEIGHT_SIZE by { EncodeSize(cache[k].tally); }
      table := table[k := Encode(cache[k].tally)];
    }

    /** Dropping an entry writes it first if it is not written yet. */
    method Evict(k: Key)
      requires Valid() && k in cache
      modifies this
      ensures Valid() && View() == old(View()) && cache == old(cache) - {k}
      ensures !old(cache)[k].mutated ==> table == old(table)
    {
      hide Decode;
      if cache[k].mutated {
        FlushOne(k);
      }
      cache := cache - {k};
    }

    method EvictAll(evicted: set<Key>)
      requires Valid()
      modifies this
      ensures Valid() && View() == old(View()) && cache == old(cache) - evicted
    {
      hide Valid, View;
      var todo := evicted;
      while todo != {}
        invariant Valid() && View() == old(View())
        invariant todo <= evicted && cache == old(cache) - (evicted - todo)
        decreases todo
      {
        var k :| k in todo;
        if k in cache {
          Evict(k);
        }
        todo := todo - {k};
      }
    }

    /** Storing an entry in the cache may evict any entries, this one included. */
    method CacheAdd(k: Key, c: Cached, evicted: set<Key>)
      requires Valid()
      requires !c.mutated ==> k in table && Decode(table[k]) == c.tally
      modifies this
      ensures Valid() && View() == old(View())[k := c.tally]
      ensures cache == old(cache)[k := c] - evicted
    {
      hide Decode;
      cache := cache[k := c];
      assert View() == old(View())[k := c.tally];
      EvictAll(evicted);
    }

    /** Writes an entry if it was mutated. */
    method Flush(k: Key)
      requires Valid() && k in cache
      modifies this
      ensures Valid() && View() == old(View()) && cache.Keys == old(cache.Keys)
      ensures !cache[k].mutated && cache[k].tally == old(cache)[k].tally
      ensures forall x :: x in cache && x != k ==> cache[x] == old(cache)[x]
      ensures !old(cache)[k].mutated ==> table == old(table)
    {
      hide Decode, Encode;
      if cache[k].mutated {
        FlushOne(k);
        cache := cache[k := cache[k].(mutated := false)];
      }
    }

    /** Writes every mutated entry and forgets that it was mutated. */
    method FlushMutated()
      requires Valid()
      modifies this
      ensures Valid() && View() == old(View())
      ensures cache.Keys == old(cache.Keys)
      ensures forall k :: k in cache ==> !cache[k].mutated && cache[k].tally == old(cache)[k].tally
    {
      hide Valid, View;
      var keys := cache.Keys;
      while keys != {}
        invariant Valid() && View() == old(View())
        invariant keys <= cache.Keys == old(cache.Keys)
        invariant forall k :: k in cache ==> cache[k].tally == old(cache)[k].tally
        invariant forall k :: k in cache && k !in keys ==> !cache[k].mutated
        decreases keys
      {
        var k :| k in keys;
        Flush(k);
        keys := keys - {k};
      }
    }

    /** The weight and the bitmap of a key, none if nobody voted. */
    method GetVoteWeight(key: Key, evicted: set<Key>) returns (weight: uint32, found: bool, voters: bytes)
      requires Valid()
      modifies this
      ensures Valid() && View() == old(View())
      ensures found <==> key in View()
      ensures found ==> View()[key] == Tally(weight, voters)
      ensures !found ==> weight == 0
      ensures cache == if key in old(cache) || !found then old(cache)
                       else old(cache)[key := Cached(Tally(weight, voters), false)] - evicted
    {
      if key in cache {
        return cache[key].tally.weight, true, cache[key].tally.voters;
      }
      if key !in table {
        return 0, false, [];
      }
      var t := Decode(table[key]);
      CacheAdd(key, Cached(t, false), evicted);
      return t.weight, true, t.voters;
    }

    /** Counts a vote; the result is the weight of the key's voters so far. */
    method AddVoteWeight(key: Key, validator: nat, num: nat, diff: uint32, onRead: set<Key>, onWrite: set<Key>)
      returns (weight: uint32)
      requires Valid() && validator < num
      requires Room(View(), key, validator)
      modifies this
      ensures Valid() && View() == Counted(old(View()), key, validator, num, diff)
      ensures key in View() && weight == View()[key].weight
    {
      hide Valid, View, Has, Put, NewBitmap, Decode;
      var w, found, s := GetVoteWeight(key, onRead);
      if found && Has(s, validator) {
        return w;
      }
      if !found {
        s := NewBitmap(num);
      }
      s := Put(s, validator);
      w := Wrap(w + diff);
      CacheAdd(key, Cached(Tally(w, s), true), onWrite);
      return w;
    }
  }

  lemma EncodeSize(t: Tally)
    ensures |Encode(t)| == WEIGHT_SIZE + |t.voters|
  {
    Pow256Of4();
  }
}
