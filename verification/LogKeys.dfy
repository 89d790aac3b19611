/** Byte layout of log record identifiers and of the keys of the topic table (topicsdb/key.go). */
module LogKeys {

  type byte = x: int | 0 <= x < 256
  type bytes = seq<byte>

  const HASH_SIZE := 32
  const UINT64_SIZE := 8
  const POS_SIZE := 1
  const ID_SIZE := UINT64_SIZE + HASH_SIZE + UINT64_SIZE
  const TOPIC_KEY_SIZE := HASH_SIZE + POS_SIZE + ID_SIZE

  type uint64 = n: int | 0 <= n < 0x1_0000_0000_0000_0000
  type Hash = h: bytes | |h| == HASH_SIZE witness seq(HASH_SIZE, _ => 0)

  /** A log record identifier: the fields NewID packs into its byte array. */
  datatype ID = ID(block: uint64, tx: Hash, index: uint64)

  function Pow256(k: nat): (p: nat)
    ensures p > 0
  {
    if k == 0 then 1 else 256 * Pow256(k - 1)
  }

  /** Big-endian encoding of `n` in `k` bytes. */
  function BigEndian(n: nat, k: nat): (b: bytes)
    requires n < Pow256(k)
    ensures |b| == k
  {
    if k == 0 then [] else BigEndian(n / 256, k - 1) + [n % 256]
  }

  function FromBigEndian(b: bytes): (n: nat)
    ensures n < Pow256(|b|)
  {
    if |b| == 0 then 0 else FromBigEndian(b[..|b| - 1]) * 256 + b[|b| - 1]
  }

  lemma {:induction false} BigEndianRoundTrip(n: nat, k: nat)
    requires n < Pow256(k)
    ensures FromBigEndian(BigEndian(n, k)) == n
  {
    if k > 0 {
      BigEndianRoundTrip(n / 256, k - 1);
      var b := BigEndian(n, k);
      assert b[..|b| - 1] == BigEndian(n / 256, k - 1);
    }
  }

  lemma Pow256Of8()
    ensures Pow256(UINT64_SIZE) == 0x1_0000_0000_0000_0000
  {
    assert Pow256(4) == 256 * 256 * 256 * 256;
    assert Pow256(8) == 256 * 256 * 256 * 256 * Pow256(4);
  }

  function UintToBytes(n: uint64): (b: bytes)
    ensures |b| == UINT64_SIZE
    ensures FromBigEndian(b) == n
  {
    Pow256Of8();
    BigEndianRoundTrip(n, UINT64_SIZE);
    BigEndian(n, UINT64_SIZE)
  }

  function BytesToUint(b: bytes): (n: uint64)
    requires |b| == UINT64_SIZE
    ensures n == FromBigEndian(b)
  {
    Pow256Of8();
    FromBigEndian(b)
  }

  /** NewID followed by Bytes. */
  function IdBytes(id: ID): (b: bytes)
    ensures |b| == ID_SIZE
  {
    UintToBytes(id.block) + id.tx + UintToBytes(id.index)
  }

  /** The accessors BlockNumber, TxHash and Index read together. */
  function ParseId(b: bytes): ID
    requires |b| == ID_SIZE
  {
    ID(BytesToUint(b[..UINT64_SIZE]),
       b[UINT64_SIZE..UINT64_SIZE + HASH_SIZE],
       BytesToUint(b[UINT64_SIZE + HASH_SIZE..]))
  }

  function TopicKey(topic: Hash, pos: byte, id: ID): (key: bytes)
    ensures |key| == TOPIC_KEY_SIZE
  {
    topic + [pos] + IdBytes(id)
  }

  /** The prefix a pattern thread iterates over. */
  function ScanPrefix(variant: Hash, pos: byte): (p: bytes)
    ensures |p| == HASH_SIZE + POS_SIZE
  {
    variant + [pos]
  }

  /** A key of any other length makes the original panic. */
  function ExtractLogrecId(key: bytes): ID
    requires |key| == TOPIC_KEY_SIZE
  {
    ParseId(key[HASH_SIZE + POS_SIZE..])
  }

  /** Lexicographic order of byte strings, the order of a key-value iterator. */
  predicate LexLess(a: bytes, b: bytes) {
    if |b| == 0 then false
    else if |a| == 0 then true
    else a[0] < b[0] || (a[0] == b[0] && LexLess(a[1..], b[1..]))
  }

  predicate LexLeq(a: bytes, b: bytes) {
    a == b || LexLess(a, b)
  }

  lemma IdRoundTrip(id: ID)
    ensures ParseId(IdBytes(id)) == id
  {
    var b := IdBytes(id);
    assert b[..UINT64_SIZE] == UintToBytes(id.block);
    assert b[UINT64_SIZE..UINT64_SIZE + HASH_SIZE] == id.tx;
    assert b[UINT64_SIZE + HASH_SIZE..] == UintToBytes(id.index);
  }

  /** A topic key is under the prefix of exactly one (variant, position), and gives its record identifier back. */
  lemma TopicKeyRoundTrip(topic: Hash, pos: byte, id: ID, variant: Hash, at: byte)
    ensures ExtractLogrecId(TopicKey(topic, pos, id)) == id
    ensures ScanPrefix(variant, at) <= TopicKey(topic, pos, id) <==> variant == topic && at == pos
  {
    var key := TopicKey(topic, pos, id);
    assert key[HASH_SIZE + POS_SIZE..] == IdBytes(id);
    IdRoundTrip(id);
    if ScanPrefix(variant, at) <= key {
      assert variant == ScanPrefix(variant, at)[..HASH_SIZE] == key[..HASH_SIZE] == topic;
      assert at == ScanPrefix(variant, at)[HASH_SIZE] == key[HASH_SIZE] == pos;
    }
    assert ScanPrefix(topic, pos) == key[..HASH_SIZE + POS_SIZE];
  }

  lemma {:induction false} LexCommonPrefix(p: bytes, a: bytes, b: bytes)
    ensures LexLess(p + a, p + b) <==> LexLess(a, b)
  {
    if |p| == 0 {
      assert p + a == a && p + b == b;
    } else {
      assert (p + a)[1..] == p[1..] + a && (p + b)[1..] == p[1..] + b;
      LexCommonPrefix(p[1..], a, b);
    }
  }

  /** Equally long heads decide first, and tails only when the heads agree. */
  lemma {:induction false} LexHeads(a: bytes, b: bytes, x: bytes, y: bytes)
    requires |a| == |b|
    ensures LexLess(a + x, b + y) <==> LexLess(a, b) || (a == b && LexLess(x, y))
  {
    if |a| == 0 {
      assert a + x == x && b + y == y;
    } else {
      assert (a + x)[1..] == a[1..] + x && (b + y)[1..] == b[1..] + y;
      assert a == [a[0]] + a[1..] && b == [b[0]] + b[1..];
      LexHeads(a[1..], b[1..], x, y);
    }
  }

  /** Byte order of big-endian numbers of one width is numeric order. */
  lemma {:induction false} BigEndianOrder(m: nat, n: nat, k: nat)
    requires m < Pow256(k) && n < Pow256(k)
    ensures LexLess(BigEndian(m, k), BigEndian(n, k)) <==> m < n
  {
    if k > 0 {
      BigEndianOrder(m / 256, n / 256, k - 1);
      LexHeads(BigEndian(m / 256, k - 1), BigEndian(n / 256, k - 1), [m % 256], [n % 256]);
      if m / 256 == n / 256 {
        assert m < n <==> m % 256 < n % 256;
        assert [m % 256][0] == m % 256 && [n % 256][0] == n % 256;
      } else {
        BigEndianRoundTrip(m / 256, k - 1);
        BigEndianRoundTrip(n / 256, k - 1);
        assert m < n <==> m / 256 < n / 256;
      }
    }
  }

  /** Keys under one prefix are ordered by block number first, and the start key cuts at a block number. */
  lemma TopicKeyOrder(topic: Hash, pos: byte, a: ID, b: ID, start: uint64)
    ensures LexLess(TopicKey(topic, pos, a), TopicKey(topic, pos, b)) ==> a.block <= b.block
    ensures a.block < b.block ==> LexLess(TopicKey(topic, pos, a), TopicKey(topic, pos, b))
    ensures LexLeq(ScanPrefix(topic, pos) + UintToBytes(start), TopicKey(topic, pos, a)) <==> start <= a.block
  {
    Pow256Of8();
    var p := ScanPrefix(topic, pos);
    var ta, tb := a.tx + UintToBytes(a.index), b.tx + UintToBytes(b.index);
    assert TopicKey(topic, pos, a) == p + (UintToBytes(a.block) + ta);
    assert TopicKey(topic, pos, b) == p + (UintToBytes(b.block) + tb);
    LexCommonPrefix(p, UintToBytes(a.block) + ta, UintToBytes(b.block) + tb);
    LexHeads(UintToBytes(a.block), UintToBytes(b.block), ta, tb);
    BigEndianOrder(a.block, b.block, UINT64_SIZE);
    assert UintToBytes(a.block) == UintToBytes(b.block) ==> a.block == b.block;
    StartCut(p, start, a.block, ta);
  }

  lemma StartCut(p: bytes, start: uint64, block: uint64, tail: bytes)
    requires |tail| > 0
    ensures LexLeq(p + UintToBytes(start), p + (UintToBytes(block) + tail)) <==> start <= block
  {
    Pow256Of8();
    var s, k := UintToBytes(start), UintToBytes(block) + tail;
    assert |p + s| < |p + k|;
    assert s + [] == s;
    LexCommonPrefix(p, s, k);
    LexHeads(s, UintToBytes(block), [], tail);
    BigEndianOrder(start, block, UINT64_SIZE);
    if s == UintToBytes(block) {
      assert start == FromBigEndian(s) == block;
    }
  }
}
