/** The memoised lookup of ancestor hashes (evmcore/evm.go, GetHashFn). */
module HashFns {
  import opened Collections

  const UINT64: nat := 0x1_0000_0000_0000_0000

  const ZERO: nat := 0

  /** Hashes are numbers. */
  datatype Header = Header(number: nat, parent: nat)

  /** A header by its hash and its number, if the chain has it. */
  type Chain = (nat, nat) -> Option<Header>

  /** A header found under a number has that number, and no block has the number before 0. */
  ghost predicate WellFormed(chain: Chain) {
    forall h: nat, n: nat :: chain(h, n).Some? ==> chain(h, n).value.number == n < UINT64 - 1
  }

  /** The difference of two 64-bit numbers. */
  function Minus(a: nat, b: nat): nat
    requires a < UINT64 && b <= UINT64
  {
    if a >= b then a - b else UINT64 + a - b
  }

  /** The hash of the block `k + 1` before `head`, found by walking the parent links. */
  function Ancestor(chain: Chain, head: Header, k: nat): Option<nat>
    requires k <= head.number
  {
    if k == 0 then Some(head.parent)
    else
      match Ancestor(chain, head, k - 1)
      case None => None
      case Some(h) =>
        match chain(h, head.number - k)
        case None => None
        case Some(header) => Some(header.parent)
  }

  /** Once a link is missing, everything beyond it is. */
  lemma {:induction false} AncestorGone(chain: Chain, head: Header, j: nat, k: nat)
    requires j <= k <= head.number && Ancestor(chain, head, j) == None
    ensures Ancestor(chain, head, k) == None
    decreases k
  {
    if j < k { AncestorGone(chain, head, j, k - 1); }
  }

  /** What walking the parent links to a block number gives; the zero hash if a header is missing or the block is not
      an ancestor. The number before 0 stands for the parent of the first block. */
  function Walk(chain: Chain, head: Header, n: nat): nat
    requires head.number < UINT64 && n < UINT64
  {
    var k := Minus(Minus(head.number, n), 1);
    if k > head.number then ZERO
    else match Ancestor(chain, head, k) case None => ZERO case Some(h) => h
  }

  /** For the numbers below the head's this is its ancestor of that number; other numbers give nothing. */
  lemma WalkIs(chain: Chain, head: Header, n: nat)
    requires head.number < UINT64 && n < UINT64
    ensures n < head.number ==>
      Walk(chain, head, n) == match Ancestor(chain, head, head.number - 1 - n) case None => 0 case Some(h) => h
    ensures head.number <= n < UINT64 - 1 ==> Walk(chain, head, n) == 0
  {
  }

  class HashFn {
    const chain: Chain
    const head: Header
    var cache: seq<nat>

    /** The cache holds the hashes of the blocks before the head, in walking order. */
    ghost predicate Valid()
      reads this
    {
      && head.number < UINT64 - 1 && WellFormed(chain) && |cache| <= head.number + 1
      && forall i :: 0 <= i < |cache| ==> Ancestor(chain, head, i) == Some(cache[i])
    }

    constructor (chain: Chain, head: Header)
      requires WellFormed(chain) && head.number < UINT64 - 1
      ensures Valid() && this.chain == chain && this.head == head
    {
      this.chain, this.head, cache := chain, head, [];
    }

    /** Whatever has been asked before, the answer is what the parent links say. */
    method Query(n: nat) returns (hash: nat)
      requires Valid() && n < UINT64
      modifies this`cache
      ensures Valid() && hash == Walk(chain, head, n)
    {
      hide WellFormed, Ancestor, Walk;
      if |cache| == 0 {
        First();
        cache := cache + [head.parent];
      }
      var idx := Minus(Minus(head.number, n), 1);
      if idx < |cache| {
        Known(n, idx);
        return cache[idx];
      }
      var lastHash := cache[|cache| - 1];
      var lastNumber := Minus(head.number, |cache|);
      while true
        invariant Valid() && |cache| > 0 && lastHash == cache[|cache| - 1]
        invariant lastNumber == Minus(head.number, |cache|) && |cache| <= idx
        decreases head.number + 1 - |cache|
      {
        var header := chain(lastHash, lastNumber);
        if header.None? {
          Missing(n, idx);
          break;
        }
        Fetched(header.value);
        cache := cache + [header.value.parent];
        lastHash := header.value.parent;
        lastNumber := Minus(header.value.number, 1);
        if n == lastNumber {
          Known(n, idx);
          return lastHash;
        }
      }
      hash := ZERO;
    }

    lemma First()
      ensures Ancestor(chain, head, 0) == Some(head.parent)
    {
    }

    /** A header found for the last cached hash gives the next hash. */
    lemma Fetched(header: Header)
      requires Valid() && |cache| > 0 && chain(cache[|cache| - 1], Minus(head.number, |cache|)) == Some(header)
      ensures |cache| <= head.number && header.number == head.number - |cache|
      ensures Ancestor(chain, head, |cache|) == Some(header.parent)
    {
      assert Ancestor(chain, head, |cache| - 1) == Some(cache[|cache| - 1]);
    }

    lemma Known(n: nat, idx: nat)
      requires Valid() && n < UINT64 && idx == Minus(Minus(head.number, n), 1) && idx < |cache|
      ensures Walk(chain, head, n) == cache[idx]
    {
    }

    lemma Missing(n: nat, idx: nat)
      requires Valid() && n < UINT64 && idx == Minus(Minus(head.number, n), 1) && 0 < |cache| <= idx
      requires chain(cache[|cache| - 1], Minus(head.number, |cache|)) == None
      ensures Walk(chain, head, n) == ZERO
    {
      if idx <= head.number {
        assert Ancestor(chain, head, |cache|) == None;
        AncestorGone(chain, head, |cache|, idx);
      }
    }
  }
}
