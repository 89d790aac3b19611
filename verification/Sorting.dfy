/** Sorting by a key. The order of elements with equal keys is of no interest. */
module Sorting {

  predicate InOrder<T>(s: seq<T>, key: T -> nat) {
    forall i, j :: 0 <= i < j < |s| ==> key(s[i]) <= key(s[j])
  }

  method SortBy<T>(s: seq<T>, key: T -> nat) returns (sorted: seq<T>)
    ensures InOrder(sorted, key) && multiset(sorted) == multiset(s)
  {
    hide InOrder;
    sorted := [];
    assert s[..0] == [];
    SortedNone(key);
    for i := 0 to |s|
      invariant InOrder(sorted, key) && multiset(sorted) == multiset(s[..i])
    {
      assert s[..i + 1] == s[..i] + [s[i]];
      sorted := InsertSorted(sorted, s[i], key);
    }
    assert s[..|s|] == s;
  }

  method InsertSorted<T>(sorted: seq<T>, x: T, key: T -> nat) returns (more: seq<T>)
    requires InOrder(sorted, key)
    ensures InOrder(more, key) && multiset(more) == multiset(sorted) + multiset{x}
  {
    hide InOrder, Insert;
    var k: nat := |sorted|;
    while k > 0 && key(sorted[k - 1]) > key(x)
      invariant k <= |sorted| && forall i :: k <= i < |sorted| ==> key(x) <= key(sorted[i])
    {
      k := k - 1;
    }
    more := Insert(sorted, k, x);
    InsertOrder(sorted, k, x, key);
    InsertSame(sorted, k, x);
  }

  lemma SortedNone<T>(key: T -> nat)
    ensures InOrder([], key)
  {
  }

  function Insert<T>(s: seq<T>, k: nat, x: T): (more: seq<T>)
    requires k <= |s|
    ensures |more| == |s| + 1
    ensures forall i :: 0 <= i < |more| ==> more[i] == if i < k then s[i] else if i == k then x else s[i - 1]
  {
    s[..k] + [x] + s[k..]
  }

  lemma InsertSame<T>(s: seq<T>, k: nat, x: T)
    requires k <= |s|
    ensures multiset(Insert(s, k, x)) == multiset(s) + multiset{x}
  {
    assert s == s[..k] + s[k..];
  }

  lemma InsertOrder<T>(s: seq<T>, k: nat, x: T, key: T -> nat)
    requires InOrder(s, key) && k <= |s| && (k > 0 ==> key(s[k - 1]) <= key(x))
    requires forall i :: k <= i < |s| ==> key(x) <= key(s[i])
    ensures InOrder(Insert(s, k, x), key)
  {
    var more := Insert(s, k, x);
    forall i, j | 0 <= i < j < |more| ensures key(more[i]) <= key(more[j]) {
      if j < k {
        assert more[i] == s[i] && more[j] == s[j];
      } else if i > k {
        assert more[i] == s[i - 1] && more[j] == s[j - 1];
      } else {
        assert i < k ==> more[i] == s[i] && key(s[i]) <= key(s[k - 1]);
        assert j > k ==> more[j] == s[j - 1] && key(x) <= key(s[j - 1]);
        assert more[k] == x;
      }
    }
  }
}
