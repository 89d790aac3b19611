/** What several parts of the model share about optional values, sequences and sets. */
module Collections {

  datatype Option<T> = None | Some(value: T)

  predicate Distinct<T(==)>(s: seq<T>) {
    forall i, j :: 0 <= i < j < |s| ==> s[i] != s[j]
  }

  function SetOf<T(==)>(s: seq<T>): (r: set<T>)
    ensures s == [] ==> r == {}
  {
    set x | x in s
  }

  /** The numbers below `n`. */
  function Range(n: nat): (r: set<nat>)
    ensures |r| == n && forall i: nat :: i in r <==> i < n
  {
    if n == 0 then {} else Range(n - 1) + {n - 1}
  }

  /** A sequence without one of its elements. */
  lemma MultisetDrop<T>(s: seq<T>, i: nat)
    requires i < |s|
    ensures multiset(s) == multiset(s[..i] + s[i + 1..]) + multiset{s[i]}
  {
    assert s == s[..i] + [s[i]] + s[i + 1..];
  }
}
