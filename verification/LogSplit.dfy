/** The thread-pool search: the widest position is searched piece by piece, as many variants at a time as the
    pool has threads for (topicsdb/thread_pool.go). */
module LogSplit {
  import opened Collections
  import opened LogKeys
  import opened LogIndex
  import opened LogSearch
  import opened LogPattern

  function Flatten<T>(pieces: seq<seq<T>>): seq<T> {
    if |pieces| == 0 then [] else Flatten(pieces[..|pieces| - 1]) + pieces[|pieces| - 1]
  }

  lemma {:induction false} ReplaceSlots(pattern: Pattern, p: nat, hs: seq<Hash>)
    requires p < |pattern|
    ensures |Slots(pattern[p := hs])| == |Slots(pattern)| - |pattern[p]| + |hs|
  {
    var n := |pattern| - 1;
    if p < n {
      ReplaceSlots(pattern[..n], p, hs);
      assert pattern[p := hs][..n] == pattern[..n][p := hs];
    } else {
      assert pattern[p := hs][..n] == pattern[..n];
    }
  }

  /** The first of the widest positions, and the number of threads all the others need. */
  method Widest(pattern: Pattern) returns (splitby: nat, parallels: nat)
    requires |pattern| > 0
    ensures splitby < |pattern| && parallels == |Slots(pattern)| - |pattern[splitby]|
    ensures forall p :: 0 <= p < |pattern| ==> |pattern[p]| <= |pattern[splitby]|
    ensures forall p :: 0 <= p < splitby ==> |pattern[p]| < |pattern[splitby]|
  {
    splitby, parallels := 0, 0;
    assert pattern[..0] == [];
    for i := 0 to |pattern|
      invariant splitby < |pattern| && (splitby <= i - 1 || splitby == 0)
      invariant parallels == |Slots(pattern[..i])|
      invariant forall p :: 0 <= p < i ==> |pattern[p]| <= |pattern[splitby]|
      invariant forall p :: 0 <= p < splitby ==> |pattern[p]| < |pattern[splitby]|
    {
      assert pattern[..i + 1][..i] == pattern[..i] && pattern[..i + 1][i] == pattern[i];
      parallels := parallels + |pattern[i]|;
      if |pattern[splitby]| < |pattern[i]| {
        splitby := i;
      }
    }
    assert pattern[..|pattern|] == pattern;
    SlotsHold(pattern, splitby);
    parallels := parallels - |pattern[splitby]|;
  }

  lemma {:induction false} SlotsHold(pattern: Pattern, p: nat)
    requires p < |pattern|
    ensures |pattern[p]| <= |Slots(pattern)|
  {
    if p < |pattern| - 1 { SlotsHold(pattern[..|pattern| - 1], p); }
  }

  /** How often the pool had a thread to spare beyond what the other positions need. */
  function Spare(left: seq<nat>, parallels: int): nat {
    if |left| == 0 then 0
    else Spare(left[..|left| - 1], parallels) + (if left[|left| - 1] > parallels then 1 else 0)
  }

  lemma FlattenMore<T>(pieces: seq<seq<T>>, piece: seq<T>)
    ensures Flatten(pieces + [piece]) == Flatten(pieces) + piece
  {
    assert (pieces + [piece])[..|pieces|] == pieces;
  }

  lemma SpareMore(left: seq<nat>, round: nat, parallels: int)
    requires round < |left|
    ensures Spare(left[..round + 1], parallels) == Spare(left[..round], parallels) + (if left[round] > parallels then 1 else 0)
  {
    assert left[..round + 1][..round] == left[..round];
  }

  /** As many variants as there are threads for, the other positions taken care of. */
  method TakePiece(pattern: Pattern, splitby: nat, parallels: nat, rest: seq<Hash>, left: nat)
    returns (piece: seq<Hash>, after: seq<Hash>, got: nat)
    requires splitby < |pattern| && parallels == |Slots(pattern)| - |pattern[splitby]|
    requires rest != [] && left > parallels
    ensures piece != [] && rest == piece + after
    ensures got <= left && got == |Slots(pattern[splitby := piece])|
    ensures after == [] || got == left
  {
    var want := parallels + |rest|;
    got := if left < want then left else want;
    piece, after := rest[..got - parallels], rest[got - parallels..];
    ReplaceSlots(pattern, splitby, piece);
  }

  /** The pieces searched one after another. `left` lists how many threads the pool had left at each request;
      the search gives up, as on a cancelled context, when it ends. Each search uses just the threads it was given. */
  method Split(pattern: Pattern, cap: nat, left: seq<nat>)
    returns (tooBigTopics: bool, splitby: nat, pieces: seq<seq<Hash>>, rest: seq<Hash>, granted: seq<nat>)
    requires !AllEmpty(pattern)
    ensures splitby < |pattern| && Flatten(pieces) + rest == pattern[splitby]
    ensures tooBigTopics <==> |Slots(pattern)| - |pattern[splitby]| >= cap
    ensures tooBigTopics ==> pieces == []
    ensures |granted| == |pieces| && |pieces| <= |left|
    ensures forall k :: 0 <= k < |pieces| ==> pieces[k] != [] && |Slots(pattern[splitby := pieces[k]])| == granted[k]
    ensures !tooBigTopics && Spare(left, |Slots(pattern)| - |pattern[splitby]|) >= |pattern[splitby]| ==> rest == []
  {
    hide Flatten, Spare, Slots, AllEmpty;
    var parallels: nat;
    PatternNotEmpty(pattern);
    splitby, parallels := Widest(pattern);
    rest, pieces, granted, tooBigTopics := pattern[splitby], [], [], false;
    NothingYet(left, parallels);
    if parallels >= cap {
      tooBigTopics := true;
      return;
    }
    SlotsHold(pattern, splitby);
    var round := 0;
    while |rest| > 0 && round < |left|
      invariant 0 <= round <= |left| && |granted| == |pieces| <= round
      invariant Flatten(pieces) + rest == pattern[splitby]
      invariant |pieces| == Spare(left[..round], parallels) && |pieces| + |rest| <= |pattern[splitby]|
      invariant forall k :: 0 <= k < |pieces| ==> pieces[k] != [] && |Slots(pattern[splitby := pieces[k]])| == granted[k]
      decreases |left| - round
    {
      if left[round] > parallels {
        var piece, after, got := TakePiece(pattern, splitby, parallels, rest, left[round]);
        FlattenMore(pieces, piece);
        assert Flatten(pieces) + rest == Flatten(pieces) + piece + after;
        pieces, granted, rest := pieces + [piece], granted + [got], after;
      }
      SpareMore(left, round, parallels);
      round := round + 1;
    }
    assert left[..|left|] == left;
  }

  lemma PatternNotEmpty(pattern: Pattern)
    requires !AllEmpty(pattern)
    ensures |pattern| > 0
  {
  }

  lemma NothingYet(left: seq<nat>, parallels: nat)
    ensures Flatten<Hash>([]) == [] && Spare(left[..0], parallels) == 0
  {
  }

  /** A matching log matches with exactly one piece of the split position in place. */
  lemma MatchesPiece(l: Log, pattern: Pattern, p: nat, piece: seq<Hash>, from: uint64, to: uint64)
    requires p < |pattern| && piece != [] && (forall h :: h in piece ==> h in pattern[p])
    ensures Matches(l, pattern[p := piece], from, to) <==>
      Matches(l, pattern, from, to) && Accepts(l, p, piece)
  {
    var q := pattern[p := piece];
    assert forall i :: 0 <= i < |pattern| && i != p ==> q[i] == pattern[i];
    if Matches(l, q, from, to) {
      assert q[p] != [];
      forall i | 0 <= i < |pattern| && pattern[i] != [] ensures Accepts(l, i, pattern[i]) {
        assert q[i] != [];
      }
    }
    if Matches(l, pattern, from, to) && Accepts(l, p, piece) {
      forall i | 0 <= i < |q| && q[i] != [] ensures Accepts(l, i, q[i]) {
        assert i != p ==> pattern[i] != [];
      }
    }
  }

  /** Searching the pieces of one position and joining the answers is searching the whole position. */
  lemma {:induction false} PiecesAnswer(logs: Contents, pattern: Pattern, p: nat, pieces: seq<seq<Hash>>,
                                        answers: seq<seq<ID>>, from: uint64, to: uint64)
    requires p < |pattern| && |answers| == |pieces| > 0
    requires Distinct(Flatten(pieces)) && forall h :: h in Flatten(pieces) ==> h in pattern[p]
    requires forall k :: 0 <= k < |pieces| ==>
      pieces[k] != [] && IsAnswer(answers[k], logs, pattern[p := pieces[k]], from, to)
    ensures IsAnswer(Flatten(answers), logs, pattern[p := Flatten(pieces)], from, to)
  {
    var n := |pieces| - 1;
    var all, front, last := Flatten(pieces), Flatten(pieces[..n]), pieces[n];
    assert all == front + last;
    assert forall h :: h in all <==> h in front || h in last;
    assert Distinct(front) by { assert forall i :: 0 <= i < |front| ==> front[i] == all[i]; }
    if n > 0 {
      PiecesAnswer(logs, pattern, p, pieces[..n], answers[..n], from, to);
      assert front == Flatten(pieces[..n - 1]) + pieces[n - 1] by {
        assert pieces[..n][..n - 1] == pieces[..n - 1];
      }
      JoinAnswers(logs, pattern, p, front, last, Flatten(answers[..n]), answers[n], from, to);
    } else {
      assert front == [] && all == last && Flatten(answers[..0]) == [] && Flatten(answers) == answers[0];
    }
  }

  lemma JoinAnswers(logs: Contents, pattern: Pattern, p: nat, front: seq<Hash>, last: seq<Hash>,
                    a: seq<ID>, b: seq<ID>, from: uint64, to: uint64)
    requires p < |pattern| && front != [] && last != []
    requires Distinct(front + last) && forall h :: h in front + last ==> h in pattern[p]
    requires IsAnswer(a, logs, pattern[p := front], from, to)
    requires IsAnswer(b, logs, pattern[p := last], from, to)
    ensures IsAnswer(a + b, logs, pattern[p := front + last], from, to)
  {
    assert forall h :: h in front ==> h in front + last;
    assert forall h :: h in last ==> h in front + last;
    assert forall h :: h in front ==> h !in last by {
      forall h | h in front ensures h !in last {
        var i :| 0 <= i < |front| && front[i] == h;
        assert (front + last)[i] == h;
        assert forall j :: 0 <= j < |last| ==> (front + last)[|front| + j] == last[j];
      }
    }
    forall id ensures id in a + b <==> id in logs && Matches(logs[id], pattern[p := front + last], from, to)
    {
      InEitherPiece(logs, pattern, p, front, last, a, b, from, to, id);
    }
    forall id | id in a ensures id !in b {
      InEitherPiece(logs, pattern, p, front, last, a, b, from, to, id);
    }
    DistinctJoin(a, b);
  }

  lemma DistinctJoin(a: seq<ID>, b: seq<ID>)
    requires Distinct(a) && Distinct(b) && forall id :: id in a ==> id !in b
    ensures Distinct(a + b)
  {
    var ab := a + b;
    forall i, j | 0 <= i < j < |ab| ensures ab[i] != ab[j] {
      if i < |a| <= j {
        assert ab[i] in a && ab[j] == b[j - |a|];
      }
    }
  }

  lemma AcceptsOne(l: Log, p: nat, front: seq<Hash>, last: seq<Hash>)
    requires forall h :: h in front ==> h !in last
    ensures Accepts(l, p, front + last) <==> Accepts(l, p, front) || Accepts(l, p, last)
    ensures !(Accepts(l, p, front) && Accepts(l, p, last))
  {
    hide Stands;
    if Accepts(l, p, front) && Accepts(l, p, last) {
      var g :| g in front && Stands(l, p, g);
      var h :| h in last && Stands(l, p, h);
      StandsOnce(l, p, g, h);
    }
  }

  lemma StandsOnce(l: Log, p: nat, g: Hash, h: Hash)
    requires Stands(l, p, g) && Stands(l, p, h)
    ensures g == h
  {
    if p == 0 {
      assert g == g[..12] + g[12..] && h == h[..12] + h[12..] && g[..12] == h[..12];
    }
  }

  lemma InEitherPiece(logs: Contents, pattern: Pattern, p: nat, front: seq<Hash>, last: seq<Hash>,
                      a: seq<ID>, b: seq<ID>, from: uint64, to: uint64, id: ID)
    requires p < |pattern| && front != [] && last != []
    requires forall h :: h in front || h in last ==> h in pattern[p]
    requires forall h :: h in front ==> h !in last
    requires IsAnswer(a, logs, pattern[p := front], from, to)
    requires IsAnswer(b, logs, pattern[p := last], from, to)
    ensures id in a || id in b <==> id in logs && Matches(logs[id], pattern[p := front + last], from, to)
    ensures !(id in a && id in b)
  {
    hide Distinct;
    if id in logs {
      var l := logs[id];
      MatchesPiece(l, pattern, p, front, from, to);
      MatchesPiece(l, pattern, p, last, from, to);
      MatchesPiece(l, pattern, p, front + last, from, to);
      AcceptsOne(l, p, front, last);
      hide Matches, Accepts;
    }
  }

  /** The thread-pool search finds what the plain search finds, each log once. */
  lemma SplitIsFilter(logs: Contents, pattern: Pattern, splitby: nat, pieces: seq<seq<Hash>>,
                      answers: seq<seq<ID>>, from: uint64, to: uint64)
    requires splitby < |pattern| && pattern[splitby] != [] && Unique(pattern)
    requires Flatten(pieces) == pattern[splitby] && |answers| == |pieces|
    requires forall k :: 0 <= k < |pieces| ==>
      pieces[k] != [] && IsAnswer(answers[k], logs, pattern[splitby := pieces[k]], from, to)
    ensures IsAnswer(Flatten(answers), logs, pattern, from, to)
  {
    PiecesAnswer(logs, pattern, splitby, pieces, answers, from, to);
    assert pattern[splitby := pattern[splitby]] == pattern;
  }

  /** The answers of some finished searches. */
  ghost function Delivered(runs: seq<seq<State>>): (answers: seq<seq<ID>>)
    requires forall k :: 0 <= k < |runs| ==> runs[k] != []
    ensures |answers| == |runs| && forall k :: 0 <= k < |runs| ==> answers[k] == runs[k][|runs[k]| - 1].delivered
  {
    if runs == [] then [] else Delivered(runs[..|runs| - 1]) + [runs[|runs| - 1][|runs[|runs| - 1]| - 1].delivered]
  }

  /** From the caller's pattern to the logs delivered by the searches for the pieces of its widest position, whatever the
      interleaving of each. */
  lemma SplitRequestIsAnswered(cs: seq<Config>, runs: seq<seq<State>>, topic: map<bytes, byte>, logrec: map<bytes, bytes>,
                               logs: Contents, pattern: Pattern, limited: Pattern, splitby: nat, pieces: seq<seq<Hash>>,
                               from: uint64, to: uint64)
    requires Represents(topic, logrec, logs) && IsLimited(pattern, limited)
    requires splitby < |limited| && limited[splitby] != [] && Flatten(pieces) == limited[splitby]
    requires |cs| == |runs| == |pieces|
    requires forall k :: 0 <= k < |pieces| ==> pieces[k] != [] && IsSearch(cs[k], topic, limited[splitby := pieces[k]], from, to)
    requires forall k :: 0 <= k < |pieces| ==> IsRun(cs[k], runs[k]) && runs[k][|runs[k]| - 1].barrier.threads == 0
    ensures (forall k :: 0 <= k < |runs| ==> runs[k] != [])
    ensures IsAnswer(Flatten(Delivered(runs)), logs, FirstPositions(pattern), from, to)
  {
    hide Represents, IsSearch, IsAnswer;
    forall k | 0 <= k < |pieces|
      ensures runs[k] != [] && IsAnswer(runs[k][|runs[k]| - 1].delivered, logs, limited[splitby := pieces[k]], from, to)
    {
      PieceUnique(limited, splitby, pieces, k);
      assert limited[splitby := pieces[k]][splitby] != [];
      SearchIsFilter(cs[k], runs[k], topic, logrec, logs, limited[splitby := pieces[k]], from, to);
    }
    SplitIsFilter(logs, limited, splitby, pieces, Delivered(runs), from, to);
    LimitedAnswer(Flatten(Delivered(runs)), logs, pattern, limited, from, to);
  }

  /** A piece of a position repeats no hash. */
  lemma {:induction false} PieceUnique(pattern: Pattern, p: nat, pieces: seq<seq<Hash>>, k: nat)
    requires Unique(pattern) && p < |pattern| && Flatten(pieces) == pattern[p] && k < |pieces|
    ensures Unique(pattern[p := pieces[k]])
  {
    PieceDistinct(pieces, k);
  }

  lemma {:induction false} PieceDistinct(pieces: seq<seq<Hash>>, k: nat)
    requires Distinct(Flatten(pieces)) && k < |pieces|
    ensures Distinct(pieces[k])
  {
    var n := |pieces| - 1;
    var all := Flatten(pieces[..n]) + pieces[n];
    if k == n {
      assert forall i :: 0 <= i < |pieces[n]| ==> all[|Flatten(pieces[..n])| + i] == pieces[n][i];
    } else {
      assert forall i :: 0 <= i < |Flatten(pieces[..n])| ==> all[i] == Flatten(pieces[..n])[i];
      PieceDistinct(pieces[..n], k);
    }
  }
}
