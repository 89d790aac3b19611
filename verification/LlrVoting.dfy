/** Long-range voting on block and epoch records: weights, quorum, decided results and the lowest open indices
    (gossip/c_llr_callbacks.go, gossip/store_llr_epoch.go, gossip/store_llr_state.go). */
module LlrVoting {
  import opened LogKeys
  import opened VoteStore

  // ---------- validator groups ----------

  function Sum(ws: seq<uint32>): nat {
    if |ws| == 0 then 0 else Sum(ws[..|ws| - 1]) + ws[|ws| - 1]
  }

  /** The weight of the validators of `ws` whose index is in `s`. */
  function SumIn(ws: seq<uint32>, s: set<nat>): nat {
    if |ws| == 0 then 0
    else SumIn(ws[..|ws| - 1], s) + (if |ws| - 1 in s then ws[|ws| - 1] else 0)
  }

  /** Validator ids with their weights; the total fits the weight type. */
  datatype Group_ = Group(ids: seq<nat>, weights: seq<uint32>) {
    predicate Valid() {
      && |ids| == |weights| && Sum(weights) < 0x1_0000_0000
      && (forall i, j :: 0 <= i < j < |ids| ==> ids[i] != ids[j])
    }

    function Total(): nat {
      Sum(weights)
    }

    function Quorum(): nat {
      Total() / 3 + 1
    }
  }

  type Group = g: Group_ | g.Valid() witness Group([], [])

  /** Where a validator is in its group. */
  ghost function IndexIn(g: Group, vid: nat): (i: nat)
    requires vid in g.ids
    ensures i < |g.weights| && g.ids[i] == vid
  {
    var i :| 0 <= i < |g.ids| && g.ids[i] == vid;
    i
  }

  function Positions(g: Group, vids: set<nat>): set<nat> {
    set i | 0 <= i < |g.ids| && g.ids[i] in vids
  }

  function WeightOf(g: Group, vids: set<nat>): nat {
    SumIn(g.weights, Positions(g, vids))
  }

  lemma {:induction false} SumInAtMost(ws: seq<uint32>, s: set<nat>)
    ensures SumIn(ws, s) <= Sum(ws)
    ensures forall i :: 0 <= i < |ws| ==> ws[i] <= Sum(ws)
  {
    if |ws| > 0 { SumInAtMost(ws[..|ws| - 1], s); }
  }

  lemma {:induction false} SumInAdd(ws: seq<uint32>, s: set<nat>, i: nat)
    requires i < |ws| && i !in s
    ensures SumIn(ws, s + {i}) == SumIn(ws, s) + ws[i]
  {
    var n := |ws| - 1;
    if i < n {
      SumInAdd(ws[..n], s, i);
    } else {
      SumInSame(ws[..n], s, s + {i});
    }
  }

  lemma {:induction false} SumInSame(ws: seq<uint32>, s: set<nat>, t: set<nat>)
    requires forall i: nat :: i < |ws| ==> (i in s <==> i in t)
    ensures SumIn(ws, s) == SumIn(ws, t)
  {
    if |ws| > 0 { SumInSame(ws[..|ws| - 1], s, t); }
  }

  lemma {:induction false} SumInMonotone(ws: seq<uint32>, s: set<nat>, t: set<nat>)
    requires forall i: nat :: i < |ws| && i in s ==> i in t
    ensures SumIn(ws, s) <= SumIn(ws, t)
  {
    if |ws| > 0 { SumInMonotone(ws[..|ws| - 1], s, t); }
  }

  /** All members together weigh the total. */
  lemma WholeWeight(g: Group)
    ensures WeightOf(g, set vid | vid in g.ids) == g.Total()
  {
    SumInAll(g.weights, Positions(g, set vid | vid in g.ids));
  }

  lemma {:induction false} SumInAll(ws: seq<uint32>, s: set<nat>)
    requires forall i: nat :: i < |ws| ==> i in s
    ensures SumIn(ws, s) == Sum(ws)
  {
    if |ws| > 0 { SumInAll(ws[..|ws| - 1], s); }
  }

  /** No coalition of at most a third of the weight holds a quorum: someone outside it voted too. */
  lemma QuorumNeedsOutsiders(g: Group, voters: set<nat>, coalition: set<nat>)
    requires WeightOf(g, voters) >= g.Quorum()
    requires WeightOf(g, coalition) <= g.Total() / 3
    ensures exists vid :: vid in g.ids && vid in voters && vid !in coalition
  {
    if forall vid :: vid in g.ids && vid in voters ==> vid in coalition {
      SumInMonotone(g.weights, Positions(g, voters), Positions(g, coalition));
    }
  }

  // ---------- one tally ----------

  /** The indices in a bitmap. */
  function Bits(voters: bytes): set<nat> {
    set i | 0 <= i < |voters| * 8 && Has(voters, i)
  }

  /** A tally is right for a group if the validators that voted are members, the bitmap has just their places in the
      group, and the weight is theirs. */
  predicate Right(t: Tally, g: Group, voted: set<nat>) {
    && (forall vid :: vid in voted ==> vid in g.ids)
    && Bits(t.voters) == Positions(g, voted) && t.weight == WeightOf(g, voted)
  }

  lemma PutBits(s: bytes, i: nat)
    requires i < |s| * 8
    ensures Bits(Put(s, i)) == Bits(s) + {i}
  {
    hide Has, Put;
    forall j: nat | j < |s| * 8 ensures Has(Put(s, i), j) <==> i == j || Has(s, j) {
      PutHas(s, i, j);
    }
  }

  lemma HasBits(s: bytes, i: nat)
    requires i < |s| * 8
    ensures Has(s, i) <==> i in Bits(s)
  {
    hide Has;
  }

  lemma NoVotesRight(g: Group, num: nat)
    ensures Right(Tally(0, NewBitmap(num)), g, {})
  {
    hide Has;
    assert Bits(NewBitmap(num)) == {} && Positions(g, {}) == {};
    SumInNone(g.weights);
  }

  lemma {:induction false} SumInNone(ws: seq<uint32>)
    ensures SumIn(ws, {}) == 0
  {
    if |ws| > 0 { SumInNone(ws[..|ws| - 1]); }
  }

  lemma PositionsAdd(g: Group, vids: set<nat>, vid: nat)
    ensures vid in g.ids ==> Positions(g, vids + {vid}) == Positions(g, vids) + {IndexIn(g, vid)}
    ensures vid in g.ids && vid !in vids ==>
      WeightOf(g, vids + {vid}) == WeightOf(g, vids) + g.weights[IndexIn(g, vid)]
  {
    hide WeightOf, SumIn;
    if vid in g.ids {
      var i := IndexIn(g, vid);
      assert Positions(g, vids + {vid}) == Positions(g, vids) + {i};
      if vid !in vids { WeightMore(g, vids, vid, i); }
    }
  }

  lemma WeightMore(g: Group, vids: set<nat>, vid: nat, i: nat)
    requires i < |g.weights| && i !in Positions(g, vids) && Positions(g, vids + {vid}) == Positions(g, vids) + {i}
    ensures WeightOf(g, vids + {vid}) == WeightOf(g, vids) + g.weights[i]
  {
    SumInAdd(g.weights, Positions(g, vids), i);
  }

  /** The validator has the same index and the same weight in both groups. */
  ghost predicate Agree(s: Group, g: Group, vid: nat) {
    && vid in s.ids && vid in g.ids && IndexIn(g, vid) == IndexIn(s, vid)
    && g.weights[IndexIn(g, vid)] == s.weights[IndexIn(s, vid)]
  }

  /** When a vote may be counted with the index and the weight that its signer has in group `s`: the first one if the
      groups agree on the signer, another one if the bit is set already. */
  ghost predicate GoodVote(t: Tally, voted: set<nat>, s: Group, g: Group, vid: nat)
    requires vid in s.ids && IndexIn(s, vid) < |t.voters| * 8
  {
    if vid in voted then Has(t.voters, IndexIn(s, vid)) else Agree(s, g, vid)
  }

  /** A tally stays right for its group, whatever group the vote was weighed by, if and only if the vote was a good one. */
  lemma CountedRight(t: Tally, voted: set<nat>, s: Group, g: Group, vid: nat)
    requires Right(t, g, voted) && vid in s.ids && IndexIn(s, vid) < |t.voters| * 8
    ensures var i := IndexIn(s, vid);
      Right(CountOne(t, i, s.weights[i]), g, voted + {vid}) <==> GoodVote(t, voted, s, g, vid)
  {
    hide Has, Put, Bits, WeightOf, IndexIn;
    var i := IndexIn(s, vid);
    HasBits(t.voters, i);
    PutBits(t.voters, i);
    PositionsAdd(g, voted, vid);
    WeightsFit(g, voted + {vid});
    if vid in voted {
      assert voted + {vid} == voted;
    } else if vid in g.ids {
      PositionsHave(g, voted, vid, i);
      WrapSame(t.weight, s.weights[i], g.weights[IndexIn(g, vid)]);
    }
  }

  /** An index that is already taken belongs to a validator that voted. */
  lemma PositionsHave(g: Group, voted: set<nat>, vid: nat, i: nat)
    requires vid in g.ids && vid !in voted
    ensures i in Positions(g, voted) ==> i != IndexIn(g, vid)
  {
  }

  lemma WeightsFit(g: Group, vids: set<nat>)
    ensures WeightOf(g, vids) < 0x1_0000_0000
  {
    SumInAtMost(g.weights, Positions(g, vids));
  }

  lemma WrapSame(w: uint32, a: uint32, b: uint32)
    ensures w + b < 0x1_0000_0000 ==> (Wrap(w + a) == w + b <==> a == b)
  {
  }

  // ---------- the lowest open index ----------

  /** The next index to decide or fill: past `upd` and all that exist, if `upd` is the current one. */
  ghost predicate IsActualized(current: nat, upd: nat, decided: set<nat>, r: nat) {
    if current != upd then r == current
    else r > current && r !in decided && forall i :: current < i < r ==> i in decided
  }

  function AtLeast(s: set<nat>, n: nat): set<nat> {
    set i | i in s && i >= n
  }

  method ActualizeLowestIndex(current: nat, upd: nat, decided: set<nat>) returns (r: nat)
    ensures IsActualized(current, upd, decided, r)
  {
    r := current;
    if current == upd {
      r := r + 1;
      while r in decided
        invariant r > current && forall i :: current < i < r ==> i in decided
        decreases AtLeast(decided, r)
      {
        assert AtLeast(decided, r + 1) < AtLeast(decided, r) by {
          assert r in AtLeast(decided, r) && r !in AtLeast(decided, r + 1);
        }
        r := r + 1;
      }
    }
  }

  /** Everything from the first open index up to the lowest one is there, and that one is not. */
  ghost predicate LowestOk(first: nat, lowest: nat, present: set<nat>) {
    && first <= lowest && lowest !in present
    && forall i :: first <= i < lowest ==> i in present
  }

  lemma LowestActualized(first: nat, lowest: nat, present: set<nat>, upd: nat, r: nat)
    requires LowestOk(first, lowest, present) && IsActualized(lowest, upd, present + {upd}, r)
    ensures LowestOk(first, r, present + {upd})
  {
  }

  // ---------- decisions ----------

  /** The group whose validators vote for an epoch's records. */
  type Groups = map<nat, Group>

  /** The tallies, and who voted for each key. */
  datatype Book = Book(view: map<Key, Tally>, voted: map<Key, set<nat>>)

  /** Epoch votes are told apart by epoch, block votes by block. */
  function IndexOf(byBlock: bool, k: Key): nat {
    if byBlock then k.block else k.epoch
  }

  function VotedFor(b: Book, k: Key): set<nat> {
    if k in b.voted then b.voted[k] else {}
  }

  /** The book after one vote, weighed by group `s`. */
  ghost function WithVote(b: Book, k: Key, s: Group, vid: nat): Book
    requires vid in s.ids && Room(b.view, k, IndexIn(s, vid))
  {
    var i := IndexIn(s, vid);
    Book(Counted(b.view, k, i, |s.weights|, s.weights[i]), b.voted[k := VotedFor(b, k) + {vid}])
  }

  predicate RightAt(b: Book, g: Group, k: Key) {
    k in b.view && k in b.voted && Right(b.view[k], g, b.voted[k])
  }

  /** A key whose voters weigh at least a third plus one. */
  predicate Wins(b: Book, groups: Groups, k: Key) {
    k in b.view && k.epoch in groups && b.view[k].weight >= groups[k.epoch].Quorum()
  }

  ghost predicate HasWinner(byBlock: bool, b: Book, groups: Groups, i: nat, h: Hash) {
    exists k :: Wins(b, groups, k) && IndexOf(byBlock, k) == i && k.v == h
  }

  /** Exactly the indices with a winning key are decided, each for a winner of its. */
  ghost predicate ResultsOk(byBlock: bool, b: Book, groups: Groups, results: map<nat, Hash>) {
    && (forall k :: Wins(b, groups, k) ==> IndexOf(byBlock, k) in results)
    && (forall i :: i in results ==> HasWinner(byBlock, b, groups, i, results[i]))
  }

  /** Every tally is right for the group of its epoch. */
  ghost predicate AllRight(b: Book, groups: Groups) {
    forall k :: k in b.view ==> k.epoch in groups && RightAt(b, groups[k.epoch], k)
  }

  function Decide(byBlock: bool, results: map<nat, Hash>, k: Key, won: bool): map<nat, Hash> {
    if won && IndexOf(byBlock, k) !in results then results[IndexOf(byBlock, k) := k.v] else results
  }

  lemma NoDecision(byBlock: bool, results: map<nat, Hash>, k: Key)
    ensures Decide(byBlock, results, k, false) == results
  {
  }

  /** A vote touches no key but its own, whose weight does not fall as long as the weights fit. */
  lemma WithVoteIs(b: Book, k: Key, s: Group, vid: nat)
    requires vid in s.ids && Room(b.view, k, IndexIn(s, vid))
    ensures var b' := WithVote(b, k, s, vid);
      && k in b'.view && b'.view.Keys == b.view.Keys + {k}
      && forall x :: x != k ==>
        (x in b'.view <==> x in b.view) && (x in b.view ==> b'.view[x] == b.view[x])
        && (x in b'.voted <==> x in b.voted) && (x in b.voted ==> b'.voted[x] == b.voted[x])
  {
    hide CountOne, TallyOf;
  }

  /** The tally of the key voted for stays right, or starts right, if and only if the vote is a good one. */
  lemma RightVote(b: Book, k: Key, s: Group, g: Group, vid: nat)
    requires vid in s.ids && Room(b.view, k, IndexIn(s, vid)) && b.view.Keys == b.voted.Keys
    requires k in b.view ==> RightAt(b, g, k)
    ensures RightAt(WithVote(b, k, s, vid), g, k) <==>
      GoodVote(TallyOf(b.view, k, |s.weights|), VotedFor(b, k), s, g, vid)
  {
    hide Has, Right, CountOne, GoodVote, NewBitmap;
    NoVotesRight(g, |s.weights|);
    CountedRight(TallyOf(b.view, k, |s.weights|), VotedFor(b, k), s, g, vid);
  }

  /** One on whose signer the groups agree is always a good one. */
  lemma SameVote(b: Book, k: Key, s: Group, g: Group, vid: nat)
    requires vid in s.ids && Room(b.view, k, IndexIn(s, vid)) && b.view.Keys == b.voted.Keys
    requires k in b.view ==> RightAt(b, g, k)
    requires Agree(s, g, vid)
    ensures GoodVote(TallyOf(b.view, k, |s.weights|), VotedFor(b, k), s, g, vid)
  {
    hide Has, WeightOf;
    if vid in VotedFor(b, k) {
      HasBits(b.view[k].voters, IndexIn(s, vid));
    }
  }

  /** Whether a vote is decided on as the voters' weight in the group of the epoch asks. */
  ghost predicate GoodQuorum(byBlock: bool, b: Book, results: map<nat, Hash>, k: Key, s: Group, g: Group)
    requires k in b.view
  {
    IndexOf(byBlock, k) in results || (b.view[k].weight >= s.Quorum() <==> b.view[k].weight >= g.Quorum())
  }

  /** A vote and its decision keep tallies and results right if and only if the vote is a good one and both groups' quorums
      give the same answer where it matters. */
  lemma VoteStep(byBlock: bool, b: Book, groups: Groups, results: map<nat, Hash>, k: Key, s: Group, vid: nat)
    requires AllRight(b, groups) && ResultsOk(byBlock, b, groups, results) && b.view.Keys == b.voted.Keys
    requires k.epoch in groups && vid in s.ids && Room(b.view, k, IndexIn(s, vid))
    ensures var b' := WithVote(b, k, s, vid);
      var results' := Decide(byBlock, results, k, b'.view[k].weight >= s.Quorum());
      AllRight(b', groups) && ResultsOk(byBlock, b', groups, results') <==>
      && GoodVote(TallyOf(b.view, k, |s.weights|), VotedFor(b, k), s, groups[k.epoch], vid)
      && GoodQuorum(byBlock, b', results, k, s, groups[k.epoch])
  {
    hide WithVote, GoodVote, TallyOf, ResultsOk, Wins, Right, Room, Decide, GoodQuorum;
    var b' := WithVote(b, k, s, vid);
    WithVoteIs(b, k, s, vid);
    RightVote(b, k, s, groups[k.epoch], vid);
    OthersRight(b, b', groups, k);
    if RightAt(b', groups[k.epoch], k) {
      WeightKept(b, k, s, groups[k.epoch], vid);
      ResultsStep(byBlock, b, b', groups, results, k, s);
    }
  }

  lemma OthersRight(b: Book, b': Book, groups: Groups, k: Key)
    requires AllRight(b, groups) && k.epoch in groups && b'.view.Keys == b.view.Keys + {k}
    requires forall x :: x != k && x in b.view ==> b'.view[x] == b.view[x]
    requires forall x :: x != k && x in b.voted ==> x in b'.voted && b'.voted[x] == b.voted[x]
    ensures AllRight(b', groups) <==> RightAt(b', groups[k.epoch], k)
  {
    hide Right;
    forall x | x in b.view && x != k ensures RightAt(b', groups[x.epoch], x) {
      assert RightAt(b, groups[x.epoch], x);
    }
  }

  /** With right tallies a key's weight does not fall. */
  lemma WeightKept(b: Book, k: Key, s: Group, g: Group, vid: nat)
    requires vid in s.ids && Room(b.view, k, IndexIn(s, vid))
    requires k in b.view ==> RightAt(b, g, k)
    requires RightAt(WithVote(b, k, s, vid), g, k)
    ensures k in b.view ==> b.view[k].weight <= WithVote(b, k, s, vid).view[k].weight
  {
    hide Bits, CountOne, TallyOf;
    if k in b.view {
      SumInMonotone(g.weights, Positions(g, b.voted[k]), Positions(g, b.voted[k] + {vid}));
    }
  }

  lemma ResultsStep(byBlock: bool, b: Book, b': Book, groups: Groups, results: map<nat, Hash>, k: Key, s: Group)
    requires ResultsOk(byBlock, b, groups, results) && k.epoch in groups && b'.view.Keys == b.view.Keys + {k}
    requires forall x :: x != k && x in b.view ==> b'.view[x] == b.view[x]
    requires k in b.view ==> b.view[k].weight <= b'.view[k].weight
    ensures var results' := Decide(byBlock, results, k, b'.view[k].weight >= s.Quorum());
      ResultsOk(byBlock, b', groups, results') <==> GoodQuorum(byBlock, b', results, k, s, groups[k.epoch])
  {
    hide ResultsOk, Wins;
    WinsStep(b, b', groups, k);
    ResultsSame(byBlock, b, b', groups, results, k);
    ResultsMore(byBlock, b, b', groups, results, k);
  }

  /** Deciding nothing is right just when there is nothing new to decide. */
  lemma ResultsSame(byBlock: bool, b: Book, b': Book, groups: Groups, results: map<nat, Hash>, k: Key)
    requires ResultsOk(byBlock, b, groups, results)
    requires forall x :: Wins(b, groups, x) ==> Wins(b', groups, x)
    requires forall x :: x != k && Wins(b', groups, x) ==> Wins(b, groups, x)
    ensures ResultsOk(byBlock, b', groups, results) <==> (Wins(b', groups, k) ==> IndexOf(byBlock, k) in results)
  {
    hide Wins, IndexOf, HasWinner;
    forall i | i in results ensures HasWinner(byBlock, b', groups, i, results[i]) {
      WinnerKept(byBlock, b, b', groups, i, results[i]);
    }
  }

  /** Deciding an open index is right just when its key wins. */
  lemma ResultsMore(byBlock: bool, b: Book, b': Book, groups: Groups, results: map<nat, Hash>, k: Key)
    requires ResultsOk(byBlock, b, groups, results)
    requires forall x :: Wins(b, groups, x) ==> Wins(b', groups, x)
    requires forall x :: x != k && Wins(b', groups, x) ==> Wins(b, groups, x)
    ensures IndexOf(byBlock, k) !in results ==>
      (ResultsOk(byBlock, b', groups, results[IndexOf(byBlock, k) := k.v]) <==> Wins(b', groups, k))
  {
    hide Wins, IndexOf, HasWinner;
    var i := IndexOf(byBlock, k);
    if i !in results {
      forall j | j in results ensures HasWinner(byBlock, b', groups, j, results[j]) {
        WinnerKept(byBlock, b, b', groups, j, results[j]);
      }
      if Wins(b', groups, k) {
        WinnerIs(byBlock, b', groups, k);
      } else if HasWinner(byBlock, b', groups, i, k.v) {
        NoOtherWinner(byBlock, b, b', groups, results, k);
      } else {
        assert results[i := k.v][i] == k.v;
      }
    }
  }

  lemma WinnerIs(byBlock: bool, b: Book, groups: Groups, k: Key)
    requires Wins(b, groups, k)
    ensures HasWinner(byBlock, b, groups, IndexOf(byBlock, k), k.v)
  {
    hide Wins;
  }

  lemma WinsStep(b: Book, b': Book, groups: Groups, k: Key)
    requires b'.view.Keys == b.view.Keys + {k} && k.epoch in groups
    requires forall x :: x != k && x in b.view ==> b'.view[x] == b.view[x]
    requires k in b.view ==> b.view[k].weight <= b'.view[k].weight
    ensures forall x :: Wins(b, groups, x) ==> Wins(b', groups, x)
    ensures forall x :: x != k && Wins(b', groups, x) ==> Wins(b, groups, x)
    ensures Wins(b', groups, k) <==> b'.view[k].weight >= groups[k.epoch].Quorum()
  {
  }

  lemma WinnerKept(byBlock: bool, b: Book, b': Book, groups: Groups, i: nat, h: Hash)
    requires HasWinner(byBlock, b, groups, i, h)
    requires forall x :: Wins(b, groups, x) ==> Wins(b', groups, x)
    ensures HasWinner(byBlock, b', groups, i, h)
  {
    hide Wins;
    var x :| Wins(b, groups, x) && IndexOf(byBlock, x) == i && x.v == h;
    assert Wins(b', groups, x);
  }

  lemma NoOtherWinner(byBlock: bool, b: Book, b': Book, groups: Groups, results: map<nat, Hash>, k: Key)
    requires ResultsOk(byBlock, b, groups, results) && IndexOf(byBlock, k) !in results
    requires forall x :: x != k && Wins(b', groups, x) ==> Wins(b, groups, x)
    requires HasWinner(byBlock, b', groups, IndexOf(byBlock, k), k.v)
    ensures Wins(b', groups, k)
  {
    hide Wins;
    var x :| Wins(b', groups, x) && IndexOf(byBlock, x) == IndexOf(byBlock, k) && x.v == k.v;
  }

  /** Each tally's bitmap has room for the group of its epoch. */
  predicate Roomy(view: map<Key, Tally>, groups: Groups) {
    forall k :: k in view && k.epoch in groups ==> |groups[k.epoch].weights| <= |view[k].voters| * 8
  }

  lemma RoomyStep(b: Book, groups: Groups, k: Key, vid: nat)
    requires Roomy(b.view, groups) && k.epoch in groups && vid in groups[k.epoch].ids
    ensures Room(b.view, k, IndexIn(groups[k.epoch], vid))
    ensures Roomy(WithVote(b, k, groups[k.epoch], vid).view, groups)
  {
    hide Has;
  }

  /** Learning of more groups changes nothing for the tallies there are. */
  lemma MoreGroups(byBlock: bool, b: Book, groups: Groups, more: Groups, results: map<nat, Hash>)
    requires AllRight(b, groups) && ResultsOk(byBlock, b, groups, results)
    requires forall e :: e in groups ==> e in more && more[e] == groups[e]
    ensures AllRight(b, more) && ResultsOk(byBlock, b, more, results)
  {
    hide Right;
    forall k ensures Wins(b, more, k) <==> Wins(b, groups, k) {
      assert k in b.view ==> RightAt(b, groups[k.epoch], k);
    }
    hide Wins;
    forall i | i in results ensures HasWinner(byBlock, b, more, i, results[i]) {
      WinnerKept(byBlock, b, b, groups, i, results[i]) by { assert HasWinner(byBlock, b, groups, i, results[i]); }
      SameWinner(byBlock, b, groups, more, i, results[i]);
    }
  }

  lemma SameWinner(byBlock: bool, b: Book, groups: Groups, more: Groups, i: nat, h: Hash)
    requires HasWinner(byBlock, b, groups, i, h) && forall k :: Wins(b, groups, k) ==> Wins(b, more, k)
    ensures HasWinner(byBlock, b, more, i, h)
  {
    hide Wins;
    var x :| Wins(b, groups, x) && IndexOf(byBlock, x) == i && x.v == h;
    assert Wins(b, more, x);
  }

  /** A decided index was voted for by members of the group of its epoch that weigh at least a third plus one, so by no
      coalition of a third alone. */
  lemma DecidedByVoters(byBlock: bool, b: Book, groups: Groups, results: map<nat, Hash>, i: nat, coalition: set<nat>)
    returns (k: Key)
    requires AllRight(b, groups) && ResultsOk(byBlock, b, groups, results) && i in results
    ensures IndexOf(byBlock, k) == i && k.v == results[i] && k.epoch in groups && k in b.voted
    ensures var g, voters := groups[k.epoch], b.voted[k];
      && (forall vid :: vid in voters ==> vid in g.ids)
      && WeightOf(g, voters) >= g.Total() / 3 + 1
      && (WeightOf(g, coalition) <= g.Total() / 3 ==> exists vid :: vid in voters && vid !in coalition)
  {
    hide WeightOf, Bits;
    assert HasWinner(byBlock, b, groups, i, results[i]);
    k :| Wins(b, groups, k) && IndexOf(byBlock, k) == i && k.v == results[i];
    assert RightAt(b, groups[k.epoch], k);
    if WeightOf(groups[k.epoch], coalition) <= groups[k.epoch].Total() / 3 {
      QuorumNeedsOutsiders(groups[k.epoch], b.voted[k], coalition);
    }
  }

  /** The voters of a key weigh more than a third of what all members weigh. */
  ghost predicate AboveThird(g: Group, voters: set<nat>) {
    3 * WeightOf(g, voters) > WeightOf(g, set vid | vid in g.ids)
  }

  ghost predicate VotedAboveThird(b: Book, groups: Groups, k: Key) {
    k in b.voted && k.epoch in groups && AboveThird(groups[k.epoch], b.voted[k])
  }

  /** An index is decided just when a key of it has voters above a third. */
  lemma DecidedIff(byBlock: bool, b: Book, groups: Groups, results: map<nat, Hash>, i: nat)
    requires AllRight(b, groups) && ResultsOk(byBlock, b, groups, results) && b.view.Keys == b.voted.Keys
    ensures i in results <==> exists k :: IndexOf(byBlock, k) == i && VotedAboveThird(b, groups, k)
  {
    hide Bits, WeightOf;
    forall k | k in b.voted ensures Wins(b, groups, k) <==> VotedAboveThird(b, groups, k) {
      assert RightAt(b, groups[k.epoch], k);
      WholeWeight(groups[k.epoch]);
    }
    hide Wins, VotedAboveThird;
    if i in results {
      assert HasWinner(byBlock, b, groups, i, results[i]);
      var k :| Wins(b, groups, k) && IndexOf(byBlock, k) == i && k.v == results[i];
      WinnerVoted(b, groups, k);
    }
    if k :| IndexOf(byBlock, k) == i && VotedAboveThird(b, groups, k) {
      ThirdVoted(b, groups, k);
    }
  }

  lemma ThirdVoted(b: Book, groups: Groups, k: Key)
    requires VotedAboveThird(b, groups, k)
    ensures k in b.voted
  {
  }

  lemma WinnerVoted(b: Book, groups: Groups, k: Key)
    requires Wins(b, groups, k) && b.view.Keys == b.voted.Keys
    ensures k in b.voted
  {
  }

  // ---------- the votes of one event ----------

  /** Among votes for consecutive blocks from `start` on. */
  predicate IsVoted(k: Key, start: nat, epoch: nat, vs: seq<Hash>) {
    k.epoch == epoch && start <= k.block < start + |vs| && k.v == vs[k.block - start]
  }

  ghost predicate AllRoom(view: map<Key, Tally>, start: nat, epoch: nat, vs: seq<Hash>, i: nat) {
    forall k :: IsVoted(k, start, epoch, vs) ==> Room(view, k, i)
  }

  predicate SameAt(b: Book, b': Book, k: Key) {
    && (k in b'.view <==> k in b.view) && (k in b.view ==> b'.view[k] == b.view[k])
    && (k in b'.voted <==> k in b.voted) && (k in b.voted ==> b'.voted[k] == b.voted[k])
  }

  /** The book after the votes of one event: each counts for its own key. */
  ghost predicate EachVoted(was: Book, start: nat, epoch: nat, vs: seq<Hash>, s: Group, vid: nat, now: Book)
    requires vid in s.ids && AllRoom(was.view, start, epoch, vs, IndexIn(s, vid))
  {
    && (forall k :: IsVoted(k, start, epoch, vs) ==> SameAt(WithVote(was, k, s, vid), now, k))
    && (forall k :: !IsVoted(k, start, epoch, vs) ==> SameAt(was, now, k))
  }

  lemma EachVotedNone(b: Book, start: nat, epoch: nat, s: Group, vid: nat)
    requires vid in s.ids
    ensures AllRoom(b.view, start, epoch, [], IndexIn(s, vid)) && EachVoted(b, start, epoch, [], s, vid, b)
  {
  }

  lemma IsVotedNext(start: nat, epoch: nat, vs: seq<Hash>, n: nat)
    requires n < |vs|
    ensures forall k :: IsVoted(k, start, epoch, vs[..n + 1]) <==>
      IsVoted(k, start, epoch, vs[..n]) || k == Key(start + n, epoch, vs[n])
    ensures !IsVoted(Key(start + n, epoch, vs[n]), start, epoch, vs[..n])
    ensures IsVoted(Key(start + n, epoch, vs[n]), start, epoch, vs)
  {
  }

  lemma RoomNext(was: Book, start: nat, epoch: nat, vs: seq<Hash>, n: nat, s: Group, vid: nat, mid: Book)
    requires n < |vs| && vid in s.ids && AllRoom(was.view, start, epoch, vs, IndexIn(s, vid))
    requires AllRoom(was.view, start, epoch, vs[..n], IndexIn(s, vid)) && EachVoted(was, start, epoch, vs[..n], s, vid, mid)
    ensures AllRoom(was.view, start, epoch, vs[..n + 1], IndexIn(s, vid))
    ensures var k := Key(start + n, epoch, vs[n]); SameAt(was, mid, k) && Room(mid.view, k, IndexIn(s, vid))
  {
    hide WithVote, IndexIn, IsVoted;
    IsVotedNext(start, epoch, vs, n);
    VotedOfMore(start, epoch, vs, n);
    assert Room(was.view, Key(start + n, epoch, vs[n]), IndexIn(s, vid));
  }

  lemma VotedOfMore(start: nat, epoch: nat, vs: seq<Hash>, n: nat)
    requires n < |vs|
    ensures forall k :: IsVoted(k, start, epoch, vs[..n + 1]) ==> IsVoted(k, start, epoch, vs)
  {
  }

  lemma EachVotedNext(was: Book, start: nat, epoch: nat, vs: seq<Hash>, n: nat, s: Group, vid: nat, mid: Book)
    requires n < |vs| && vid in s.ids && AllRoom(was.view, start, epoch, vs[..n], IndexIn(s, vid))
    requires AllRoom(was.view, start, epoch, vs[..n + 1], IndexIn(s, vid))
    requires EachVoted(was, start, epoch, vs[..n], s, vid, mid)
    requires var k := Key(start + n, epoch, vs[n]); SameAt(was, mid, k) && Room(mid.view, k, IndexIn(s, vid))
    ensures EachVoted(was, start, epoch, vs[..n + 1], s, vid, WithVote(mid, Key(start + n, epoch, vs[n]), s, vid))
  {
    hide WithVote, IndexIn, IsVoted, Room;
    var k := Key(start + n, epoch, vs[n]);
    IsVotedNext(start, epoch, vs, n);
    WithVoteIs(mid, k, s, vid);
    WithVoteSame(was, mid, k, s, vid);
    var now := WithVote(mid, k, s, vid);
    forall x ensures IsVoted(x, start, epoch, vs[..n + 1]) ==> SameAt(WithVote(was, x, s, vid), now, x)
      ensures !IsVoted(x, start, epoch, vs[..n + 1]) ==> SameAt(was, now, x)
    {
      if x != k {
        assert SameAt(mid, now, x);
        if !IsVoted(x, start, epoch, vs[..n]) { SameTwice(was, mid, now, x); }
      }
    }
  }

  lemma SameTwice(b: Book, mid: Book, now: Book, k: Key)
    requires SameAt(b, mid, k) && SameAt(mid, now, k)
    ensures SameAt(b, now, k)
  {
  }

  lemma WithVoteSame(one: Book, other: Book, k: Key, s: Group, vid: nat)
    requires vid in s.ids && Room(one.view, k, IndexIn(s, vid)) && Room(other.view, k, IndexIn(s, vid))
    requires SameAt(one, other, k)
    ensures SameAt(WithVote(one, k, s, vid), WithVote(other, k, s, vid), k)
  {
    hide CountOne;
  }

  /** Every tally of an epoch is right for a group. */
  ghost predicate EpochRight(b: Book, epoch: nat, g: Group) {
    forall k :: k in b.view && k.epoch == epoch ==> RightAt(b, g, k)
  }

  /** The votes of an event, weighed by whatever group, keep the tallies of their epoch right for its group if and only if
      each of them is a good one. */
  lemma EachRight(was: Book, start: nat, epoch: nat, vs: seq<Hash>, s: Group, g: Group, vid: nat, now: Book)
    requires vid in s.ids && AllRoom(was.view, start, epoch, vs, IndexIn(s, vid)) && was.view.Keys == was.voted.Keys
    requires EachVoted(was, start, epoch, vs, s, vid, now) && EpochRight(was, epoch, g)
    ensures EpochRight(now, epoch, g) <==> forall k :: IsVoted(k, start, epoch, vs) ==>
      GoodVote(TallyOf(was.view, k, |s.weights|), VotedFor(was, k), s, g, vid)
  {
    hide Right, GoodVote, TallyOf, WithVote;
    forall k: Key | k.epoch == epoch && (k in now.view || IsVoted(k, start, epoch, vs))
      ensures IsVoted(k, start, epoch, vs) ==> k in now.view
      ensures IsVoted(k, start, epoch, vs) ==>
        (RightAt(now, g, k) <==> GoodVote(TallyOf(was.view, k, |s.weights|), VotedFor(was, k), s, g, vid))
      ensures !IsVoted(k, start, epoch, vs) ==> RightAt(now, g, k)
    {
      if IsVoted(k, start, epoch, vs) {
        WithVoteIs(was, k, s, vid);
        RightVote(was, k, s, g, vid);
      }
    }
  }

  /** In particular, the first votes of a validator do so if and only if the groups agree on its index and weight. */
  lemma FirstVotes(was: Book, start: nat, epoch: nat, vs: seq<Hash>, s: Group, g: Group, vid: nat, now: Book)
    requires vid in s.ids && AllRoom(was.view, start, epoch, vs, IndexIn(s, vid)) && was.view.Keys == was.voted.Keys
    requires EachVoted(was, start, epoch, vs, s, vid, now) && EpochRight(was, epoch, g) && vs != []
    requires forall k :: IsVoted(k, start, epoch, vs) ==> vid !in VotedFor(was, k)
    ensures EpochRight(now, epoch, g) <==> Agree(s, g, vid)
  {
    hide EpochRight, Agree, EachVoted, TallyOf, WithVote;
    EachRight(was, start, epoch, vs, s, g, vid, now);
    assert IsVoted(Key(start, epoch, vs[0]), start, epoch, vs);
  }

  /** Decided results stay, and new ones are votes for the indices from `start` on. */
  ghost predicate OnlyDecides(was: map<nat, Hash>, now: map<nat, Hash>, start: nat, votes: seq<Hash>) {
    && (forall i :: i in was ==> i in now && now[i] == was[i])
    && (forall i :: i in now && i !in was ==> start <= i < start + |votes| && now[i] == votes[i - start])
  }

  lemma DecidesNothing(was: map<nat, Hash>, start: nat, votes: seq<Hash>)
    ensures OnlyDecides(was, was, start, votes)
  {
  }

  lemma DecidesMore(first: map<nat, Hash>, was: map<nat, Hash>, now: map<nat, Hash>, start: nat, votes: seq<Hash>, n: nat)
    requires n < |votes| && OnlyDecides(first, was, start, votes[..n])
    requires now == was || (start + n !in was && now == was[start + n := votes[n]])
    ensures OnlyDecides(first, now, start, votes[..n + 1])
  {
  }

  lemma DecideBlock(was: map<nat, Hash>, k: Key, won: bool)
    ensures var now := Decide(true, was, k, won); now == was || (k.block !in was && now == was[k.block := k.v])
  {
  }

  /** The groups agree on the signer, and have the same quorum. */
  ghost predicate Alike(s: Group, g: Group, vid: nat) {
    Agree(s, g, vid) && s.Quorum() == g.Quorum()
  }

  /** Then counting the vote keeps tallies and results right. */
  lemma AlikeKeeps(byBlock: bool, b: Book, groups: Groups, results: map<nat, Hash>, k: Key, s: Group, vid: nat)
    requires AllRight(b, groups) && ResultsOk(byBlock, b, groups, results) && b.view.Keys == b.voted.Keys
    requires k.epoch in groups && vid in s.ids && Room(b.view, k, IndexIn(s, vid)) && Alike(s, groups[k.epoch], vid)
    ensures var b' := WithVote(b, k, s, vid);
      && k in b'.view && AllRight(b', groups)
      && ResultsOk(byBlock, b', groups, Decide(byBlock, results, k, b'.view[k].weight >= s.Quorum()))
  {
    hide RightAt, WithVote, GoodVote, TallyOf, ResultsOk, Room, Decide;
    WithVoteIs(b, k, s, vid);
    SameVote(b, k, s, groups[k.epoch], vid) by { assert k in b.view ==> RightAt(b, groups[k.epoch], k); }
    VoteStep(byBlock, b, groups, results, k, s, vid);
  }

  /** The votes on one kind of record. */
  class Ballot {
    const byBlock: bool
    const votes: Votes
    var results: map<nat, Hash>
    var lowestToDecide: nat
    /** The first index that was open, and who voted for each key. */
    ghost const first: nat
    ghost var voted: map<Key, set<nat>>

    ghost predicate Valid()
      reads this, votes
      ensures Valid() ==> votes.Valid() && votes.View().Keys == voted.Keys
    {
      && votes.Valid() && votes.View().Keys == voted.Keys
      && LowestOk(first, lowestToDecide, results.Keys)
    }

    ghost function Now(): (b: Book)
      requires votes.Valid()
      reads this`voted, votes
      ensures b.view == votes.View() && b.voted == voted
    {
      Book(votes.View(), voted)
    }

    /** Every tally is right for the group of its epoch, and so is what was decided. */
    ghost predicate Sound(groups: Groups)
      requires votes.Valid()
      reads this`voted, this`results, votes
    {
      AllRight(Now(), groups) && ResultsOk(byBlock, Now(), groups, results)
    }

    constructor (byBlock: bool, first: nat)
      ensures Valid() && fresh(votes) && forall groups :: Sound(groups)
      ensures results == map[] && lowestToDecide == first && this.byBlock == byBlock && this.first == first
      ensures Now() == Book(map[], map[])
    {
      this.byBlock := byBlock;
      this.first := first;
      votes := new Votes();
      results, lowestToDecide, voted := map[], first, map[];
    }

    /** processBlockVote and processRawEpochVote: counts one vote, and decides on a quorum of the group it is weighed by. */
    method Process(k: Key, i: nat, s: Group, ghost vid: nat, onRead: set<Key>, onWrite: set<Key>)
      requires Valid() && vid in s.ids && i == IndexIn(s, vid) && Room(votes.View(), k, i)
      modifies this, votes
      ensures Valid() && lowestToDecide >= old(lowestToDecide)
      ensures Now() == WithVote(old(Now()), k, s, vid) && k in votes.View()
      ensures results == Decide(byBlock, old(results), k, votes.View()[k].weight >= s.Quorum())
    {
      hide LowestOk, Room, VoteStore.Counted, Decide, Votes.Valid, Votes.View, IndexIn;
      WithVoteIs(Now(), k, s, vid);
      var newWeight := votes.AddVoteWeight(k, i, |s.weights|, s.weights[i], onRead, onWrite);
      voted := voted[k := VotedFor(Now(), k) + {vid}];
      NoDecision(byBlock, results, k);
      if newWeight >= s.Quorum() {
        RecordWinner(k);
      }
    }

    /** A block's vote: it decides at most its block, and only for its own hash. */
    method ProcessBlock(k: Key, i: nat, s: Group, ghost vid: nat, ghost groups: Groups, onRead: set<Key>, onWrite: set<Key>)
      requires Valid() && byBlock && vid in s.ids && i == IndexIn(s, vid) && Room(votes.View(), k, i)
      modifies this, votes
      ensures Valid() && lowestToDecide >= old(lowestToDecide)
      ensures Now() == WithVote(old(Now()), k, s, vid)
      ensures results == old(results) || (k.block !in old(results) && results == old(results)[k.block := k.v])
      ensures old(Sound(groups)) && k.epoch in groups && Alike(s, groups[k.epoch], vid) ==> Sound(groups)
    {
      hide LowestOk, AllRight, ResultsOk, Votes.Valid, Votes.View, Decide, WithVote, Alike, Room, IndexIn;
      ghost var b, was := Now(), results;
      Process(k, i, s, vid, onRead, onWrite);
      DecideBlock(was, k, votes.View()[k].weight >= s.Quorum());
      if old(Sound(groups)) && k.epoch in groups && Alike(s, groups[k.epoch], vid) {
        AlikeKeeps(byBlock, b, groups, was, k, s, vid);
      }
    }

    /** The votes of one event for consecutive blocks, one after another, all weighed by the signer's group. */
    method ProcessEach(start: nat, epoch: nat, vs: seq<Hash>, i: nat, s: Group, ghost vid: nat, ghost groups: Groups,
                       onRead: set<Key>, onWrite: set<Key>)
      requires Valid() && byBlock && vid in s.ids && i == IndexIn(s, vid) && AllRoom(votes.View(), start, epoch, vs, i)
      modifies this, votes
      ensures Valid() && lowestToDecide >= old(lowestToDecide)
      ensures EachVoted(old(Now()), start, epoch, vs, s, vid, Now())
      ensures OnlyDecides(old(results), results, start, vs)
      ensures old(Sound(groups)) && epoch in groups && Alike(s, groups[epoch], vid) ==> Sound(groups)
    {
      hide *;
      DecidesNothing(results, start, vs[..0]);
      EachVotedNone(Now(), start, epoch, s, vid);
      assert vs[..0] == [];
      for n := 0 to |vs|
        invariant Valid() && lowestToDecide >= old(lowestToDecide) && votes.Valid()
        invariant AllRoom(old(Now()).view, start, epoch, vs[..n], i)
        invariant EachVoted(old(Now()), start, epoch, vs[..n], s, vid, Now())
        invariant OnlyDecides(old(results), results, start, vs[..n])
        invariant old(Sound(groups)) && epoch in groups && Alike(s, groups[epoch], vid) ==> Sound(groups)
      {
        ghost var was := results;
        RoomNext(old(Now()), start, epoch, vs, n, s, vid, Now());
        EachVotedNext(old(Now()), start, epoch, vs, n, s, vid, Now());
        ProcessBlock(Key(start + n, epoch, vs[n]), i, s, vid, groups, onRead, onWrite);
        DecidesMore(old(results), was, results, start, vs, n);
      }
      assert vs[..|vs|] == vs;
    }

    /** The first winner of an index becomes its result; a later, different one is only logged. */
    method RecordWinner(k: Key)
      requires LowestOk(first, lowestToDecide, results.Keys)
      modifies this`results, this`lowestToDecide
      ensures results == Decide(byBlock, old(results), k, true)
      ensures LowestOk(first, lowestToDecide, results.Keys)
      ensures lowestToDecide >= old(lowestToDecide)
    {
      var i := IndexOf(byBlock, k);
      if i !in results {
        ghost var lowest, was := lowestToDecide, results.Keys;
        results := results[i := k.v];
        assert results.Keys == was + {i};
        lowestToDecide := ActualizeLowestIndex(lowestToDecide, i, results.Keys);
        LowestActualized(first, lowest, was, i, lowestToDecide);
      }
    }
  }
}
