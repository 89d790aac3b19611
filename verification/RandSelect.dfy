/** Weighted random selection from an 8-ary sum tree that grows at the root (gossip/randselect.go). */
module RandSelects {
  import opened Collections

  // ---------- the leaves of the tree, in order ----------

  datatype Leaf = Free | Taken(item: nat, weight: nat)

  function WeightOf(l: Leaf): nat {
    if l.Taken? then l.weight else 0
  }

  function Sum(ls: seq<Leaf>): nat {
    if ls == [] then 0 else WeightOf(ls[0]) + Sum(ls[1..])
  }

  function Count(ls: seq<Leaf>): (n: nat)
    ensures n <= |ls|
  {
    if ls == [] then 0 else (if ls[0].Taken? then 1 else 0) + Count(ls[1..])
  }

  function Frees(n: nat): (ls: seq<Leaf>)
    ensures |ls| == n && forall i :: 0 <= i < n ==> ls[i] == Free
  {
    seq(n, _ => Free)
  }

  /** The first free leaf. */
  function FirstFree(ls: seq<Leaf>): (i: nat)
    requires Count(ls) < |ls|
    ensures i < |ls| && ls[i] == Free && forall j :: 0 <= j < i ==> ls[j].Taken?
  {
    if ls[0] == Free then 0 else 1 + FirstFree(ls[1..])
  }

  /** The leaf a number below the sum falls on. */
  function Choice(ls: seq<Leaf>, val: nat): (i: nat)
    requires val < Sum(ls)
    ensures i < |ls| && ls[i].Taken?
  {
    if val < WeightOf(ls[0]) then 0 else 1 + Choice(ls[1..], val - WeightOf(ls[0]))
  }

  lemma {:induction false} SumConcat(a: seq<Leaf>, b: seq<Leaf>)
    ensures Sum(a + b) == Sum(a) + Sum(b) && Count(a + b) == Count(a) + Count(b)
  {
    if a == [] {
      assert a + b == b;
    } else {
      assert (a + b)[1..] == a[1..] + b;
      SumConcat(a[1..], b);
    }
  }

  lemma {:induction false} SumFrees(n: nat)
    ensures Sum(Frees(n)) == 0 && Count(Frees(n)) == 0
  {
    if n > 0 {
      assert Frees(n)[1..] == Frees(n - 1);
      SumFrees(n - 1);
    }
  }

  lemma SumUpdate(ls: seq<Leaf>, i: nat, l: Leaf)
    requires i < |ls|
    ensures Sum(ls[i := l]) == Sum(ls) - WeightOf(ls[i]) + WeightOf(l)
    ensures Count(ls[i := l]) == Count(ls) - (if ls[i].Taken? then 1 else 0) + (if l.Taken? then 1 else 0)
  {
    var a, b := ls[..i], ls[i + 1..];
    assert ls == a + ([ls[i]] + b) && ls[i := l] == a + ([l] + b);
    SumConcat(a, [ls[i]] + b);
    SumConcat(a, [l] + b);
    SumConcat([ls[i]], b);
    SumConcat([l], b);
  }

  /** Each leaf is chosen by exactly its weight many numbers: those from the sum of the leaves before it on. */
  lemma {:induction false} ChoiceIs(ls: seq<Leaf>, val: nat, i: nat)
    requires val < Sum(ls) && i < |ls|
    ensures Choice(ls, val) == i <==> Sum(ls[..i]) <= val < Sum(ls[..i]) + WeightOf(ls[i])
  {
    if i > 0 {
      assert ls[..i][1..] == ls[1..][..i - 1];
      if val >= WeightOf(ls[0]) {
        ChoiceIs(ls[1..], val - WeightOf(ls[0]), i - 1);
      }
    }
  }

  lemma {:induction false} ChoiceConcat(a: seq<Leaf>, b: seq<Leaf>, val: nat)
    requires val < Sum(a) + Sum(b)
    ensures Sum(a + b) == Sum(a) + Sum(b)
    ensures Choice(a + b, val) == if val < Sum(a) then Choice(a, val) else |a| + Choice(b, val - Sum(a))
  {
    hide WeightOf, Count;
    SumConcat(a, b);
    if a == [] {
      assert a + b == b;
    } else {
      var w := WeightOf(a[0]);
      assert (a + b)[0] == a[0] && (a + b)[1..] == a[1..] + b && Sum(a) == w + Sum(a[1..]);
      if val >= w { ChoiceConcat(a[1..], b, val - w); }
    }
  }

  lemma FreeUnique(ls: seq<Leaf>, i: nat)
    requires Count(ls) < |ls| && i < |ls| && ls[i] == Free && forall j :: 0 <= j < i ==> ls[j].Taken?
    ensures FirstFree(ls) == i
  {
    var k := FirstFree(ls);
  }

  /** All leaves are taken just when the count says so. */
  lemma {:induction false} FullIs(ls: seq<Leaf>)
    ensures Count(ls) == |ls| <==> forall i :: 0 <= i < |ls| ==> ls[i].Taken?
  {
    if ls != [] {
      FullIs(ls[1..]);
      if Count(ls) == |ls| {
        forall i | 0 <= i < |ls| ensures ls[i].Taken? {
          assert i > 0 ==> ls[i] == ls[1..][i - 1];
        }
      }
      if forall i :: 0 <= i < |ls| ==> ls[i].Taken? {
        assert ls[0].Taken? && forall i :: 0 <= i < |ls[1..]| ==> ls[1..][i].Taken?;
      }
    }
  }

  // ---------- the leaves below a node, branch by branch ----------

  function Concat(parts: seq<seq<Leaf>>): seq<Leaf> {
    if parts == [] then [] else parts[0] + Concat(parts[1..])
  }

  predicate Even(parts: seq<seq<Leaf>>, size: nat) {
    forall b :: 0 <= b < |parts| ==> |parts[b]| == size
  }

  /** Where a leaf of a branch is among all. */
  lemma {:induction false} ConcatAt(parts: seq<seq<Leaf>>, size: nat, b: nat, i: nat)
    requires Even(parts, size) && b < |parts| && i < size
    ensures |Concat(parts)| == size * |parts| && size * b + i < size * |parts|
    ensures Concat(parts)[size * b + i] == parts[b][i]
  {
    ConcatSize(parts, size);
    assert size * b + i < size * |parts| by {
      assert size * b + size <= size * |parts| by { Monotone(size, b + 1, |parts|); }
    }
    if b > 0 {
      ConcatAt(parts[1..], size, b - 1, i);
      assert size * (b - 1) == size * b - size;
    }
  }

  lemma Monotone(size: nat, a: nat, b: nat)
    requires a <= b
    ensures size * a <= size * b
  {
  }

  lemma {:induction false} ConcatSize(parts: seq<seq<Leaf>>, size: nat)
    requires Even(parts, size)
    ensures |Concat(parts)| == size * |parts|
  {
    if parts != [] {
      ConcatSize(parts[1..], size);
      assert size * |parts| == size + size * (|parts| - 1);
    }
  }

  lemma {:induction false} ConcatSplit(parts: seq<seq<Leaf>>, b: nat)
    requires b < |parts|
    ensures Concat(parts) == Concat(parts[..b]) + parts[b] + Concat(parts[b + 1..])
  {
    if b == 0 {
      assert parts[..0] == [];
    } else {
      ConcatSplit(parts[1..], b - 1);
      assert parts[1..][..b - 1] == parts[..b][1..] && parts[1..][b..] == parts[b + 1..];
    }
  }

  /** Changing a leaf of a branch changes one leaf of all. */
  lemma ConcatUpdate(parts: seq<seq<Leaf>>, size: nat, b: nat, i: nat, l: Leaf)
    requires Even(parts, size) && b < |parts| && i < size
    ensures size * b + i < |Concat(parts)| && Concat(parts)[size * b + i] == parts[b][i]
    ensures Concat(parts[b := parts[b][i := l]]) == Concat(parts)[size * b + i := l]
    ensures Even(parts[b := parts[b][i := l]], size)
  {
    var more := parts[b := parts[b][i := l]];
    ConcatAt(parts, size, b, i);
    ConcatSplit(parts, b);
    ConcatSplit(more, b);
    ConcatSize(parts[..b], size);
    assert more[..b] == parts[..b] && more[b + 1..] == parts[b + 1..];
    assert |Concat(parts[..b])| == size * b;
  }

  lemma {:induction false} ConcatSums(parts: seq<seq<Leaf>>, b: nat)
    requires b < |parts|
    ensures Sum(Concat(parts)) == Sum(Concat(parts[..b])) + Sum(parts[b]) + Sum(Concat(parts[b + 1..]))
    ensures Count(Concat(parts)) == Count(Concat(parts[..b])) + Count(parts[b]) + Count(Concat(parts[b + 1..]))
  {
    ConcatSplit(parts, b);
    SumConcat(Concat(parts[..b]) + parts[b], Concat(parts[b + 1..]));
    SumConcat(Concat(parts[..b]), parts[b]);
  }

  /** With all earlier branches full, the first free leaf is that of the first branch that is not. */
  lemma FirstFreeIn(parts: seq<seq<Leaf>>, size: nat, b: nat)
    requires Even(parts, size) && b < |parts| && Count(parts[b]) < size
    requires forall c :: 0 <= c < b ==> Count(parts[c]) == size
    ensures Count(Concat(parts)) < |Concat(parts)|
    ensures FirstFree(Concat(parts)) == size * b + FirstFree(parts[b])
  {
    hide Concat, Count;
    ConcatSums(parts, b);
    ConcatSplit(parts, b);
    ConcatSize(parts, size);
    ConcatSize(parts[..b], size);
    FullParts(parts[..b], size);
    FullCount(Concat(parts[b + 1..]));
    var i := FirstFree(parts[b]);
    var all, k := Concat(parts), |Concat(parts[..b])| + i;
    assert all[k] == parts[b][i];
    forall j | 0 <= j < k ensures all[j].Taken? {
      if j < |Concat(parts[..b])| {
        assert all[j] == Concat(parts[..b])[j];
      } else {
        assert all[j] == parts[b][j - |Concat(parts[..b])|];
      }
    }
    FreeUnique(all, k);
  }

  lemma FullCount(ls: seq<Leaf>)
    ensures Count(ls) <= |ls|
  {
  }

  lemma {:induction false} FullParts(parts: seq<seq<Leaf>>, size: nat)
    requires Even(parts, size) && forall c :: 0 <= c < |parts| ==> Count(parts[c]) == size
    ensures forall j :: 0 <= j < |Concat(parts)| ==> Concat(parts)[j].Taken?
    ensures Count(Concat(parts)) == |Concat(parts)|
  {
    if parts != [] {
      FullParts(parts[1..], size);
      FullIs(parts[0]);
      SumConcat(parts[0], Concat(parts[1..]));
    }
  }

  // ---------- the nodes ----------

  const BRANCHES: nat := 8

  function Pow8(k: nat): (n: nat)
    ensures n > 0
  {
    if k == 0 then 1 else BRANCHES * Pow8(k - 1)
  }

  datatype Slot = Empty | Item(item: nat) | Sub(node: WrsNode)

  function Reweighed(leaf: Leaf, weight: nat): Leaf
    requires leaf.Taken?
  {
    if weight == 0 then Free else Taken(leaf.item, weight)
  }

  lemma Divide(idx: nat, k: nat)
    requires k > 0 && idx < k * BRANCHES
    ensures idx / k < BRANCHES && idx == k * (idx / k) + (idx - idx / k * k) && 0 <= idx - idx / k * k < k
  {
    var q := idx / k;
    assert idx == k * q + idx % k;
    if q >= BRANCHES { Monotone(k, BRANCHES, q); }
  }

  /** A number falls on the first part or, less its sum, on the others. */
  lemma FallsThrough(parts: seq<seq<Leaf>>, val: nat)
    requires parts != [] && val < Sum(Concat(parts))
    ensures Sum(Concat(parts)) == Sum(parts[0]) + Sum(Concat(parts[1..]))
    ensures Concat(parts)[Choice(Concat(parts), val)] ==
      if val < Sum(parts[0]) then parts[0][Choice(parts[0], val)]
      else Concat(parts[1..])[Choice(Concat(parts[1..]), val - Sum(parts[0]))]
  {
    SumConcat(parts[0], Concat(parts[1..]));
    ChoiceConcat(parts[0], Concat(parts[1..]), val);
  }

  predicate LeafOk(slot: Slot, part: seq<Leaf>) {
    |part| == 1 && slot == match part[0] case Free => Empty case Taken(x, _) => Item(x)
  }

  class WrsNode {
    const level: nat
    const maxItems: nat
    var items: seq<Slot>
    var weights: seq<nat>
    var sumWeight: nat
    var itemCnt: nat
    ghost var parts: seq<seq<Leaf>>
    ghost var Repr: set<object>

    /** Weights and counts are those of the leaves. */
    ghost predicate Summed()
      reads this
    {
      && |items| == |weights| == |parts| == BRANCHES && maxItems == Pow8(level + 1)
      && Even(parts, Pow8(level)) && sumWeight == Sum(Leaves()) && itemCnt == Count(Leaves())
      && (forall b :: 0 <= b < BRANCHES ==> weights[b] == Sum(parts[b]))
    }

    ghost predicate Valid()
      reads this, Repr
      decreases level, 1
    {
      && this in Repr && Summed()
      && (forall b :: 0 <= b < BRANCHES && items[b].Sub? ==> items[b].node in Repr)
      && (forall b :: 0 <= b < BRANCHES ==> BranchOk(b))
      && (forall b, c :: 0 <= b < c < BRANCHES && items[b].Sub? && items[c].Sub? ==> items[b].node.Repr !! items[c].node.Repr)
    }

    /** A branch holds an item or, above the lowest level, a node one level down. */
    ghost predicate BranchOk(b: nat)
      requires b < |items| && |items| == |parts|
      reads this`items, this`parts, this`Repr, Repr - {this}
      decreases level, 0
    {
      match items[b]
      case Empty => parts[b] == Frees(Pow8(level))
      case Item(x) => level == 0 && LeafOk(items[b], parts[b])
      case Sub(n) =>
        && level > 0 && n in Repr && n.level == level - 1 && n.Repr <= Repr && this !in n.Repr && n.Has(parts[b])
    }

    ghost predicate Has(leaves: seq<Leaf>)
      reads this, Repr
      decreases level, 2
    {
      Valid() && Leaves() == leaves
    }

    ghost function Leaves(): seq<Leaf>
      reads this
    {
      Concat(parts)
    }

    /** An empty node. */
    constructor (level: nat, maxItems: nat)
      requires maxItems == Pow8(level + 1)
      ensures Valid() && fresh(Repr) && this.level == level && this.maxItems == maxItems && Leaves() == Frees(maxItems)
    {
      this.level, this.maxItems := level, maxItems;
      items := seq(BRANCHES, _ => Empty);
      weights := seq(BRANCHES, _ => 0);
      sumWeight, itemCnt := 0, 0;
      parts := seq(BRANCHES, _ => Frees(Pow8(level)));
      Repr := {this};
      new;
      ConcatFrees(BRANCHES, Pow8(level));
      SumFrees(Pow8(level));
      SumFrees(maxItems);
    }

    /** A node above another one, which becomes its first branch. */
    constructor Above(root: WrsNode)
      requires root.Valid()
      ensures Valid() && fresh(Repr - root.Repr) && level == root.level + 1 && maxItems == root.maxItems * BRANCHES
      ensures Leaves() == root.Leaves() + Frees(root.maxItems * (BRANCHES - 1))
    {
      hide Valid, Summed, BranchOk, Leaves, Frees;
      level, maxItems := root.level + 1, root.maxItems * BRANCHES;
      items := [Sub(root)] + seq(BRANCHES - 1, _ => Empty);
      weights := [root.sumWeight] + seq(BRANCHES - 1, _ => 0);
      sumWeight, itemCnt := root.sumWeight, root.itemCnt;
      parts := [root.Leaves()] + seq(BRANCHES - 1, _ => Frees(root.maxItems));
      Repr := {this} + root.Repr;
      new;
      root.Sums();
      root.InRepr();
      AboveSummed(root);
      AboveBranches(root);
      JoinedValid();
    }

    /** The sums of a node over an old root and free branches. */
    lemma AboveSummed(root: WrsNode)
      requires root.Valid() && level == root.level + 1 && maxItems == root.maxItems * BRANCHES
      requires parts == [root.Leaves()] + seq(BRANCHES - 1, _ => Frees(root.maxItems))
      requires |items| == BRANCHES && weights == [root.sumWeight] + seq(BRANCHES - 1, _ => 0)
      requires sumWeight == root.sumWeight && itemCnt == root.itemCnt
      ensures Summed() && Leaves() == root.Leaves() + Frees(root.maxItems * (BRANCHES - 1))
    {
      hide Valid;
      root.Sums();
      SumFrees(root.maxItems);
      SumFrees(root.maxItems * (BRANCHES - 1));
      ConcatFrees(BRANCHES - 1, root.maxItems);
      assert parts[1..] == seq(BRANCHES - 1, _ => Frees(root.maxItems));
      SumConcat(root.Leaves(), Frees(root.maxItems * (BRANCHES - 1)));
    }

    lemma AboveBranches(root: WrsNode)
      requires root.Valid() && level == root.level + 1 && root.maxItems == Pow8(level) && this !in root.Repr && root in root.Repr
      requires Repr == {this} + root.Repr && |items| == |parts| == BRANCHES
      requires items == [Sub(root)] + seq(BRANCHES - 1, _ => Empty)
      requires parts == [root.Leaves()] + seq(BRANCHES - 1, _ => Frees(root.maxItems))
      ensures forall c :: 0 <= c < BRANCHES ==> BranchOk(c)
      ensures forall c :: 1 <= c < BRANCHES ==> items[c] == Empty
    {
      hide Valid, Leaves, Frees;
      assert root.Has(parts[0]);
    }

    /** The first branch with room. */
    method FindRoom() returns (branch: nat)
      requires Valid() && itemCnt < maxItems
      ensures branch < BRANCHES && Count(parts[branch]) < Pow8(level)
      ensures forall c :: 0 <= c < branch ==> Count(parts[c]) == Pow8(level)
      ensures items[branch].Empty? || (level > 0 && items[branch].Sub?)
    {
      branch := 0;
      while items[branch] != Empty && (level == 0 || items[branch].node.itemCnt == items[branch].node.maxItems)
        invariant branch < BRANCHES && BranchOk(branch)
        invariant forall c :: 0 <= c < branch ==> Count(parts[c]) == Pow8(level)
        decreases BRANCHES - branch
      {
        BranchCount(branch);
        branch := branch + 1;
        if branch == BRANCHES {
          FullParts(parts, Pow8(level));
          ConcatSize(parts, Pow8(level));
          assert false;
        }
      }
      BranchCount(branch);
    }

    /** Inserts an item at the first free leaf. */
    method Insert(item: nat, weight: nat) returns (idx: nat)
      requires Valid() && itemCnt < maxItems
      modifies Repr
      ensures Valid() && fresh(Repr - old(Repr)) && old(itemCnt) == Count(old(Leaves())) < |old(Leaves())|
      ensures idx == FirstFree(old(Leaves())) && Leaves() == old(Leaves())[idx := Taken(item, weight)]
      decreases level
    {
      hide Frees, Concat, Even, Has, BranchOk, Pow8, Valid;
      Sums();
      SummedIs();
      var branch := FindRoom();
      FirstFreeIn(parts, Pow8(level), branch);
      if level == 0 {
        idx := branch;
        LowestBranch(branch);
        InsertLeaf(branch, item, weight);
        return;
      }
      if items[branch].Empty? {
        AddNode(branch);
        SummedIs();
      }
      var sub := items[branch].node;
      Child(branch);
      var subIdx := InsertBelow(branch, sub, item, weight);
      idx := sub.maxItems * branch + subIdx;
    }

    /** Puts an empty node into an empty branch. */
    method AddNode(b: nat)
      requires Valid() && level > 0 && b < BRANCHES && items[b].Empty?
      modifies this`items, this`Repr
      ensures Valid() && fresh(Repr - old(Repr)) && items[b].Sub?
    {
      assert BranchOk(b);
      ghost var was := items;
      var sub := new WrsNode(level - 1, maxItems / BRANCHES);
      items := items[b := Sub(sub)];
      Repr := Repr + sub.Repr;
      forall c | 0 <= c < BRANCHES
        ensures BranchOk(c) && (c != b && items[c].Sub? ==> items[c].node.Repr !! sub.Repr)
      {
        assert old(BranchOk(c));
        if c != b && items[c].Sub? { assert items[c].node.Repr <= old(Repr); }
      }
    }

    /** Inserts an item below a branch that has room. */
    method InsertBelow(b: nat, sub: WrsNode, item: nat, weight: nat) returns (subIdx: nat)
      requires Valid() && b < BRANCHES && items[b] == Sub(sub) && Count(parts[b]) < |parts[b]|
      modifies Repr
      ensures Valid() && fresh(Repr - old(Repr)) && |old(parts[b])| == Pow8(level) && Count(old(parts[b])) < Pow8(level)
      ensures subIdx == FirstFree(old(parts[b])) && Pow8(level) * b + subIdx < |old(Leaves())|
      ensures Leaves() == old(Leaves())[Pow8(level) * b + subIdx := Taken(item, weight)]
      decreases level, 1
    {
      hide BranchOk, Has, Beside, Even, Frees, Concat, Valid;
      SummedIs();
      Child(b);
      ghost var p := parts[b];
      subIdx := InsertInto(b, sub, item, weight);
      PartUpdate(b, subIdx, Taken(item, weight));
      itemCnt := itemCnt + 1;
      sumWeight := sumWeight + weight;
      weights := weights[b := weights[b] + weight];
      Rejoin(b, sub, p[subIdx := Taken(item, weight)]);
      JoinedValid();
    }

    method InsertInto(b: nat, sub: WrsNode, item: nat, weight: nat) returns (subIdx: nat)
      requires Valid() && b < BRANCHES && items[b] == Sub(sub) && Count(parts[b]) < |parts[b]|
      modifies sub.Repr
      ensures Beside(b) && fresh(sub.Repr - old(sub.Repr)) && subIdx == FirstFree(old(parts[b]))
      ensures sub.Has(old(parts[b])[subIdx := Taken(item, weight)])
      decreases level, 0
    {
      hide Even, Frees, FirstFree, Concat;
      Siblings(b);
      Child(b);
      subIdx := sub.Insert(item, weight);
      forall c | 0 <= c < BRANCHES && c != b ensures BranchOk(c) && (items[c].Sub? ==> items[c].node.Repr !! sub.Repr) {
        assert old(BranchOk(c));
        if items[c].Sub? {
          assert old(items[c].node.Has(parts[c]));
          assert items[c].node.Has(parts[c]);
        }
      }
    }

    /** Changes the weight of an item, or removes it; returns by how much the weight has changed. */
    method SetWeight(idx: nat, weight: nat) returns (diff: int)
      requires Valid() && idx < |Leaves()| && Leaves()[idx].Taken?
      modifies Repr
      ensures Valid() && Repr == old(Repr) && diff == weight - old(Leaves())[idx].weight
      ensures Leaves() == old(Leaves())[idx := Reweighed(old(Leaves())[idx], weight)]
      decreases level
    {
      hide Frees, Concat, Even, Has, BranchOk, Pow8;
      Sums();
      if level == 0 {
        LeafFacts(idx);
        diff := SetLeaf(idx, weight);
        return;
      }
      var branch, rest := Locate(idx);
      diff := SetBelow(branch, items[branch].node, rest, weight);
    }

    /** The branch of a taken leaf, and where it is in that branch. */
    method Locate(idx: nat) returns (branch: nat, rest: nat)
      requires Valid() && level > 0 && idx < |Leaves()| && Leaves()[idx].Taken?
      ensures branch < BRANCHES && items[branch].Sub? && rest < |parts[branch]|
      ensures idx == Pow8(level) * branch + rest && parts[branch][rest] == Leaves()[idx]
    {
      hide Valid, Leaves;
      LowerItems();
      var branchItems := maxItems / BRANCHES;
      branch := idx / branchItems;
      BranchOf(idx, branchItems, branch, idx - branch * branchItems);
      rest := idx - branch * branchItems;
    }

    lemma LowerItems()
      requires Valid() && level > 0
      ensures maxItems / BRANCHES == Pow8(level) > 0
    {
    }

    /** Where a taken leaf is. */
    lemma BranchOf(idx: nat, k: nat, b: nat, i: int)
      requires Valid() && level > 0 && idx < |Leaves()| && Leaves()[idx].Taken?
      requires k == Pow8(level) && b == idx / k && i == idx - b * k
      ensures b < BRANCHES && items[b].Sub? && 0 <= i < |parts[b]| && idx == k * b + i && parts[b][i] == Leaves()[idx]
    {
      hide Frees, Concat, Even, Has, Pow8, BranchOk;
      Sums();
      Divide(idx, k);
      Width(b);
      ConcatAt(parts, k, b, i);
      TakenBranch(b, i);
    }

    lemma LowestBranch(b: nat)
      requires Valid() && level == 0 && b < BRANCHES && Count(parts[b]) < Pow8(level)
      ensures Pow8(level) == 1 && |parts[b]| == 1 && Count(parts[b]) < |parts[b]| && FirstFree(parts[b]) == 0
    {
    }

    lemma Width(b: nat)
      requires Valid() && b < BRANCHES
      ensures |parts| == BRANCHES && |parts[b]| == Pow8(level)
    {
    }

    lemma TakenBranch(b: nat, i: nat)
      requires Valid() && level > 0 && b < BRANCHES && i < |parts[b]| && parts[b][i].Taken?
      ensures items[b].Sub?
    {
      assert BranchOk(b);
    }

    /** Changes a weight below a branch. */
    method SetBelow(b: nat, sub: WrsNode, i: nat, weight: nat) returns (diff: int)
      requires Valid() && b < BRANCHES && items[b] == Sub(sub) && i < |parts[b]| && parts[b][i].Taken?
      modifies Repr
      ensures Valid() && Repr == old(Repr) && diff == weight - old(parts[b])[i].weight
      ensures Pow8(level) * b + i < |old(Leaves())|
      ensures Leaves() == old(Leaves())[Pow8(level) * b + i := Reweighed(old(parts[b])[i], weight)]
      decreases level, 1
    {
      hide BranchOk, Has, Beside, Even, Frees, Concat, Valid;
      SummedIs();
      Child(b);
      ghost var p := parts[b];
      diff := SetInto(b, sub, i, weight);
      PartUpdate(b, i, Reweighed(p[i], weight));
      weights := weights[b := weights[b] + diff];
      sumWeight := sumWeight + diff;
      if weight == 0 {
        itemCnt := itemCnt - 1;
      }
      Rejoin(b, sub, p[i := Reweighed(p[i], weight)]);
      assert Repr == old(Repr);
      JoinedValid();
    }

    lemma JoinedValid()
      requires this in Repr && Summed()
      requires forall c :: 0 <= c < BRANCHES && items[c].Sub? ==> items[c].node in Repr
      requires forall c :: 0 <= c < BRANCHES ==> BranchOk(c)
      requires forall c, d :: 0 <= c < d < BRANCHES && items[c].Sub? && items[d].Sub? ==>
        items[c].node.Repr !! items[d].node.Repr
      ensures Valid()
    {
      hide Summed, BranchOk;
    }

    method SetInto(b: nat, sub: WrsNode, i: nat, weight: nat) returns (diff: int)
      requires Valid() && b < BRANCHES && items[b] == Sub(sub) && i < |parts[b]| && parts[b][i].Taken?
      modifies sub.Repr
      ensures Beside(b) && sub.Repr == old(sub.Repr) && diff == weight - old(parts[b])[i].weight
      ensures sub.Has(old(parts[b])[i := Reweighed(old(parts[b])[i], weight)])
      decreases level, 0
    {
      hide Even, Frees, FirstFree, Concat;
      Siblings(b);
      Child(b);
      diff := sub.SetWeight(i, weight);
      forall c | 0 <= c < BRANCHES && c != b ensures BranchOk(c) && (items[c].Sub? ==> items[c].node.Repr !! sub.Repr) {
        assert old(BranchOk(c));
        if items[c].Sub? {
          assert old(items[c].node.Has(parts[c]));
          assert items[c].node.Has(parts[c]);
        }
      }
    }

    /** Selects the item a number falls on. */
    method Choose(val: nat) returns (item: nat, weight: nat)
      requires Valid() && val < sumWeight
      ensures val < Sum(Leaves()) && Leaves()[Choice(Leaves(), val)] == Taken(item, weight)
      decreases level
    {
      var i, rest := ChooseBranch(val);
      if level == 0 {
        LeafFacts(i);
        return items[i].item, weights[i];
      }
      assert BranchOk(i);
      SumFrees(Pow8(level));
      Child(i);
      item, weight := items[i].node.Choose(rest);
    }

    /** The branch a number falls on, and what is left of the number there. */
    method ChooseBranch(val: nat) returns (i: nat, rest: nat)
      requires Valid() && val < sumWeight
      ensures i < BRANCHES && rest < weights[i] == Sum(parts[i]) && val < Sum(Leaves())
      ensures Leaves()[Choice(Leaves(), val)] == parts[i][Choice(parts[i], rest)]
    {
      hide BranchOk;
      i, rest := 0, val;
      assert parts[..0] == [] && parts[0..] == parts;
      while rest >= weights[i]
        invariant i < BRANCHES && rest < Sum(Concat(parts[i..])) && val < Sum(Leaves())
        invariant Leaves()[Choice(Leaves(), val)] == Concat(parts[i..])[Choice(Concat(parts[i..]), rest)]
        decreases BRANCHES - i
      {
        FallsThrough(parts[i..], rest);
        assert parts[i..][1..] == parts[i + 1..];
        rest := rest - weights[i];
        i := i + 1;
      }
      FallsThrough(parts[i..], rest);
    }

    /** The branches but one are as they should be, and have nothing in common with the node in that one. */
    ghost predicate Beside(b: nat)
      reads this`items, this`parts, this`Repr, Repr - {this}, if b < |items| && items[b].Sub? then {items[b].node} else {}
    {
      && this in Repr && |items| == |parts| == BRANCHES && b < BRANCHES && items[b].Sub?
      && this != items[b].node && this !in items[b].node.Repr && level > 0 && items[b].node.level == level - 1
      && (forall c :: 0 <= c < BRANCHES && items[c].Sub? ==> items[c].node in Repr)
      && (forall c :: 0 <= c < BRANCHES && c != b ==> BranchOk(c))
      && (forall c :: 0 <= c < BRANCHES && c != b && items[c].Sub? ==> items[c].node.Repr !! items[b].node.Repr)
      && (forall c, d :: 0 <= c < d < BRANCHES && c != b && d != b && items[c].Sub? && items[d].Sub? ==>
        items[c].node.Repr !! items[d].node.Repr)
    }

    /** What a changed leaf of a branch means for the sums. */
    lemma PartUpdate(b: nat, i: nat, leaf: Leaf)
      requires Even(parts, Pow8(level)) && b < |parts| && i < |parts[b]|
      ensures var k := Pow8(level); var ls := Leaves();
        && k * b + i < |ls| && ls[k * b + i] == parts[b][i]
        && Concat(parts[b := parts[b][i := leaf]]) == ls[k * b + i := leaf] && Even(parts[b := parts[b][i := leaf]], k)
        && Sum(ls[k * b + i := leaf]) == Sum(ls) - WeightOf(parts[b][i]) + WeightOf(leaf)
        && Count(ls[k * b + i := leaf]) == Count(ls) - (if parts[b][i].Taken? then 1 else 0) + (if leaf.Taken? then 1 else 0)
        && Sum(parts[b][i := leaf]) == Sum(parts[b]) - WeightOf(parts[b][i]) + WeightOf(leaf)
    {
      var k := Pow8(level);
      ConcatUpdate(parts, k, b, i, leaf);
      SumUpdate(Leaves(), k * b + i, leaf);
      SumUpdate(parts[b], i, leaf);
    }

    /** Takes note of what a branch holds after the node in it has changed. */
    ghost method Rejoin(b: nat, sub: WrsNode, p: seq<Leaf>)
      requires Beside(b) && items[b] == Sub(sub) && sub.Has(p)
      modifies this`parts, this`Repr
      ensures parts == old(parts)[b := p] && Repr == old(Repr) + sub.Repr && this in Repr
      ensures forall c :: 0 <= c < BRANCHES && items[c].Sub? ==> items[c].node in Repr
      ensures forall c :: 0 <= c < BRANCHES ==> BranchOk(c)
      ensures forall c, d :: 0 <= c < d < BRANCHES && items[c].Sub? && items[d].Sub? ==>
        items[c].node.Repr !! items[d].node.Repr
    {
      parts := parts[b := p];
      Repr := Repr + sub.Repr;
      forall c | 0 <= c < BRANCHES ensures BranchOk(c) {
        if c != b { assert old(BranchOk(c)); }
      }
    }

    lemma InRepr()
      requires Valid()
      ensures this in Repr
    {
    }

    /** The nodes in the other branches have nothing in common with that in one branch. */
    lemma Siblings(b: nat)
      requires Valid() && b < BRANCHES && items[b].Sub?
      ensures forall c :: 0 <= c < BRANCHES && c != b && items[c].Sub? ==>
        this != items[c].node && items[c].node in Repr && items[c].node.Repr <= Repr - items[b].node.Repr - {this}
      ensures forall c :: 0 <= c < BRANCHES && c != b && items[c].Sub? ==> items[c].node.Valid()
    {
      forall c | 0 <= c < BRANCHES && c != b && items[c].Sub?
        ensures this != items[c].node && items[c].node in Repr && items[c].node.Repr <= Repr - items[b].node.Repr - {this}
        ensures items[c].node.Valid()
      {
        assert BranchOk(c) && items[c].node.Has(parts[c]);
        items[c].node.InRepr();
        assert if c < b then items[c].node.Repr !! items[b].node.Repr else items[b].node.Repr !! items[c].node.Repr;
      }
    }

    /** What is known of the node in a branch. */
    lemma Child(b: nat)
      requires Valid() && b < BRANCHES && items[b].Sub?
      ensures var n := items[b].node;
        && n.Valid() && n in Repr && n.Repr <= Repr && this !in n.Repr && level > 0 && n.level == level - 1
        && n.Leaves() == parts[b] && n.maxItems == Pow8(level) == |parts[b]|
        && n.itemCnt == Count(parts[b]) && n.sumWeight == Sum(parts[b])
    {
      assert BranchOk(b) && items[b].node.Has(parts[b]);
      items[b].node.Sums();
    }

    /** Stores an item at a free leaf of the lowest level. */
    method InsertLeaf(b: nat, item: nat, weight: nat)
      requires Valid() && level == 0 && b < BRANCHES && items[b].Empty?
      modifies this
      ensures Valid() && Repr == old(Repr)
      ensures b < |old(Leaves())| && Leaves() == old(Leaves())[b := Taken(item, weight)]
    {
      hide Valid, BranchOk, Even, Concat;
      LeafFacts(b);
      SummedIs();
      LeafUpdate(b, Taken(item, weight));
      itemCnt := itemCnt + 1;
      sumWeight := sumWeight + weight;
      weights := weights[b := weights[b] + weight];
      items := items[b := Item(item)];
      parts := parts[b := [Taken(item, weight)]];
      LowestValid();
    }

    /** Changes the weight of an item of the lowest level, or removes it. */
    method SetLeaf(b: nat, weight: nat) returns (diff: int)
      requires Valid() && level == 0 && b < BRANCHES && items[b].Item?
      modifies this
      ensures Valid() && Repr == old(Repr) && b < |old(Leaves())| && old(Leaves())[b].Taken?
      ensures diff == weight - old(Leaves())[b].weight
      ensures Leaves() == old(Leaves())[b := if weight == 0 then Free else Taken(old(Leaves())[b].item, weight)]
    {
      hide Valid, BranchOk, Even, Concat;
      LeafFacts(b);
      SummedIs();
      ghost var leaf := if weight == 0 then Free else Taken(parts[b][0].item, weight);
      LeafUpdate(b, leaf);
      var oldWeight := weights[b];
      weights := weights[b := weight];
      diff := weight - oldWeight;
      sumWeight := sumWeight + diff;
      if weight == 0 {
        items := items[b := Empty];
        itemCnt := itemCnt - 1;
      }
      parts := parts[b := [leaf]];
      LowestValid();
    }

    /** What a changed leaf of the lowest level means for the sums. */
    lemma LeafUpdate(b: nat, leaf: Leaf)
      requires level == 0 && Even(parts, 1) && |parts| == BRANCHES && b < BRANCHES && |parts[b]| == 1
      ensures var ls := Leaves(); var now := parts[b := [leaf]];
        && b < |ls| && ls[b] == parts[b][0] && Concat(now) == ls[b := leaf] && Even(now, 1) && Sum([leaf]) == WeightOf(leaf)
        && Sum(ls[b := leaf]) == Sum(ls) - WeightOf(parts[b][0]) + WeightOf(leaf)
        && Count(ls[b := leaf]) == Count(ls) - (if parts[b][0].Taken? then 1 else 0) + (if leaf.Taken? then 1 else 0)
    {
      ConcatUpdate(parts, 1, b, 0, leaf);
      SumUpdate(Leaves(), b, leaf);
      assert parts[b][0 := leaf] == [leaf];
    }

    lemma SummedIs()
      requires Valid()
      ensures Summed() && this in Repr
    {
    }

    lemma LowestValid()
      requires level == 0 && this in Repr && Summed()
      requires forall c :: 0 <= c < BRANCHES ==> LeafOk(items[c], parts[c])
      ensures Valid()
    {
      AllLeaves();
      hide Summed, Even;
      forall b | 0 <= b < BRANCHES ensures !items[b].Sub? {
        assert LeafOk(items[b], parts[b]);
      }
    }

    lemma AllLeaves()
      requires level == 0 && |items| == |parts| == BRANCHES
      requires forall c :: 0 <= c < BRANCHES ==> LeafOk(items[c], parts[c])
      ensures forall c :: 0 <= c < BRANCHES ==> BranchOk(c)
    {
      forall c | 0 <= c < BRANCHES ensures BranchOk(c) {
        if items[c].Empty? { assert parts[c] == [Free] == Frees(1); }
      }
    }

    lemma LeafFacts(b: nat)
      requires Valid() && level == 0 && b < BRANCHES
      ensures |parts[b]| == 1 && weights[b] == Sum(parts[b]) == WeightOf(parts[b][0]) && Even(parts, 1)
      ensures parts[b] == [parts[b][0]] && |Leaves()| == BRANCHES && parts[b][0] == Leaves()[b]
      ensures forall c :: 0 <= c < BRANCHES ==> LeafOk(items[c], parts[c])
    {
      forall c | 0 <= c < BRANCHES ensures LeafOk(items[c], parts[c]) {
        assert BranchOk(c);
      }
      ConcatAt(parts, 1, b, 0);
      assert parts[b] == [parts[b][0]];
    }

    lemma BranchCount(b: nat)
      requires Valid() && b < BRANCHES
      ensures items[b].Empty? ==> Count(parts[b]) == 0
      ensures items[b].Item? ==> level == 0 && Count(parts[b]) == 1
      ensures items[b].Sub? ==> level > 0 && items[b].node.itemCnt == Count(parts[b])
      ensures items[b].Sub? ==> items[b].node.maxItems == Pow8(level) == |parts[b]|
    {
      assert BranchOk(b);
      SumFrees(Pow8(level));
      if items[b].Sub? { Child(b); }
    }

    lemma Sums()
      requires Valid()
      ensures sumWeight == Sum(Leaves()) && itemCnt == Count(Leaves())
      ensures maxItems == Pow8(level + 1) == Pow8(level) * BRANCHES == |Leaves()|
      ensures level == 0 ==> |Leaves()| == BRANCHES
    {
      ConcatSize(parts, Pow8(level));
    }
  }

  lemma {:induction false} ConcatFrees(k: nat, size: nat)
    ensures Concat(seq(k, _ => Frees(size))) == Frees(size * k)
  {
    var parts := seq(k, _ => Frees(size));
    if k > 0 {
      ConcatFrees(k - 1, size);
      assert parts[1..] == seq(k - 1, _ => Frees(size));
      assert size * k == size + size * (k - 1);
    }
  }

  // ---------- the selection ----------

  /** Each item is known at just the leaf that holds it. */
  ghost predicate Indexed(idx: map<nat, nat>, ls: seq<Leaf>) {
    && (forall x :: x in idx ==> idx[x] < |ls| && ls[idx[x]].Taken? && ls[idx[x]].item == x && ls[idx[x]].weight > 0)
    && (forall j :: 0 <= j < |ls| && ls[j].Taken? ==> ls[j].item in idx && idx[ls[j].item] == j)
  }

  ghost function Weights(idx: map<nat, nat>, ls: seq<Leaf>): map<nat, nat>
    requires Indexed(idx, ls)
  {
    map x | x in idx :: ls[idx[x]].weight
  }

  /** Items keep their places. */
  predicate Stable(was: map<nat, nat>, now: map<nat, nat>) {
    forall x :: x in was && x in now ==> was[x] == now[x]
  }

  /** The leaves with room for one more: when all are taken, there are eight times as many. */
  function Grown(ls: seq<Leaf>): seq<Leaf> {
    if Count(ls) < |ls| then ls else ls + Frees(7 * |ls|)
  }

  /** A new item is at the first free leaf. */
  ghost predicate LeafAdded(idx: map<nat, nat>, ls: seq<Leaf>, item: nat, weight: nat, idx': map<nat, nat>,
                            ls': seq<Leaf>)
  {
    && item in idx' && idx'[item] < |ls| && ls[idx'[item]] == Free && (forall j :: 0 <= j < idx'[item] ==> ls[j] != Free)
    && idx' == idx[item := idx'[item]] && ls' == ls[idx'[item] := Taken(item, weight)]
  }

  /** An item's leaf has got another weight, or is free. */
  ghost predicate LeafSet(idx: map<nat, nat>, ls: seq<Leaf>, item: nat, weight: nat, idx': map<nat, nat>, ls': seq<Leaf>) {
    && item in idx && idx[item] < |ls| && idx' == (if weight == 0 then idx - {item} else idx)
    && ls' == ls[idx[item] := if weight == 0 then Free else Taken(item, weight)]
  }

  lemma IndexedInsert(idx: map<nat, nat>, ls: seq<Leaf>, item: nat, weight: nat, j: nat)
    requires Indexed(idx, ls) && item !in idx && j < |ls| && ls[j] == Free && weight > 0
    ensures var now := ls[j := Taken(item, weight)];
      Indexed(idx[item := j], now) && Weights(idx[item := j], now) == Weights(idx, ls)[item := weight]
  {
  }

  lemma IndexedAt(idx: map<nat, nat>, ls: seq<Leaf>, item: nat)
    requires Indexed(idx, ls) && item in idx
    ensures idx[item] < |ls| && ls[idx[item]].Taken?
  {
  }

  lemma IndexedSet(idx: map<nat, nat>, ls: seq<Leaf>, item: nat, weight: nat)
    requires Indexed(idx, ls) && item in idx
    ensures var now := ls[idx[item] := Reweighed(ls[idx[item]], weight)];
      if weight == 0 then Indexed(idx - {item}, now) && Weights(idx - {item}, now) == Weights(idx, ls) - {item}
      else Indexed(idx, now) && Weights(idx, now) == Weights(idx, ls)[item := weight]
  {
    forall x | x in idx && idx[x] == idx[item] ensures x == item {
    }
  }

  lemma IndexedGrow(idx: map<nat, nat>, ls: seq<Leaf>, n: nat)
    requires Indexed(idx, ls)
    ensures Indexed(idx, ls + Frees(n)) && Weights(idx, ls + Frees(n)) == Weights(idx, ls)
  {
  }

  class WeightedRandomSelect {
    var root: WrsNode
    var idx: map<nat, nat>

    ghost predicate Valid()
      reads this, root, root.Repr
    {
      root.Valid() && this !in root.Repr && Indexed(idx, root.Leaves())
    }

    /** The stored weights of the items. */
    ghost function View(): map<nat, nat>
      requires Valid()
      reads this, root, root.Repr
    {
      Weights(idx, root.Leaves())
    }

    constructor ()
      ensures Valid() && View() == map[] && fresh(root.Repr)
    {
      idx := map[];
      root := new WrsNode(0, BRANCHES);
      new;
      assert Weights(idx, root.Leaves()) == map[];
    }

    /** Adds a level when all leaves are taken. */
    method Grow()
      requires Valid()
      modifies this`root
      ensures Valid() && root.itemCnt < root.maxItems && View() == old(View())
      ensures root.Leaves() == Grown(old(root.Leaves()))
      ensures fresh(root.Repr - old(root.Repr)) && idx == old(idx)
    {
      hide Frees, Indexed, Weights;
      if root.itemCnt == root.maxItems {
        IndexedGrow(idx, root.Leaves(), root.maxItems * (BRANCHES - 1));
        var above := new WrsNode.Above(root);
        root.Sums();
        above.Sums();
        SumConcat(root.Leaves(), Frees(root.maxItems * (BRANCHES - 1)));
        SumFrees(root.maxItems * (BRANCHES - 1));
        root := above;
      } else {
        root.Sums();
      }
    }

    /** Sets an item's weight: adds a new item, and removes one whose weight becomes zero. */
    method SetWeight(item: nat, weight: nat)
      requires Valid()
      modifies this, root.Repr
      ensures Valid() && fresh(root.Repr - old(root.Repr)) && Stable(old(idx), idx)
      ensures View() == if weight == 0 then old(View()) - {item} else old(View())[item := weight]
      ensures item in old(View()) ==> item in old(idx) && root.sumWeight == old(root.sumWeight) - old(View())[item] + weight
      ensures item in old(View()) ==> LeafSet(old(idx), old(root.Leaves()), item, weight, idx, root.Leaves())
      ensures item !in old(View()) && weight > 0 ==>
        LeafAdded(old(idx), Grown(old(root.Leaves())), item, weight, idx, root.Leaves())
      ensures item !in old(View()) && weight == 0 ==> idx == old(idx) && root.Leaves() == old(root.Leaves())
    {
      hide Valid, View, Grown, LeafAdded;
      ViewKeys(item);
      if item in idx {
        SetKnown(item, weight);
      } else if weight != 0 {
        Grow();
        AddNew(item, weight);
      }
    }

    lemma ViewKeys(item: nat)
      requires Valid()
      ensures View().Keys == idx.Keys && (item !in idx ==> View() - {item} == View())
    {
    }

    method SetKnown(item: nat, weight: nat)
      requires Valid() && item in idx
      modifies this, root.Repr
      ensures Valid() && fresh(root.Repr - old(root.Repr)) && item in old(View())
      ensures View() == if weight == 0 then old(View()) - {item} else old(View())[item := weight]
      ensures root.sumWeight == old(root.sumWeight) - old(View())[item] + weight
      ensures LeafSet(old(idx), old(root.Leaves()), item, weight, idx, root.Leaves())
    {
      hide Frees, Weights, FirstFree, WrsNode.Valid, Indexed;
      WeightsAre(idx, root.Leaves());
      IndexedAt(idx, root.Leaves(), item);
      IndexedSet(idx, root.Leaves(), item, weight);
      SumUpdate(root.Leaves(), idx[item], Reweighed(root.Leaves()[idx[item]], weight));
      root.Sums();
      var _ := root.SetWeight(idx[item], weight);
      root.Sums();
      if weight == 0 {
        idx := idx - {item};
      }
    }

    /** Adds an item where there is room. */
    method AddNew(item: nat, weight: nat)
      requires Valid() && item !in idx && weight > 0 && root.itemCnt < root.maxItems
      modifies this`idx, root.Repr
      ensures Valid() && fresh(root.Repr - old(root.Repr)) && root == old(root)
      ensures View() == old(View())[item := weight] && idx.Keys == old(idx).Keys + {item}
      ensures forall x :: x in old(idx) ==> idx[x] == old(idx)[x]
      ensures LeafAdded(old(idx), old(root.Leaves()), item, weight, idx, root.Leaves())
    {
      hide Frees, Weights, WrsNode.Valid, Indexed;
      root.Sums();
      ghost var ls := root.Leaves();
      var j := root.Insert(item, weight);
      IndexedInsert(idx, ls, item, weight, j);
      idx := idx[item := j];
    }

    /** Selects an item; a number below the sum of the stored weights falls on it. If its weight has fallen, the stored
        weight is corrected, and it is returned with a chance of new to old weight, or else another one is tried. An item may
        weigh something else at each try. */
    method Choose(weigh: (nat, nat) -> nat, rand: (nat, nat) -> nat) returns (choice: Option<nat>, ghost tries: seq<Pick>)
      requires Valid()
      modifies this, root.Repr
      ensures Valid() && fresh(root.Repr - old(root.Repr)) && Corrected(old(View()), weigh, |tries|, View())
      ensures Tried(tries, weigh, rand, old(idx), old(root.Leaves()), choice.Some?, idx, root.Leaves())
      ensures forall x :: x in idx ==> x in old(idx) && idx[x] == old(idx)[x]
      ensures choice.None? ==> View() == map[]
      ensures choice.Some? ==> tries != [] && choice.value == tries[|tries| - 1].item
      ensures choice.Some? ==> choice.value in View() && View()[choice.value] == weigh(|tries| - 1, choice.value)
    {
      hide Weights, Indexed, WrsNode.Valid, WrsNode.Leaves, Corrected, Tried;
      ghost var was := View();
      var k: nat := 0;
      tries := [];
      NothingCorrected(was, weigh);
      NothingTried(weigh, rand, idx, root.Leaves());
      while true
        invariant Valid() && fresh(root.Repr - old(root.Repr)) && Corrected(was, weigh, k, View()) && |tries| == k
        invariant Tried(tries, weigh, rand, old(idx), old(root.Leaves()), false, idx, root.Leaves())
        invariant forall x :: x in idx ==> x in old(idx) && idx[x] == old(idx)[x]
        decreases root.sumWeight
      {
        ghost var mid, places, ls := View(), idx, root.Leaves();
        if root.sumWeight == 0 {
          EmptyView();
          return None, tries;
        }
        SumIs();
        var item, last, weight := Try(rand(2 * k, root.sumWeight), x => weigh(k, x));
        OneCorrected(was, weigh, k, mid, item, View());
        ghost var pick := Pick(places, ls, item, last, weight);
        OneTried(tries, weigh, rand, old(idx), old(root.Leaves()), pick, idx, root.Leaves());
        tries, k := tries + [pick], k + 1;
        if weight >= last || rand(2 * k - 1, last) % last < weight {
          return Some(item), tries;
        }
      }
    }

    lemma SumIs()
      requires Valid()
      ensures root.sumWeight == Sum(root.Leaves())
    {
      root.Sums();
    }

    lemma EmptyView()
      requires Valid() && root.sumWeight == 0
      ensures View() == map[]
    {
      root.Sums();
      NoWeight(idx, root.Leaves());
    }

    /** One try: the item the number falls on, its stored weight, and what it weighs now, which is stored. */
    method Try(number: nat, weigh: nat -> nat) returns (item: nat, last: nat, weight: nat)
      requires Valid() && root.sumWeight > 0
      modifies this, root.Repr
      ensures Valid() && fresh(root.Repr - old(root.Repr))
      ensures item in old(View()) && old(View())[item] == last > 0 && weight == weigh(item)
      ensures root.sumWeight == old(root.sumWeight) - last + weight
      ensures View() == if weight == 0 then old(View()) - {item} else old(View())[item := weight]
      ensures forall x :: x in idx ==> x in old(idx) && idx[x] == old(idx)[x]
      ensures FallsOn(old(idx), old(root.Leaves()), number, item, last)
      ensures LeafSet(old(idx), old(root.Leaves()), item, weight, idx, root.Leaves())
    {
      hide Weights, Indexed, WrsNode.Valid, WrsNode.Leaves, FallsOn;
      SumIs();
      item, last := root.Choose(number % root.sumWeight);
      ChosenStored(idx, root.Leaves(), Choice(root.Leaves(), number % root.sumWeight));
      ChosenFalls(idx, root.Leaves(), number, item, last);
      SameLeaf(idx, root.Leaves(), item, last);
      weight := weigh(item);
      if weight != last {
        SetWeight(item, weight);
      }
    }
  }

  /** A try: where the items were and what was stored, the item tried, its stored weight, and what it weighed then. */
  datatype Pick = Pick(idx: map<nat, nat>, leaves: seq<Leaf>, item: nat, last: nat, weight: nat)

  /** The number falls on the item's stretch of the sum, which is as long as its stored weight. */
  ghost predicate FallsOn(idx: map<nat, nat>, ls: seq<Leaf>, number: nat, item: nat, last: nat) {
    && item in idx && idx[item] < |ls| && ls[idx[item]] == Taken(item, last) && Sum(ls) > 0
    && var val := number % Sum(ls); Sum(ls[..idx[item]]) <= val < Sum(ls[..idx[item]]) + last
  }

  /** An item is kept if it does not weigh less than was stored, or else with a chance of new to old weight. */
  predicate Kept(p: Pick, number: nat) {
    p.weight >= p.last || (p.last > 0 && number % p.last < p.weight)
  }

  /** What the tries have done: the first number of each falls on its item, which is then stored with what it weighs; the
      second one decides whether it is kept, which only the last one is, if any. */
  ghost predicate Tried(tries: seq<Pick>, weigh: (nat, nat) -> nat, rand: (nat, nat) -> nat, idx: map<nat, nat>,
                        ls: seq<Leaf>, chosen: bool, idx': map<nat, nat>, ls': seq<Leaf>)
  {
    && (forall k: nat :: k < |tries| ==> TryOk(tries, k, weigh, rand))
    && (forall k: nat :: k < |tries| ==> (Kept(tries[k], rand(2 * k + 1, tries[k].last)) <==> chosen && k == |tries| - 1))
    && if tries == [] then !chosen && idx' == idx && ls' == ls
       else
         var p := tries[|tries| - 1];
         tries[0].idx == idx && tries[0].leaves == ls && LeafSet(p.idx, p.leaves, p.item, p.weight, idx', ls')
  }

  ghost predicate TryOk(tries: seq<Pick>, k: nat, weigh: (nat, nat) -> nat, rand: (nat, nat) -> nat)
    requires k < |tries|
  {
    var p := tries[k];
    && FallsOn(p.idx, p.leaves, rand(2 * k, Sum(p.leaves)), p.item, p.last) && p.weight == weigh(k, p.item)
    && (k > 0 ==>
          var before := tries[k - 1];
          LeafSet(before.idx, before.leaves, before.item, before.weight, p.idx, p.leaves))
  }

  lemma NothingTried(weigh: (nat, nat) -> nat, rand: (nat, nat) -> nat, idx: map<nat, nat>, ls: seq<Leaf>)
    ensures Tried([], weigh, rand, idx, ls, false, idx, ls)
  {
  }

  lemma OneTried(tries: seq<Pick>, weigh: (nat, nat) -> nat, rand: (nat, nat) -> nat, idx: map<nat, nat>, ls: seq<Leaf>,
                 p: Pick, idx': map<nat, nat>, ls': seq<Leaf>)
    requires Tried(tries, weigh, rand, idx, ls, false, p.idx, p.leaves)
    requires FallsOn(p.idx, p.leaves, rand(2 * |tries|, Sum(p.leaves)), p.item, p.last)
    requires p.weight == weigh(|tries|, p.item) && LeafSet(p.idx, p.leaves, p.item, p.weight, idx', ls')
    ensures Tried(tries + [p], weigh, rand, idx, ls, Kept(p, rand(2 * |tries| + 1, p.last)), idx', ls')
  {
    hide FallsOn, LeafSet, Kept;
    var more := tries + [p];
    forall k: nat | k < |more| ensures TryOk(more, k, weigh, rand) {
      if k < |tries| { assert TryOk(tries, k, weigh, rand); }
    }
  }

  /** With unchanged weights the first try is kept: what is chosen is where the first number falls. */
  lemma UnchangedIsKept(tries: seq<Pick>, weigh: (nat, nat) -> nat, rand: (nat, nat) -> nat, idx: map<nat, nat>,
                        ls: seq<Leaf>, chosen: bool, idx': map<nat, nat>, ls': seq<Leaf>)
    requires Tried(tries, weigh, rand, idx, ls, chosen, idx', ls') && Indexed(idx, ls) && tries != []
    requires forall x :: x in idx ==> weigh(0, x) == ls[idx[x]].weight
    ensures chosen && |tries| == 1 && FallsOn(idx, ls, rand(0, Sum(ls)), tries[0].item, tries[0].last)
    ensures idx' == idx && ls' == ls
  {
    hide Sum;
    assert TryOk(tries, 0, weigh, rand);
    assert Kept(tries[0], rand(1, tries[0].last));
  }

  lemma ChosenFalls(idx: map<nat, nat>, ls: seq<Leaf>, number: nat, item: nat, last: nat)
    requires Indexed(idx, ls) && Sum(ls) > 0 && ls[Choice(ls, number % Sum(ls))] == Taken(item, last)
    ensures FallsOn(idx, ls, number, item, last)
  {
    ChosenByWeight(idx, ls, item, number % Sum(ls));
  }

  lemma SameLeaf(idx: map<nat, nat>, ls: seq<Leaf>, item: nat, last: nat)
    requires item in idx && idx[item] < |ls| && ls[idx[item]] == Taken(item, last) && last > 0
    ensures LeafSet(idx, ls, item, last, idx, ls)
  {
    assert ls[idx[item] := Taken(item, last)] == ls;
  }

  /** Stored weights are as they were, or what the items weighed at some try. */
  ghost predicate Corrected(was: map<nat, nat>, weigh: (nat, nat) -> nat, tries: nat, now: map<nat, nat>) {
    && (forall x :: x in now ==> x in was && (now[x] == was[x] || Weighed(weigh, tries, x, now[x])))
    && (forall x :: x in was && x !in now ==> Weighed(weigh, tries, x, 0))
  }

  ghost predicate Weighed(weigh: (nat, nat) -> nat, tries: nat, x: nat, weight: nat) {
    exists k: nat :: k < tries && weigh(k, x) == weight
  }

  lemma NothingCorrected(was: map<nat, nat>, weigh: (nat, nat) -> nat)
    ensures Corrected(was, weigh, 0, was)
  {
  }

  lemma OneCorrected(was: map<nat, nat>, weigh: (nat, nat) -> nat, k: nat, mid: map<nat, nat>, item: nat, now: map<nat, nat>)
    requires Corrected(was, weigh, k, mid) && item in mid
    requires now == if weigh(k, item) == 0 then mid - {item} else mid[item := weigh(k, item)]
    ensures Corrected(was, weigh, k + 1, now)
  {
    assert Weighed(weigh, k + 1, item, weigh(k, item));
    forall x, weight | Weighed(weigh, k, x, weight) ensures Weighed(weigh, k + 1, x, weight) {
    }
  }

  lemma WeightsAre(idx: map<nat, nat>, ls: seq<Leaf>)
    requires Indexed(idx, ls)
    ensures Weights(idx, ls).Keys == idx.Keys
    ensures forall x :: x in idx ==> Weights(idx, ls)[x] == ls[idx[x]].weight
    ensures forall x :: x !in idx ==> Weights(idx, ls) - {x} == Weights(idx, ls)
  {
  }

  lemma ChosenStored(idx: map<nat, nat>, ls: seq<Leaf>, j: nat)
    requires Indexed(idx, ls) && j < |ls| && ls[j].Taken?
    ensures ls[j].item in Weights(idx, ls) && Weights(idx, ls)[ls[j].item] == ls[j].weight > 0
    ensures ls[j].item in idx && idx[ls[j].item] == j
  {
  }

  lemma NoWeight(idx: map<nat, nat>, ls: seq<Leaf>)
    requires Indexed(idx, ls) && Sum(ls) == 0
    ensures Weights(idx, ls) == map[]
  {
    if x :| x in idx {
      SumUpdate(ls, idx[x], Free);
    }
  }

  /** Each item is chosen by exactly its weight many of the numbers below the sum. */
  lemma ChosenByWeight(idx: map<nat, nat>, ls: seq<Leaf>, item: nat, val: nat)
    requires Indexed(idx, ls) && item in idx && val < Sum(ls)
    ensures var first := Sum(ls[..idx[item]]);
      && first + Weights(idx, ls)[item] <= Sum(ls)
      && (ls[Choice(ls, val)].item == item <==> first <= val < first + Weights(idx, ls)[item])
  {
    var j := idx[item];
    ChoiceIs(ls, val, j);
    assert ls == ls[..j] + ([ls[j]] + ls[j + 1..]);
    SumConcat(ls[..j], [ls[j]] + ls[j + 1..]);
    SumConcat([ls[j]], ls[j + 1..]);
    assert idx[ls[Choice(ls, val)].item] == Choice(ls, val);
  }
}
