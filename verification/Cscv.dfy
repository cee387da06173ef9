/** Combinatorially symmetric cross-validation: the partitions of the folds into
    equal train and test halves. */
module Cscv {
  import opened Digits
  import opened Octets
  import opened Ordering
  import opened Outcomes
  import opened Subsets

  type Id = seq<CodePoint>

  /** Python's order on identifiers. */
  predicate IdLe(a: Id, b: Id) { LexLe(a, b) }

  lemma {:induction false} IdLeIsPreorder()
    ensures Preorder(IdLe)
  {
    hide LexLe;
    forall x: Id, y: Id ensures IdLe(x, y) || IdLe(y, x) { LexConnected(x, y); }
    forall x: Id, y: Id, z: Id | IdLe(x, y) && IdLe(y, z) ensures IdLe(x, z) { LexTransitive(x, y, z); }
  }

  datatype Partition = Partition(partitionId: seq<Byte>, inSample: seq<Id>, outOfSample: seq<Id>)

  datatype PartitionError = RepeatedIdentifier | BlankIdentifier | OddOrTooFewFolds | EmptySide | OverlappingSides

  /** The partition constructor's own checks. */
  function MakePartition(partitionId: seq<Byte>, inSample: seq<Id>, outOfSample: seq<Id>): Result<Partition, PartitionError> {
    if partitionId == [] then Err(BlankIdentifier)
    else if inSample == [] || outOfSample == [] then Err(EmptySide)
    else if HasRepeats(inSample) || HasRepeats(outOfSample) then Err(RepeatedIdentifier)
    else if exists x :: x in inSample && x in outOfSample then Err(OverlappingSides)
    else Ok(Partition(partitionId, inSample, outOfSample))
  }

  /** Python's `len(values) != len(set(values))`. */
  predicate HasRepeats(values: seq<Id>)
    ensures HasRepeats(values) <==> !NoDuplicates(values)
  {
    exists i, j :: 0 <= i < j < |values| && values[i] == values[j]
  }

  function Pick(folds: seq<Id>, positions: seq<nat>): (r: seq<Id>)
    requires forall i :: 0 <= i < |positions| ==> positions[i] < |folds|
    ensures |r| == |positions|
    ensures forall i :: 0 <= i < |positions| ==> r[i] == folds[positions[i]]
  {
    if positions == [] then [] else [folds[positions[0]]] + Pick(folds, positions[1..])
  }

  /** "cscv-" */
  const PREFIX: seq<Byte> := [99, 115, 99, 118, 45]

  function Halves(folds: seq<Id>): seq<seq<nat>> {
    Combinations(0, |folds|, |folds| / 2)
  }

  ghost predicate Usable(folds: seq<Id>) {
    NoDuplicates(folds) && [] !in folds && |folds| >= 2 && |folds| % 2 == 0
  }

  lemma {:induction false} HalfFacts(folds: seq<Id>, index: nat)
    requires index < |Halves(folds)|
    ensures IsCombination(Halves(folds)[index], 0, |folds|, |folds| / 2)
    ensures index < Pow(10, |DigitsOf(|Halves(folds)| - 1)|)
    ensures var out := Complement(Halves(folds)[index], 0, |folds|);
      Ascending(out) && forall i :: 0 <= i < |out| ==> out[i] < |folds|
  {
    hide Combinations, DigitsOf, Complement, Pow;
    var c := Halves(folds)[index];
    assert c in Halves(folds);
    CombinationsAre(c, 0, |folds|, |folds| / 2);
    NumberBound(DigitsOf(|Halves(folds)| - 1));
    ComplementIsFilter(c, 0, |folds|);
    var out := Complement(c, 0, |folds|);
    forall i | 0 <= i < |out| ensures out[i] < |folds| { assert out[i] in out; }
  }

  /** The training folds at one place of the enumeration. */
  function TrainAt(folds: seq<Id>, index: nat): seq<Id>
    requires index < |Halves(folds)|
  {
    HalfFacts(folds, index);
    Pick(folds, Halves(folds)[index])
  }

  function TestAt(folds: seq<Id>, index: nat): seq<Id>
    requires index < |Halves(folds)|
  {
    HalfFacts(folds, index);
    Pick(folds, Complement(Halves(folds)[index], 0, |folds|))
  }

  function NameAt(folds: seq<Id>, index: nat): seq<Byte>
    requires index < |Halves(folds)|
  {
    HalfFacts(folds, index);
    PREFIX + Ascii(Padded(index, |DigitsOf(|Halves(folds)| - 1)|))
  }

  /** The partition at one place of the enumeration. */
  function PartitionAt(folds: seq<Id>, index: nat): Partition
    requires index < |Halves(folds)|
  {
    Partition(NameAt(folds, index), TrainAt(folds, index), TestAt(folds, index))
  }

  lemma {:induction false} PickedMembers(folds: seq<Id>, positions: seq<nat>, x: Id)
    requires forall i :: 0 <= i < |positions| ==> positions[i] < |folds|
    ensures x in Pick(folds, positions) <==> exists p :: p in positions && folds[p] == x
  {
    if x in Pick(folds, positions) {
      var i :| 0 <= i < |positions| && Pick(folds, positions)[i] == x;
      assert positions[i] in positions;
    }
    if exists p :: p in positions && folds[p] == x {
      var p :| p in positions && folds[p] == x;
      var i :| 0 <= i < |positions| && positions[i] == p;
      assert Pick(folds, positions)[i] == x;
    }
  }

  lemma {:induction false} PickedDistinct(folds: seq<Id>, positions: seq<nat>)
    requires forall i :: 0 <= i < |positions| ==> positions[i] < |folds|
    requires NoDuplicates(folds) && Ascending(positions)
    ensures NoDuplicates(Pick(folds, positions))
  {
    forall i, j | 0 <= i < j < |positions| ensures Pick(folds, positions)[i] != Pick(folds, positions)[j] {
      assert positions[i] < positions[j];
    }
  }

  /** Each partition splits the folds: every fold is on exactly one side, the
      sides are equally long and repeat nothing. */
  lemma {:induction false} SidesSplitFolds(folds: seq<Id>, index: nat)
    requires Usable(folds) && index < |Halves(folds)|
    ensures var train, test := TrainAt(folds, index), TestAt(folds, index);
      && |train| == |test| == |folds| / 2 && NoDuplicates(train) && NoDuplicates(test)
      && (forall x :: x in folds <==> x in train || x in test)
      && (forall x :: !(x in train && x in test))
  {
    hide Combinations, DigitsOf, Complement, Pow, Padded, Ascii, Pick;
    HalfFacts(folds, index);
    var n, c := |folds|, Halves(folds)[index];
    var out := Complement(c, 0, n);
    ComplementIsFilter(c, 0, n);
    ComplementReverses(0, n, n / 2, index);
    assert out in Combinations(0, n, n / 2);
    CombinationsAre(out, 0, n, n / 2);
    PickedDistinct(folds, c);
    PickedDistinct(folds, out);
    forall x ensures x in folds <==> x in Pick(folds, c) || x in Pick(folds, out) {
      SideOf(folds, c, out, x);
    }
    forall x ensures !(x in Pick(folds, c) && x in Pick(folds, out)) {
      SideOf(folds, c, out, x);
    }
  }

  lemma {:induction false} SidesOf(folds: seq<Id>, index: nat)
    requires index < |Halves(folds)|
    ensures PartitionAt(folds, index).inSample == TrainAt(folds, index) && PartitionAt(folds, index).outOfSample == TestAt(folds, index)
  {
  }

  lemma {:induction false} SideOf(folds: seq<Id>, c: seq<nat>, out: seq<nat>, x: Id)
    requires NoDuplicates(folds)
    requires forall i :: 0 <= i < |c| ==> c[i] < |folds|
    requires forall i :: 0 <= i < |out| ==> out[i] < |folds|
    requires forall p :: p in out <==> 0 <= p < |folds| && p !in c
    ensures x in folds <==> x in Pick(folds, c) || x in Pick(folds, out)
    ensures !(x in Pick(folds, c) && x in Pick(folds, out))
  {
    hide Pick;
    PickedMembers(folds, c, x);
    PickedMembers(folds, out, x);
    if x in folds {
      var p: nat :| p < |folds| && folds[p] == x;
      assert p in c || p in out;
      forall q: nat | q < |folds| && folds[q] == x ensures q == p { SamePlace(folds, q, p); }
    }
  }

  /** All partitions in order, or the first check that fails; the checks of the
      partitions themselves never fail. */
  method ConstructCscvPartitions(foldIds: seq<Id>) returns (r: Result<seq<Partition>, PartitionError>)
    ensures r.Ok? <==> Usable(foldIds)
    ensures !NoDuplicates(foldIds) ==> r == Err(RepeatedIdentifier)
    ensures NoDuplicates(foldIds) && [] in foldIds ==> r == Err(BlankIdentifier)
    ensures r.Err? && NoDuplicates(foldIds) && [] !in foldIds ==> r == Err(OddOrTooFewFolds)
    ensures r.Ok? ==> |r.value| == |Halves(foldIds)|
    ensures r.Ok? ==> forall i :: 0 <= i < |r.value| ==> r.value[i] == PartitionAt(foldIds, i)
  {
    hide Combinations, DigitsOf, Complement, Pow, Padded, Ascii, Pick;
    if HasRepeats(foldIds) {
      return Err(RepeatedIdentifier);
    }
    if [] in foldIds {
      return Err(BlankIdentifier);
    }
    var foldCount := |foldIds|;
    if foldCount < 2 || foldCount % 2 != 0 {
      return Err(OddOrTooFewFolds);
    }
    var half := foldCount / 2;
    var chosen := Combinations(0, foldCount, half);
    var result: seq<Partition> := [];
    for index := 0 to |chosen|
      invariant |result| == index
      invariant forall i :: 0 <= i < index ==> result[i] == PartitionAt(foldIds, i)
    {
      HalfFacts(foldIds, index);
      SidesSplitFolds(foldIds, index);
      var partition := MakePartition(
        PREFIX + Ascii(Padded(index, |DigitsOf(|chosen| - 1)|)),
        Pick(foldIds, chosen[index]),
        Pick(foldIds, Complement(chosen[index], 0, foldCount)));
      assert partition.Ok?;
      result := result + [partition.value];
    }
    r := Ok(result);
  }

  // ---------------------------------------------------------------- the enumeration

  /** The positions, ascending, whose folds belong to a set. */
  function PositionsIn(folds: seq<Id>, t: set<Id>, lo: nat): (r: seq<nat>)
    requires lo <= |folds|
    ensures forall i :: 0 <= i < |r| ==> lo <= r[i] < |folds|
    decreases |folds| - lo
  {
    if lo == |folds| then [] else (if folds[lo] in t then [lo] else []) + PositionsIn(folds, t, lo + 1)
  }

  lemma {:induction false} PositionsAre(folds: seq<Id>, t: set<Id>, lo: nat)
    requires lo <= |folds|
    ensures Ascending(PositionsIn(folds, t, lo))
    ensures forall p :: p in PositionsIn(folds, t, lo) <==> lo <= p < |folds| && folds[p] in t
    decreases |folds| - lo
  {
    if lo < |folds| {
      PositionsAre(folds, t, lo + 1);
      var tail := PositionsIn(folds, t, lo + 1);
      forall i | 0 <= i < |tail| ensures lo < tail[i] { assert tail[i] in tail; }
    }
  }

  lemma {:induction false} PositionsCount(folds: seq<Id>, t: set<Id>, lo: nat)
    requires lo <= |folds| && NoDuplicates(folds)
    ensures |PositionsIn(folds, t, lo)| == |set x | x in folds[lo..] && x in t|
    decreases |folds| - lo
  {
    if lo < |folds| {
      PositionsCount(folds, t, lo + 1);
      MembersFrom(folds, t, lo);
    } else {
      assert (set x | x in folds[lo..] && x in t) == {};
    }
  }

  lemma {:induction false} MembersFrom(folds: seq<Id>, t: set<Id>, lo: nat)
    requires lo < |folds| && NoDuplicates(folds)
    ensures |set x | x in folds[lo..] && x in t|
         == |set x | x in folds[lo + 1..] && x in t| + if folds[lo] in t then 1 else 0
  {
    var s, rest := set x | x in folds[lo..] && x in t, set x | x in folds[lo + 1..] && x in t;
    assert folds[lo..] == [folds[lo]] + folds[lo + 1..];
    assert folds[lo] !in folds[lo + 1..];
    assert s == if folds[lo] in t then rest + {folds[lo]} else rest;
  }

  /** Every half-size set of folds is some partition's training side. */
  lemma {:induction false} EveryHalfAppears(folds: seq<Id>, t: set<Id>) returns (index: nat)
    requires Usable(folds)
    requires (forall x :: x in t ==> x in folds) && |t| == |folds| / 2
    ensures index < |Halves(folds)| && forall x :: x in TrainAt(folds, index) <==> x in t
  {
    hide Combinations, DigitsOf, Complement, Pow, Padded, Ascii, Pick, PositionsIn;
    var n := |folds|;
    var c := PositionsIn(folds, t, 0);
    PositionsAre(folds, t, 0);
    PositionsCount(folds, t, 0);
    assert folds[0..] == folds;
    assert (set x | x in folds[0..] && x in t) == t;
    CombinationsAre(c, 0, n, n / 2);
    index :| 0 <= index < |Halves(folds)| && Halves(folds)[index] == c;
    forall x ensures x in TrainAt(folds, index) <==> x in t {
      PickedMembers(folds, c, x);
      if x in t {
        var p :| 0 <= p < |folds| && folds[p] == x;
        assert p in c;
      }
    }
  }

  /** No two partitions share a training side. */
  lemma {:induction false} HalvesAppearOnce(folds: seq<Id>, i: nat, j: nat)
    requires Usable(folds) && i < |Halves(folds)| && j < |Halves(folds)|
    requires forall x :: x in TrainAt(folds, i) <==> x in TrainAt(folds, j)
    ensures i == j
  {
    hide Combinations, DigitsOf, Complement, Pow, Padded, Ascii, Pick;
    HalfFacts(folds, i);
    HalfFacts(folds, j);
    var a, b := Halves(folds)[i], Halves(folds)[j];
    assert TrainAt(folds, i) == Pick(folds, a) && TrainAt(folds, j) == Pick(folds, b);
    SameSidePositions(folds, a, b);
    SameSidePositions(folds, b, a);
    AscendingUnique(a, b);
    CombinationsDistinct(0, |folds|, |folds| / 2);
  }

  lemma {:induction false} SameSidePositions(folds: seq<Id>, a: seq<nat>, b: seq<nat>)
    requires NoDuplicates(folds)
    requires forall i :: 0 <= i < |a| ==> a[i] < |folds|
    requires forall i :: 0 <= i < |b| ==> b[i] < |folds|
    requires forall x :: x in Pick(folds, a) ==> x in Pick(folds, b)
    ensures forall p :: p in a ==> p in b
  {
    hide Pick;
    forall p | p in a ensures p in b {
      PickedMembers(folds, a, folds[p]);
      PickedMembers(folds, b, folds[p]);
      var q :| q in b && folds[q] == folds[p];
      SamePlace(folds, q, p);
    }
  }

  /** There are S! / ((S/2)!)^2 partitions. */
  lemma {:induction false} PartitionCount(folds: seq<Id>)
    requires Usable(folds)
    ensures var half := Factorial(|folds| / 2); |Halves(folds)| * (half * half) == Factorial(|folds|)
  {
    hide Combinations, Factorial;
    CombinationsCount(0, |folds|, |folds| / 2);
  }

  /** Partition i and partition N-1-i exchange training and test folds. */
  lemma {:induction false} MirrorSwapsSides(folds: seq<Id>, i: nat)
    requires Usable(folds) && i < |Halves(folds)|
    ensures var mirror := |Halves(folds)| - 1 - i;
      TrainAt(folds, i) == TestAt(folds, mirror) && TestAt(folds, i) == TrainAt(folds, mirror)
  {
    hide Combinations, DigitsOf, Complement, Pow, Padded, Ascii, Pick;
    var n, last := |folds|, |Halves(folds)| - 1;
    ComplementReverses(0, n, n / 2, i);
    ComplementReverses(0, n, n / 2, last - i);
  }

  /** Partition names have one width and differ pairwise. */
  lemma {:induction false} PartitionNamesDistinct(folds: seq<Id>, i: nat, j: nat)
    requires i < |Halves(folds)| && j < |Halves(folds)|
    ensures |NameAt(folds, i)| == |NameAt(folds, j)| && (NameAt(folds, i) == NameAt(folds, j) ==> i == j)
  {
    hide Combinations, DigitsOf, Complement, Pow, Padded, Ascii, Pick;
    HalfFacts(folds, i);
    HalfFacts(folds, j);
    var width := |DigitsOf(|Halves(folds)| - 1)|;
    var a, b := Padded(i, width), Padded(j, width);
    AsciiRoundTrip(a);
    AsciiRoundTrip(b);
    if PREFIX + Ascii(a) == PREFIX + Ascii(b) {
      assert Ascii(a) == (PREFIX + Ascii(a))[5..] && Ascii(b) == (PREFIX + Ascii(b))[5..];
    }
  }

  /** Partitions come in lexicographic order of their training positions, under names that read back to
      their place in that order, padded to the width of the last; both sides keep the folds' own order. */
  lemma {:induction false} PartitionsInOrder(folds: seq<Id>, index: nat) returns (train: seq<nat>, test: seq<nat>)
    requires Usable(folds) && index < |Halves(folds)|
    ensures train == Halves(folds)[index] && Ascending(train) && Ascending(test)
    ensures |train| == |TrainAt(folds, index)| && |test| == |TestAt(folds, index)|
    ensures forall i :: 0 <= i < |train| ==> train[i] < |folds| && TrainAt(folds, index)[i] == folds[train[i]]
    ensures forall i :: 0 <= i < |test| ==> test[i] < |folds| && TestAt(folds, index)[i] == folds[test[i]]
    ensures forall j :: 0 <= j < index ==> LexLe(Halves(folds)[j], train) && Halves(folds)[j] != train
    ensures var name, digits := NameAt(folds, index), NameAt(folds, index)[5..];
      && name[..5] == [99, 115, 99, 118, 45] && IsDigitText(digits) && NumberOf(FromAscii(digits)) == index
      && |digits| == |DigitsOf(|Halves(folds)| - 1)|
  {
    hide LexLe, NumberOf, Complement;
    HalfFacts(folds, index);
    train, test := Halves(folds)[index], Complement(Halves(folds)[index], 0, |folds|);
    forall j | 0 <= j < index ensures LexLe(Halves(folds)[j], train) && Halves(folds)[j] != train {
      CombinationsAscend(0, |folds|, |folds| / 2, j, index);
    }
    var d := Padded(index, |DigitsOf(|Halves(folds)| - 1)|);
    AsciiRoundTrip(d);
    assert NameAt(folds, index)[5..] == Ascii(d);
  }
}
