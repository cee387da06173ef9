/** The finite alternatives of one offspring slot, in the order the runner tries
    them: rotating operators, frozen-parent tuples, parameter vectors. */
module SearchAlternatives {
  import opened Cscv
  import opened Octets
  import opened Ordering
  import opened Subsets

  datatype Operator = Operator(operatorId: Id, arity: nat, commutative: bool, gridSizes: seq<nat>) {
    predicate Valid() { (commutative ==> arity >= 2) && forall n :: n in gridSizes ==> n >= 1 }
  }

  datatype ParentAlternative = ParentAlternative(
    generation: nat, operatorId: Id, parents: seq<Digest>, offset: nat, seed: int, slot: nat)

  datatype ParameterAlternative = ParameterAlternative(
    generation: nat, operatorId: Id, indices: seq<nat>, offset: nat, seed: int, slot: nat)

  /** What of a search is fixed before it starts and decides the alternatives. */
  datatype Plan = Plan(
    schedule: seq<Id>, operators: map<Id, Operator>, seed: int, offspring: nat,
    parentHash: ParentAlternative -> Digest, parameterHash: ParameterAlternative -> Digest)
  {
    ghost predicate Valid() {
      && schedule != [] && offspring >= 1
      && (forall id :: id in schedule ==> id in operators)
      && (forall id :: id in operators ==> operators[id].operatorId == id && operators[id].Valid())
    }

    function OperatorAt(generation: nat, slot: nat, offset: nat): Operator
      requires Valid()
    {
      operators[schedule[Rotated(generation * offspring + slot, offset, |schedule|)]]
    }
  }

  // ---------------------------------------------------------------- rotation

  function Rotated(base: nat, offset: nat, length: nat): (position: nat)
    requires length > 0
    ensures position < length
  {
    (base + offset) % length
  }

  lemma {:induction false} RemainderOf(x: nat, n: nat, r: nat, q: nat)
    requires n > 0 && r < n && x == q * n + r
    ensures x % n == r
  {
    assert x / n == q by {
      if x / n < q { LessQuotient(x / n, q, n); }
      if x / n > q { LessQuotient(q, x / n, n); }
    }
  }

  lemma {:induction false} LessQuotient(a: nat, b: nat, n: nat)
    requires a < b
    ensures a * n + n <= b * n
    decreases b
  {
    OneFactorMore(b - 1, n);
    if a < b - 1 { LessQuotient(a, b - 1, n); }
  }

  lemma {:induction false} OneFactorMore(a: nat, n: nat)
    ensures (a + 1) * n == a * n + n
  {
  }

  /** A slot's offsets visit each position of the schedule exactly once. */
  lemma {:induction false} RotationVisitsEach(base: nat, length: nat, position: nat) returns (offset: nat)
    requires position < length
    ensures offset < length && Rotated(base, offset, length) == position
    ensures forall other: nat :: other < length && Rotated(base, other, length) == position ==> other == offset
  {
    var start, laps := base % length, base / length;
    offset := if position >= start then position - start else position + length - start;
    RotatedIs(base, length, offset);
    forall other: nat | other < length && Rotated(base, other, length) == position ensures other == offset {
      RotatedIs(base, length, other);
    }
  }

  lemma {:induction false} RotatedIs(base: nat, length: nat, offset: nat)
    requires offset < length
    ensures var start := base % length;
      Rotated(base, offset, length) == if start + offset < length then start + offset else start + offset - length
  {
    var start, laps := base % length, base / length;
    assert base == laps * length + start;
    if start + offset < length {
      RemainderOf(base + offset, length, start + offset, laps);
    } else {
      assert (laps + 1) * length == laps * length + length;
      RemainderOf(base + offset, length, start + offset - length, laps + 1);
    }
  }

  // ---------------------------------------------------------------- parent tuples

  /** `itertools.combinations` of some digests. */
  function CombosOf(items: seq<Digest>, k: nat): seq<seq<Digest>> {
    if k == 0 then [[]]
    else if items == [] then []
    else Prefixed(items[0], CombosOf(items[1..], k - 1)) + CombosOf(items[1..], k)
  }

  function Without(items: seq<Digest>, i: nat): (r: seq<Digest>)
    requires i < |items|
    ensures |r| == |items| - 1
  {
    items[..i] + items[i + 1..]
  }

  /** `itertools.permutations` of some digests. */
  function Arrangements(items: seq<Digest>, k: nat): seq<seq<Digest>>
    decreases k, |items| + 1
  {
    if k == 0 then [[]] else ArrangementsFrom(items, k, 0)
  }

  function ArrangementsFrom(items: seq<Digest>, k: nat, i: nat): seq<seq<Digest>>
    requires k > 0 && i <= |items|
    decreases k, |items| - i
  {
    if i == |items| then []
    else Prefixed(items[i], Arrangements(Without(items, i), k - 1)) + ArrangementsFrom(items, k, i + 1)
  }

  ghost predicate DrawnFrom(p: seq<Digest>, items: seq<Digest>, k: nat) {
    |p| == k && NoDuplicates(p) && forall x :: x in p ==> x in items
  }

  lemma {:induction false} ConsDrawn(p: seq<Digest>, items: seq<Digest>, k: nat)
    requires p != [] && k > 0
    ensures DrawnFrom(p, items, k)
       <==> p[0] in items && p[0] !in p[1..] && DrawnFrom(p[1..], items, k - 1)
  {
    var t := p[1..];
    assert p == [p[0]] + t;
    if p[0] in items && p[0] !in t && DrawnFrom(t, items, k - 1) {
      forall i, j | 0 <= i < j < |p| ensures p[i] != p[j] {
        assert p[j] == t[j - 1];
        if i > 0 { assert p[i] == t[i - 1]; }
      }
    }
    if DrawnFrom(p, items, k) {
      forall i, j | 0 <= i < j < |t| ensures t[i] != t[j] { assert t[i] == p[i + 1] && t[j] == p[j + 1]; }
    }
  }

  lemma {:induction false} AscendingCons(p: seq<nat>)
    requires p != []
    ensures Ascending(p) <==> Ascending(p[1..]) && forall x :: x in p[1..] ==> p[0] < x
  {
    var t := p[1..];
    if Ascending(t) && forall x :: x in t ==> p[0] < x {
      forall i, j | 0 <= i < j < |p| ensures p[i] < p[j] {
        assert p[j] == t[j - 1];
        assert t[j - 1] in t;
        if i > 0 { assert p[i] == t[i - 1]; }
      }
    }
  }

  lemma {:induction false} AscendingIsDistinct(p: seq<nat>)
    requires Ascending(p)
    ensures NoDuplicates(p)
  {
  }

  /** Of ascending items, the combinations are the ascending tuples drawn from them. */
  lemma {:induction false} CombosAre(p: seq<Digest>, items: seq<Digest>, k: nat)
    requires Ascending(items)
    ensures p in CombosOf(items, k) <==> |p| == k && Ascending(p) && forall x :: x in p ==> x in items
  {
    hide CombosOf;
    if k == 0 {
      NoItems(items, p);
    } else if items == [] {
      NoCombos(k);
      if |p| == k { assert p[0] in p; }
    } else {
      var rest := items[1..];
      AscendingCons(items);
      assert items == [items[0]] + rest;
      CombosSplit(items, k);
      PrefixedMembers(p, items[0], CombosOf(rest, k - 1));
      CombosAre(p, rest, k);
      if p != [] {
        CombosAre(p[1..], rest, k - 1);
        ChoiceCases(p, items);
      }
    }
  }

  lemma {:induction false} ChoiceCases(p: seq<Digest>, items: seq<Digest>)
    requires Ascending(items) && items != [] && p != []
    ensures Ascending(p) && (forall x :: x in p ==> x in items)
       <==> (p[0] == items[0] && Ascending(p[1..]) && forall x :: x in p[1..] ==> x in items[1..])
            || (Ascending(p) && forall x :: x in p ==> x in items[1..])
  {
    var rest := items[1..];
    AscendingCons(items);
    AscendingCons(p);
    assert items == [items[0]] + rest;
    assert p == [p[0]] + p[1..];
    if Ascending(p) && forall x :: x in p ==> x in items {
      assert p[0] in p;
      if p[0] == items[0] {
        forall x | x in p[1..] ensures x in rest { assert x in p; assert p[0] < x; }
      } else {
        assert p[0] in rest;
        forall x | x in p ensures x in rest { assert x == p[0] || x in p[1..]; }
      }
    }
  }

  lemma {:induction false} NoItems(items: seq<Digest>, p: seq<Digest>)
    ensures CombosOf(items, 0) == [[]] && (|p| == 0 <==> p == [])
  {
  }

  lemma {:induction false} NoCombos(k: nat)
    requires k > 0
    ensures CombosOf([], k) == []
  {
  }

  lemma {:induction false} CombosSplit(items: seq<Digest>, k: nat)
    requires items != [] && k > 0
    ensures CombosOf(items, k) == Prefixed(items[0], CombosOf(items[1..], k - 1)) + CombosOf(items[1..], k)
  {
  }

  lemma {:induction false} ConcatDistinct<T>(a: seq<T>, b: seq<T>)
    requires NoDuplicates(a) && NoDuplicates(b) && forall x :: x in a ==> x !in b
    ensures NoDuplicates(a + b)
  {
    var c := a + b;
    forall i, j | 0 <= i < j < |c| ensures c[i] != c[j] {
      if i < |a| <= j {
        assert a[i] in a;
        assert b[j - |a|] in b;
      }
    }
  }

  lemma {:induction false} PrefixedDistinct(x: nat, s: seq<seq<nat>>)
    requires NoDuplicates(s)
    ensures NoDuplicates(Prefixed(x, s))
  {
    var p := Prefixed(x, s);
    forall i, j | 0 <= i < j < |p| ensures p[i] != p[j] { assert p[i][1..] == s[i] && p[j][1..] == s[j]; }
  }

  lemma {:induction false} CombosDistinct(items: seq<Digest>, k: nat)
    requires Ascending(items)
    ensures NoDuplicates(CombosOf(items, k))
  {
    if k > 0 && items != [] {
      var rest := items[1..];
      AscendingCons(items);
      CombosDistinct(rest, k - 1);
      CombosDistinct(rest, k);
      PrefixedDistinct(items[0], CombosOf(rest, k - 1));
      forall p | p in Prefixed(items[0], CombosOf(rest, k - 1)) ensures p !in CombosOf(rest, k) {
        PrefixedMembers(p, items[0], CombosOf(rest, k - 1));
        CombosAre(p, rest, k);
        assert p[0] in p;
      }
      ConcatDistinct(Prefixed(items[0], CombosOf(rest, k - 1)), CombosOf(rest, k));
    }
  }

  lemma {:induction false} WithoutMembers(items: seq<Digest>, i: nat)
    requires i < |items| && NoDuplicates(items)
    ensures NoDuplicates(Without(items, i)) && forall x :: x in Without(items, i) <==> x in items && x != items[i]
  {
    var w := Without(items, i);
    forall x ensures x in w <==> x in items && x != items[i] {
      if x in w {
        var j :| 0 <= j < |w| && w[j] == x;
        assert x == items[if j < i then j else j + 1];
      }
      if x in items && x != items[i] {
        var j :| 0 <= j < |items| && items[j] == x;
        assert w[if j < i then j else j - 1] == x;
      }
    }
  }

  lemma {:induction false} DrawnWithout(t: seq<Digest>, items: seq<Digest>, i: nat, k: nat)
    requires i < |items| && NoDuplicates(items)
    ensures DrawnFrom(t, Without(items, i), k) <==> DrawnFrom(t, items, k) && items[i] !in t
  {
    WithoutMembers(items, i);
  }

  /** Of distinct items, the permutations are the repetition-free tuples drawn from them. */
  lemma {:induction false} ArrangementsAre(p: seq<Digest>, items: seq<Digest>, k: nat)
    requires NoDuplicates(items)
    ensures p in Arrangements(items, k) <==> DrawnFrom(p, items, k)
    decreases k, |items| + 1
  {
    if k == 0 {
      assert |p| == 0 <==> p == [];
    } else {
      ArrangementsFromAre(p, items, k, 0);
      if |p| == k { assert p[0] in p; }
    }
  }

  lemma {:induction false} ArrangementsFromAre(p: seq<Digest>, items: seq<Digest>, k: nat, i: nat)
    requires NoDuplicates(items) && k > 0 && i <= |items|
    ensures p in ArrangementsFrom(items, k, i) <==> DrawnFrom(p, items, k) && p[0] in items[i..]
    decreases k, |items| - i
  {
    hide DrawnFrom, Arrangements, NoDuplicates, ArrangementsFrom;
    if |p| != k { NotDrawn(p, items, k); }
    ArrangementsSplit(items, k, i);
    if i < |items| {
      ArrangementsFromAre(p, items, k, i + 1);
      WithoutDistinct(items, i);
      var firsts := Arrangements(Without(items, i), k - 1);
      PrefixedMembers(p, items[i], firsts);
      if p != [] {
        assert p[0] in items[i..] <==> p[0] == items[i] || p[0] in items[i + 1..];
        ArrangementsAre(p[1..], Without(items, i), k - 1);
        DrawnWithout(p[1..], items, i, k - 1);
        ConsDrawn(p, items, k);
      }
    }
  }

  lemma {:induction false} ArrangementsSplit(items: seq<Digest>, k: nat, i: nat)
    requires k > 0 && i <= |items|
    ensures ArrangementsFrom(items, k, i)
         == if i == |items| then []
            else Prefixed(items[i], Arrangements(Without(items, i), k - 1)) + ArrangementsFrom(items, k, i + 1)
  {
  }

  lemma {:induction false} NotDrawn(p: seq<Digest>, items: seq<Digest>, k: nat)
    requires |p| != k
    ensures !DrawnFrom(p, items, k)
  {
  }

  lemma {:induction false} WithoutDistinct(items: seq<Digest>, i: nat)
    requires i < |items| && NoDuplicates(items)
    ensures NoDuplicates(Without(items, i))
  {
    WithoutMembers(items, i);
  }

  lemma {:induction false} ArrangementsDistinct(items: seq<Digest>, k: nat)
    requires NoDuplicates(items)
    ensures NoDuplicates(Arrangements(items, k))
    decreases k, |items| + 1
  {
    if k > 0 { ArrangementsFromDistinct(items, k, 0); }
  }

  lemma {:induction false} ArrangementsFromDistinct(items: seq<Digest>, k: nat, i: nat)
    requires NoDuplicates(items) && k > 0 && i <= |items|
    ensures NoDuplicates(ArrangementsFrom(items, k, i))
    decreases k, |items| - i
  {
    hide DrawnFrom, Arrangements;
    if i < |items| {
      WithoutDistinct(items, i);
      var firsts := Arrangements(Without(items, i), k - 1);
      ArrangementsDistinct(Without(items, i), k - 1);
      ArrangementsFromDistinct(items, k, i + 1);
      PrefixedDistinct(items[i], firsts);
      forall p | p in Prefixed(items[i], firsts) ensures p !in ArrangementsFrom(items, k, i + 1) {
        PrefixedMembers(p, items[i], firsts);
        ArrangementsFromAre(p, items, k, i + 1);
      }
      ConcatDistinct(Prefixed(items[i], firsts), ArrangementsFrom(items, k, i + 1));
    }
  }

  predicate NatLe(a: nat, b: nat) { a <= b }

  function ParentTuples(op: Operator, pool: seq<Digest>): seq<seq<Digest>> {
    if op.arity > |pool| then []
    else if op.arity == 0 then [[]]
    else if op.commutative then CombosOf(Sort(pool, NatLe), op.arity)
    else Arrangements(pool, op.arity)
  }

  ghost predicate LegalParents(op: Operator, pool: seq<Digest>, p: seq<Digest>) {
    DrawnFrom(p, pool, op.arity) && (op.commutative ==> Ascending(p))
  }

  lemma {:induction false} SortedAscending(pool: seq<Digest>)
    requires NoDuplicates(pool)
    ensures Ascending(Sort(pool, NatLe)) && forall x :: x in Sort(pool, NatLe) <==> x in pool
  {
    hide Sort;
    SortSorts(pool, NatLe);
    SortMembers(pool, NatLe);
    SortKeepsDistinct(pool, NatLe);
    var s := Sort(pool, NatLe);
    forall i, j | 0 <= i < j < |s| ensures s[i] < s[j] { assert NatLe(s[i], s[j]); }
  }

  function Members(s: seq<Digest>): set<Digest> { set x | x in s }

  lemma {:induction false} MembersSize(s: seq<Digest>)
    ensures |Members(s)| <= |s| && (NoDuplicates(s) ==> |Members(s)| == |s|)
  {
    if s != [] {
      var front := s[..|s| - 1];
      MembersSize(front);
      assert s == front + [s[|s| - 1]];
      assert Members(s) == Members(front) + {s[|s| - 1]};
      if NoDuplicates(s) { assert s[|s| - 1] !in front; }
    }
  }

  lemma {:induction false} TooManyParents(p: seq<Digest>, pool: seq<Digest>, k: nat)
    requires k > |pool|
    ensures !DrawnFrom(p, pool, k)
  {
    MembersSize(p);
    MembersSize(pool);
    if forall x :: x in p ==> x in pool { SubsetSize(Members(p), Members(pool)); }
  }

  lemma {:induction false} SubsetSize(a: set<Digest>, b: set<Digest>)
    requires a <= b
    ensures |a| <= |b|
  {
    assert b == a + (b - a);
  }

  /** The tuples tried are exactly the legal ones, each once. */
  lemma {:induction false} ParentTuplesAre(op: Operator, pool: seq<Digest>, p: seq<Digest>)
    requires NoDuplicates(pool)
    ensures p in ParentTuples(op, pool) <==> LegalParents(op, pool, p)
  {
    hide Sort, CombosOf, Arrangements;
    if op.arity > |pool| {
      TooManyParents(p, pool, op.arity);
    } else if op.arity == 0 {
      assert |p| == 0 <==> p == [];
    } else if op.commutative {
      SortedAscending(pool);
      CombosAre(p, Sort(pool, NatLe), op.arity);
      if Ascending(p) { AscendingIsDistinct(p); }
    } else {
      ArrangementsAre(p, pool, op.arity);
    }
  }

  lemma {:induction false} ParentTuplesDistinct(op: Operator, pool: seq<Digest>)
    requires NoDuplicates(pool)
    ensures NoDuplicates(ParentTuples(op, pool))
  {
    hide Sort, CombosOf, Arrangements;
    if 0 < op.arity <= |pool| {
      if op.commutative {
        SortedAscending(pool);
        CombosDistinct(Sort(pool, NatLe), op.arity);
      } else {
        ArrangementsDistinct(pool, op.arity);
      }
    }
  }

  // ---------------------------------------------------------------- parameter vectors

  /** `itertools.product` of the index ranges. */
  function Vectors(sizes: seq<nat>): seq<seq<nat>>
    decreases |sizes|, 0
  {
    if sizes == [] then [[]] else VectorsFrom(sizes, 0)
  }

  function VectorsFrom(sizes: seq<nat>, first: nat): seq<seq<nat>>
    requires sizes != [] && first <= sizes[0]
    decreases |sizes| - 1, 1, sizes[0] - first
  {
    if first == sizes[0] then [] else Prefixed(first, Vectors(sizes[1..])) + VectorsFrom(sizes, first + 1)
  }

  ghost predicate LegalIndices(sizes: seq<nat>, v: seq<nat>) {
    |v| == |sizes| && forall i :: 0 <= i < |v| ==> v[i] < sizes[i]
  }

  lemma {:induction false} ConsLegal(sizes: seq<nat>, v: seq<nat>)
    requires sizes != [] && v != []
    ensures LegalIndices(sizes, v) <==> v[0] < sizes[0] && LegalIndices(sizes[1..], v[1..])
  {
    if v[0] < sizes[0] && LegalIndices(sizes[1..], v[1..]) {
      forall i | 0 <= i < |v| ensures v[i] < sizes[i] { if i > 0 { assert v[i] == v[1..][i - 1]; } }
    }
  }

  lemma {:induction false} VectorsAre(sizes: seq<nat>, v: seq<nat>)
    ensures v in Vectors(sizes) <==> LegalIndices(sizes, v)
    decreases |sizes|, 0
  {
    if sizes == [] {
      assert |v| == 0 <==> v == [];
    } else {
      VectorsFromAre(sizes, 0, v);
    }
  }

  lemma {:induction false} VectorsFromAre(sizes: seq<nat>, first: nat, v: seq<nat>)
    requires sizes != [] && first <= sizes[0]
    ensures v in VectorsFrom(sizes, first) <==> LegalIndices(sizes, v) && v[0] >= first
    decreases |sizes| - 1, 1, sizes[0] - first
  {
    hide Vectors, LegalIndices, VectorsFrom;
    if v == [] { NoVector(sizes); } else { ConsLegal(sizes, v); }
    VectorsSplit(sizes, first);
    if first < sizes[0] {
      VectorsFromAre(sizes, first + 1, v);
      PrefixedMembers(v, first, Vectors(sizes[1..]));
      if v != [] { VectorsAre(sizes[1..], v[1..]); }
    }
  }

  lemma {:induction false} VectorsSplit(sizes: seq<nat>, first: nat)
    requires sizes != [] && first <= sizes[0]
    ensures VectorsFrom(sizes, first)
         == if first == sizes[0] then [] else Prefixed(first, Vectors(sizes[1..])) + VectorsFrom(sizes, first + 1)
  {
  }

  lemma {:induction false} NoVector(sizes: seq<nat>)
    requires sizes != []
    ensures !LegalIndices(sizes, [])
  {
  }

  lemma {:induction false} VectorsDistinct(sizes: seq<nat>)
    ensures NoDuplicates(Vectors(sizes))
    decreases |sizes|, 0
  {
    if sizes != [] { VectorsFromDistinct(sizes, 0); }
  }

  lemma {:induction false} VectorsFromDistinct(sizes: seq<nat>, first: nat)
    requires sizes != [] && first <= sizes[0]
    ensures NoDuplicates(VectorsFrom(sizes, first))
    decreases |sizes| - 1, 1, sizes[0] - first
  {
    hide Vectors, LegalIndices;
    if first < sizes[0] {
      var tails := Vectors(sizes[1..]);
      VectorsDistinct(sizes[1..]);
      VectorsFromDistinct(sizes, first + 1);
      PrefixedDistinct(first, tails);
      forall v | v in Prefixed(first, tails) ensures v !in VectorsFrom(sizes, first + 1) {
        PrefixedMembers(v, first, tails);
        VectorsFromAre(sizes, first + 1, v);
      }
      ConcatDistinct(Prefixed(first, tails), VectorsFrom(sizes, first + 1));
    }
  }

  // ---------------------------------------------------------------- the alternatives of a slot

  function AsParents(plan: Plan, generation: nat, slot: nat, offset: nat, id: Id, tuples: seq<seq<Digest>>): (r: seq<ParentAlternative>)
    ensures |r| == |tuples|
    ensures forall i :: 0 <= i < |r| ==> r[i] == ParentAlternative(generation, id, tuples[i], offset, plan.seed, slot)
  {
    if tuples == [] then []
    else [ParentAlternative(generation, id, tuples[0], offset, plan.seed, slot)] + AsParents(plan, generation, slot, offset, id, tuples[1..])
  }

  function AsParameters(plan: Plan, generation: nat, slot: nat, offset: nat, id: Id, vectors: seq<seq<nat>>): (r: seq<ParameterAlternative>)
    ensures |r| == |vectors|
    ensures forall i :: 0 <= i < |r| ==> r[i] == ParameterAlternative(generation, id, vectors[i], offset, plan.seed, slot)
  {
    if vectors == [] then []
    else [ParameterAlternative(generation, id, vectors[0], offset, plan.seed, slot)] + AsParameters(plan, generation, slot, offset, id, vectors[1..])
  }

  function ParentAlternatives(plan: Plan, generation: nat, slot: nat, offset: nat, op: Operator, pool: seq<Digest>): seq<ParentAlternative> {
    Sort(AsParents(plan, generation, slot, offset, op.operatorId, ParentTuples(op, pool)),
         (a: ParentAlternative, b: ParentAlternative) =>
           plan.parentHash(a) < plan.parentHash(b) || (plan.parentHash(a) == plan.parentHash(b) && LexLe(a.parents, b.parents)))
  }

  function ParameterAlternatives(plan: Plan, generation: nat, slot: nat, offset: nat, op: Operator): seq<ParameterAlternative> {
    Sort(AsParameters(plan, generation, slot, offset, op.operatorId, Vectors(op.gridSizes)),
         (a: ParameterAlternative, b: ParameterAlternative) =>
           plan.parameterHash(a) < plan.parameterHash(b) || (plan.parameterHash(a) == plan.parameterHash(b) && LexLe(a.indices, b.indices)))
  }

  datatype Alternative = Alternative(operator: Operator, parent: ParentAlternative, parameter: ParameterAlternative)

  function Row(op: Operator, parent: ParentAlternative, parameters: seq<ParameterAlternative>): (r: seq<Alternative>)
    ensures |r| == |parameters|
    ensures forall i :: 0 <= i < |r| ==> r[i] == Alternative(op, parent, parameters[i])
  {
    if parameters == [] then []
    else Row(op, parent, parameters[..|parameters| - 1]) + [Alternative(op, parent, parameters[|parameters| - 1])]
  }

  function Block(op: Operator, parents: seq<ParentAlternative>, parameters: seq<ParameterAlternative>): seq<Alternative> {
    if parents == [] then []
    else Block(op, parents[..|parents| - 1], parameters) + Row(op, parents[|parents| - 1], parameters)
  }

  /** Everything one slot tries at its first `offsets` schedule offsets, in order. */
  function Alternatives(plan: Plan, generation: nat, slot: nat, pool: seq<Digest>, offsets: nat): seq<Alternative>
    requires plan.Valid()
  {
    if offsets == 0 then []
    else
      var op := plan.OperatorAt(generation, slot, offsets - 1);
      Alternatives(plan, generation, slot, pool, offsets - 1)
      + Block(op, ParentAlternatives(plan, generation, slot, offsets - 1, op, pool),
              ParameterAlternatives(plan, generation, slot, offsets - 1, op))
  }

  lemma {:induction false} ParentAlternativesAre(plan: Plan, generation: nat, slot: nat, offset: nat, op: Operator, pool: seq<Digest>,
                                                 a: ParentAlternative)
    requires NoDuplicates(pool)
    ensures a in ParentAlternatives(plan, generation, slot, offset, op, pool)
       <==> a == ParentAlternative(generation, op.operatorId, a.parents, offset, plan.seed, slot) && LegalParents(op, pool, a.parents)
    ensures NoDuplicates(ParentAlternatives(plan, generation, slot, offset, op, pool))
  {
    hide Sort, ParentTuples, LegalParents, LexLe;
    var le := (a: ParentAlternative, b: ParentAlternative) =>
      plan.parentHash(a) < plan.parentHash(b) || (plan.parentHash(a) == plan.parentHash(b) && LexLe(a.parents, b.parents));
    var tuples := ParentTuples(op, pool);
    var all := AsParents(plan, generation, slot, offset, op.operatorId, tuples);
    ParentTuplesAre(op, pool, a.parents);
    ParentTuplesDistinct(op, pool);
    if a in all { var i :| 0 <= i < |all| && all[i] == a; }
    if a.parents in tuples {
      var i :| 0 <= i < |tuples| && tuples[i] == a.parents;
      assert all[i] in all;
    }
    SortMembers(all, le);
    assert NoDuplicates(all);
    SortKeepsDistinct(all, le);
  }

  lemma {:induction false} ParameterAlternativesAre(plan: Plan, generation: nat, slot: nat, offset: nat, op: Operator, a: ParameterAlternative)
    ensures a in ParameterAlternatives(plan, generation, slot, offset, op)
       <==> a == ParameterAlternative(generation, op.operatorId, a.indices, offset, plan.seed, slot) && LegalIndices(op.gridSizes, a.indices)
    ensures NoDuplicates(ParameterAlternatives(plan, generation, slot, offset, op))
  {
    hide Sort, Vectors, LegalIndices, LexLe;
    var le := (a: ParameterAlternative, b: ParameterAlternative) =>
      plan.parameterHash(a) < plan.parameterHash(b) || (plan.parameterHash(a) == plan.parameterHash(b) && LexLe(a.indices, b.indices));
    var vectors := Vectors(op.gridSizes);
    var all := AsParameters(plan, generation, slot, offset, op.operatorId, vectors);
    VectorsAre(op.gridSizes, a.indices);
    VectorsDistinct(op.gridSizes);
    if a in all { var i :| 0 <= i < |all| && all[i] == a; }
    if a.indices in vectors {
      var i :| 0 <= i < |vectors| && vectors[i] == a.indices;
      assert all[i] in all;
    }
    SortMembers(all, le);
    assert NoDuplicates(all);
    SortKeepsDistinct(all, le);
  }

  lemma {:induction false} RowMembers(op: Operator, parent: ParentAlternative, parameters: seq<ParameterAlternative>, a: Alternative)
    ensures a in Row(op, parent, parameters) <==> a.operator == op && a.parent == parent && a.parameter in parameters
    ensures NoDuplicates(parameters) ==> NoDuplicates(Row(op, parent, parameters))
  {
    hide Row;
    var r := Row(op, parent, parameters);
    if a.operator == op && a.parent == parent && a.parameter in parameters {
      var i :| 0 <= i < |parameters| && parameters[i] == a.parameter;
      assert r[i] == a;
    }
    if a in r { var i :| 0 <= i < |r| && r[i] == a; assert parameters[i] in parameters; }
  }

  lemma {:induction false} BlockMembers(op: Operator, parents: seq<ParentAlternative>, parameters: seq<ParameterAlternative>, a: Alternative)
    ensures a in Block(op, parents, parameters) <==> a.operator == op && a.parent in parents && a.parameter in parameters
  {
    hide Row;
    if parents != [] {
      var front, last := parents[..|parents| - 1], parents[|parents| - 1];
      assert parents == front + [last];
      BlockMembers(op, front, parameters, a);
      RowMembers(op, last, parameters, a);
    }
  }

  lemma {:induction false} BlockDistinct(op: Operator, parents: seq<ParentAlternative>, parameters: seq<ParameterAlternative>)
    requires NoDuplicates(parents) && NoDuplicates(parameters)
    ensures NoDuplicates(Block(op, parents, parameters))
  {
    hide Row;
    if parents != [] {
      var front, last := parents[..|parents| - 1], parents[|parents| - 1];
      BlockDistinct(op, front, parameters);
      forall a | a in Block(op, front, parameters) ensures a !in Row(op, last, parameters) {
        BlockMembers(op, front, parameters, a);
        RowMembers(op, last, parameters, a);
        assert last !in front;
      }
      assert NoDuplicates(Row(op, last, parameters)) by {
        if parameters != [] { RowMembers(op, last, parameters, Alternative(op, last, parameters[0])); }
      }
      ConcatDistinct(Block(op, front, parameters), Row(op, last, parameters));
    }
  }

  /** A legal choice for a slot: an operator of the rotation, a legal tuple of
      frozen parents and one point of its parameter grid. */
  ghost predicate Legal(plan: Plan, generation: nat, slot: nat, pool: seq<Digest>, a: Alternative, offset: nat)
    requires plan.Valid()
  {
    && a.operator == plan.OperatorAt(generation, slot, offset)
    && a.parent == ParentAlternative(generation, a.operator.operatorId, a.parent.parents, offset, plan.seed, slot)
    && LegalParents(a.operator, pool, a.parent.parents)
    && a.parameter == ParameterAlternative(generation, a.operator.operatorId, a.parameter.indices, offset, plan.seed, slot)
    && LegalIndices(a.operator.gridSizes, a.parameter.indices)
  }

  /** A slot tries exactly the legal alternatives, each of them once. */
  lemma {:induction false} AlternativesAre(plan: Plan, generation: nat, slot: nat, pool: seq<Digest>, offsets: nat, a: Alternative)
    requires plan.Valid() && NoDuplicates(pool)
    ensures a in Alternatives(plan, generation, slot, pool, offsets)
       <==> a.parent.offset < offsets && Legal(plan, generation, slot, pool, a, a.parent.offset)
  {
    hide LegalParents, LegalIndices, Block, ParentAlternatives, ParameterAlternatives, NoDuplicates;
    if offsets > 0 {
      var last := offsets - 1;
      AlternativesAre(plan, generation, slot, pool, last, a);
      var op := plan.OperatorAt(generation, slot, last);
      BlockMembers(op, ParentAlternatives(plan, generation, slot, last, op, pool), ParameterAlternatives(plan, generation, slot, last, op), a);
      ParentAlternativesAre(plan, generation, slot, last, op, pool, a.parent);
      ParameterAlternativesAre(plan, generation, slot, last, op, a.parameter);
    }
  }

  lemma {:induction false} AlternativesDistinct(plan: Plan, generation: nat, slot: nat, pool: seq<Digest>, offsets: nat)
    requires plan.Valid() && NoDuplicates(pool)
    ensures NoDuplicates(Alternatives(plan, generation, slot, pool, offsets))
  {
    hide Legal, Block, ParentAlternatives, ParameterAlternatives, NoDuplicates;
    if offsets > 0 {
      var last := offsets - 1;
      AlternativesDistinct(plan, generation, slot, pool, last);
      var op := plan.OperatorAt(generation, slot, last);
      var parents, parameters := ParentAlternatives(plan, generation, slot, last, op, pool), ParameterAlternatives(plan, generation, slot, last, op);
      AllDistinct(plan, generation, slot, last, op, pool);
      BlockDistinct(op, parents, parameters);
      var before, block := Alternatives(plan, generation, slot, pool, last), Block(op, parents, parameters);
      forall a | a in before ensures a !in block {
        AlternativesAre(plan, generation, slot, pool, last, a);
        BlockMembers(op, parents, parameters, a);
        ParentAlternativesAre(plan, generation, slot, last, op, pool, a.parent);
      }
      ConcatDistinct(before, block);
    } else {
      assert NoDuplicates<Alternative>([]) by { NothingRepeats<Alternative>(); }
    }
  }

  lemma {:induction false} NothingRepeats<T>()
    ensures NoDuplicates<T>([])
  {
  }

  lemma {:induction false} AllDistinct(plan: Plan, generation: nat, slot: nat, offset: nat, op: Operator, pool: seq<Digest>)
    requires NoDuplicates(pool)
    ensures NoDuplicates(ParentAlternatives(plan, generation, slot, offset, op, pool))
    ensures NoDuplicates(ParameterAlternatives(plan, generation, slot, offset, op))
  {
    ParentAlternativesAre(plan, generation, slot, offset, op, pool, ParentAlternative(0, [], [], 0, 0, 0));
    ParameterAlternativesAre(plan, generation, slot, offset, op, ParameterAlternative(0, [], [], 0, 0, 0));
  }
}
