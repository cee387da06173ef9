/** `itertools.combinations` of a range: every k-subset once, in lexicographic
    order, and the reversal that taking complements performs on that order. */
module Subsets {
  import opened Ordering

  function Prefixed(x: nat, s: seq<seq<nat>>): (r: seq<seq<nat>>)
    ensures |r| == |s|
    ensures forall i :: 0 <= i < |s| ==> r[i] == [x] + s[i]
  {
    if s == [] then [] else [[x] + s[0]] + Prefixed(x, s[1..])
  }

  /** The k-element subsets of lo..n, each ascending. */
  function Combinations(lo: nat, n: nat, k: nat): seq<seq<nat>>
    requires lo <= n
    decreases n - lo
  {
    if k == 0 then [[]]
    else if lo == n then []
    else Prefixed(lo, Combinations(lo + 1, n, k - 1)) + Combinations(lo + 1, n, k)
  }

  ghost predicate Ascending(c: seq<nat>) {
    forall i, j :: 0 <= i < j < |c| ==> c[i] < c[j]
  }

  ghost predicate IsCombination(c: seq<nat>, lo: nat, n: nat, k: nat) {
    |c| == k && Ascending(c) && forall i :: 0 <= i < |c| ==> lo <= c[i] < n
  }

  lemma {:induction false} PrefixedMembers(c: seq<nat>, x: nat, s: seq<seq<nat>>)
    ensures c in Prefixed(x, s) <==> c != [] && c[0] == x && c[1..] in s
  {
    var p := Prefixed(x, s);
    if c in p {
      var i :| 0 <= i < |s| && p[i] == c;
      assert c[1..] == s[i];
    }
    if c != [] && c[0] == x && c[1..] in s {
      var i :| 0 <= i < |s| && s[i] == c[1..];
      assert p[i] == c;
    }
  }

  lemma {:induction false} CombinationCases(c: seq<nat>, lo: nat, n: nat, k: nat)
    requires lo < n && k > 0
    ensures IsCombination(c, lo, n, k)
       <==> (c != [] && c[0] == lo && IsCombination(c[1..], lo + 1, n, k - 1)) || IsCombination(c, lo + 1, n, k)
  {
    if c != [] && c[0] == lo && IsCombination(c[1..], lo + 1, n, k - 1) {
      forall i, j | 0 <= i < j < |c| ensures c[i] < c[j] { assert c[j] == c[1..][j - 1]; if i > 0 { assert c[i] == c[1..][i - 1]; } }
      forall i | 0 <= i < |c| ensures lo <= c[i] < n { if i > 0 { assert c[i] == c[1..][i - 1]; } }
    }
  }

  lemma {:induction false} SmallestCases(c: seq<nat>, lo: nat, n: nat, k: nat)
    requires lo <= n && (k == 0 || lo == n)
    ensures c in Combinations(lo, n, k) <==> IsCombination(c, lo, n, k)
  {
    if k == 0 {
      assert Combinations(lo, n, k) == [[]];
      assert |c| == 0 <==> c == [];
    } else {
      assert Combinations(lo, n, k) == [];
      if |c| > 0 { assert !(lo <= c[0] < n); }
    }
  }

  /** Exactly the ascending k-element sequences within the range are listed. */
  lemma {:induction false} CombinationsAre(c: seq<nat>, lo: nat, n: nat, k: nat)
    requires lo <= n
    ensures c in Combinations(lo, n, k) <==> IsCombination(c, lo, n, k)
    decreases n - lo
  {
    hide IsCombination, Combinations;
    if k == 0 || lo == n {
      SmallestCases(c, lo, n, k);
    } else {
      CombinationsSplit(lo, n, k);
      CombinationsAre(c, lo + 1, n, k);
      if c != [] { CombinationsAre(c[1..], lo + 1, n, k - 1); }
      PrefixedMembers(c, lo, Combinations(lo + 1, n, k - 1));
      CombinationCases(c, lo, n, k);
    }
  }

  lemma {:induction false} CombinationsDistinct(lo: nat, n: nat, k: nat)
    requires lo <= n
    ensures NoDuplicates(Combinations(lo, n, k))
    decreases n - lo
  {
    if k > 0 && lo < n {
      var with, without := Combinations(lo + 1, n, k - 1), Combinations(lo + 1, n, k);
      CombinationsDistinct(lo + 1, n, k - 1);
      CombinationsDistinct(lo + 1, n, k);
      var all := Prefixed(lo, with) + without;
      forall i, j | 0 <= i < j < |all| ensures all[i] != all[j] {
        if j < |with| {
          assert all[i][1..] == with[i] && all[j][1..] == with[j];
        } else if i < |with| {
          assert all[i][0] == lo;
          assert all[j] in without;
          CombinationsAre(all[j], lo + 1, n, k);
        }
      }
    }
  }

  /** Combinations come in lexicographic order of their positions. */
  lemma {:induction false} CombinationsAscend(lo: nat, n: nat, k: nat, i: nat, j: nat)
    requires lo <= n && i < j < |Combinations(lo, n, k)|
    ensures LexLe(Combinations(lo, n, k)[i], Combinations(lo, n, k)[j]) && Combinations(lo, n, k)[i] != Combinations(lo, n, k)[j]
    decreases n - lo
  {
    hide LexLe, Combinations;
    CombinationsDistinct(lo, n, k);
    if k == 0 || lo == n {
      FewCombinations(lo, n, k);
    } else {
      var first, rest := Combinations(lo + 1, n, k - 1), Combinations(lo + 1, n, k);
      CombinationsSplit(lo, n, k);
      if j < |first| {
        CombinationsAscend(lo + 1, n, k - 1, i, j);
        SameFirst(lo, first[i], first[j]);
      } else if i >= |first| {
        CombinationsAscend(lo + 1, n, k, i - |first|, j - |first|);
      } else {
        var later := rest[j - |first|];
        assert later in rest;
        CombinationsAre(later, lo + 1, n, k);
        SmallerFirst(lo, first[i], later);
      }
    }
  }

  lemma {:induction false} FewCombinations(lo: nat, n: nat, k: nat)
    requires lo <= n && (k == 0 || lo == n)
    ensures |Combinations(lo, n, k)| <= 1
  {
  }

  lemma {:induction false} SameFirst(x: nat, a: seq<nat>, b: seq<nat>)
    requires LexLe(a, b)
    ensures LexLe([x] + a, [x] + b)
  {
    assert ([x] + a)[1..] == a && ([x] + b)[1..] == b;
  }

  lemma {:induction false} SmallerFirst(x: nat, a: seq<nat>, b: seq<nat>)
    requires b != [] && x < b[0]
    ensures LexLe([x] + a, b)
  {
  }

  function Factorial(n: nat): (r: nat)
    ensures r >= 1
  {
    if n == 0 then 1 else n * Factorial(n - 1)
  }

  /** There are n! / (k! (n-k)!) of them. */
  lemma {:induction false} CombinationsCount(lo: nat, n: nat, k: nat)
    requires lo <= n
    ensures k > n - lo ==> Combinations(lo, n, k) == []
    ensures k <= n - lo ==> |Combinations(lo, n, k)| * (Factorial(k) * Factorial(n - lo - k)) == Factorial(n - lo)
    decreases n - lo
  {
    hide Factorial, Combinations;
    var m := n - lo;
    FactorialStep(0);
    if k == 0 || lo == n {
      SmallestCounts(lo, n, k);
    } else {
      CombinationsSplit(lo, n, k);
      CombinationsCount(lo + 1, n, k - 1);
      CombinationsCount(lo + 1, n, k);
      if k <= m { CountStep(m, k, |Combinations(lo + 1, n, k - 1)|, |Combinations(lo + 1, n, k)|); }
    }
  }

  lemma {:induction false} SmallestCounts(lo: nat, n: nat, k: nat)
    requires lo <= n && (k == 0 || lo == n)
    ensures |Combinations(lo, n, k)| == if k == 0 then 1 else 0
  {
  }

  lemma {:induction false} CountStep(m: nat, k: nat, a: nat, b: nat)
    requires 1 <= k <= m
    requires a * (Factorial(k - 1) * Factorial(m - k)) == Factorial(m - 1)
    requires if k < m then b * (Factorial(k) * Factorial(m - 1 - k)) == Factorial(m - 1) else b == 0
    ensures (a + b) * (Factorial(k) * Factorial(m - k)) == Factorial(m)
  {
    hide Factorial;
    FactorialStep(m - 1);
    FactorialStep(k - 1);
    if k < m {
      FactorialStep(m - k - 1);
      Pascal(a, b, k, m - k, Factorial(k - 1), Factorial(m - k - 1), Factorial(m - 1));
    } else {
      PullOut(a, k, Factorial(k - 1), Factorial(0));
    }
  }

  lemma {:induction false} PullOut(a: nat, k: nat, p: nat, q: nat)
    ensures a * ((k * p) * q) == k * (a * (p * q))
  {
  }

  lemma {:induction false} FactorialStep(n: nat)
    ensures Factorial(0) == 1 && Factorial(n + 1) == (n + 1) * Factorial(n)
  {
  }

  lemma {:induction false} Pascal(a: nat, b: nat, k: nat, l: nat, p: nat, q: nat, f: nat)
    requires a * (p * (l * q)) == f && b * ((k * p) * q) == f
    ensures (a + b) * ((k * p) * (l * q)) == (k + l) * f
  {
    PullOut(a, k, p, l * q);
    PullInner(b, k * p, l, q);
    Distribute(a, b, (k * p) * (l * q));
  }

  lemma {:induction false} PullInner(b: nat, r: nat, l: nat, q: nat)
    ensures b * (r * (l * q)) == l * (b * (r * q))
  {
  }

  lemma {:induction false} Distribute(a: nat, b: nat, c: nat)
    ensures (a + b) * c == a * c + b * c
  {
  }

  /** The positions of lo..n that a subset leaves out, ascending. */
  function Complement(c: seq<nat>, lo: nat, n: nat): seq<nat>
    requires lo <= n
    decreases n - lo
  {
    if lo == n then [] else (if lo in c then [] else [lo]) + Complement(c, lo + 1, n)
  }

  lemma {:induction false} ComplementIsFilter(c: seq<nat>, lo: nat, n: nat)
    requires lo <= n
    ensures Ascending(Complement(c, lo, n))
    ensures forall p :: p in Complement(c, lo, n) <==> lo <= p < n && p !in c
    decreases n - lo
  {
    if lo < n {
      ComplementIsFilter(c, lo + 1, n);
      var rest := Complement(c, lo + 1, n);
      forall j | 0 <= j < |rest| ensures lo < rest[j] { assert rest[j] in rest; }
    }
  }

  lemma {:induction false} ComplementIgnores(x: nat, c: seq<nat>, lo: nat, n: nat)
    requires x < lo <= n
    ensures Complement([x] + c, lo, n) == Complement(c, lo, n)
    decreases n - lo
  {
    if lo < n { ComplementIgnores(x, c, lo + 1, n); }
  }

  lemma {:induction false} CombinationsSplit(lo: nat, n: nat, k: nat)
    requires lo < n
    ensures Combinations(lo, n, k)
         == (if k == 0 then [] else Prefixed(lo, Combinations(lo + 1, n, k - 1))) + Combinations(lo + 1, n, k)
  {
  }

  /** Taking complements turns the list of k-subsets into the list of
      (n-k)-subsets read backwards. */
  lemma {:induction false} ComplementReverses(lo: nat, n: nat, k: nat, i: nat)
    requires lo <= n && k <= n - lo && i < |Combinations(lo, n, k)|
    ensures |Combinations(lo, n, n - lo - k)| == |Combinations(lo, n, k)|
    ensures Complement(Combinations(lo, n, k)[i], lo, n)
         == Combinations(lo, n, n - lo - k)[|Combinations(lo, n, k)| - 1 - i]
    decreases n - lo
  {
    hide Combinations, Complement;
    SameSizes(lo, n, k);
    if lo < n {
      SplitSizes(lo, n, k);
      SplitSizes(lo, n, n - lo - k);
      var a := if k == 0 then 0 else |Combinations(lo + 1, n, k - 1)|;
      if i < a {
        SameSizes(lo + 1, n, k - 1);
        ComplementReverses(lo + 1, n, k - 1, i);
        ComplementWith(lo, n, Combinations(lo + 1, n, k - 1)[i]);
      } else {
        var c := Combinations(lo + 1, n, k)[i - a];
        assert k < n - lo by { CombinationsCount(lo + 1, n, k); }
        SameSizes(lo + 1, n, k);
        ComplementReverses(lo + 1, n, k, i - a);
        CombinationsAre(c, lo + 1, n, k);
        ComplementWithout(lo, n, c);
      }
    } else {
      EmptyRange(lo);
    }
  }

  lemma {:induction false} EmptyRange(n: nat)
    ensures Combinations(n, n, 0) == [[]] && Complement([], n, n) == []
  {
  }

  /** Where each subset of lo..n comes from: those with `lo`, then those without. */
  lemma {:induction false} SplitSizes(lo: nat, n: nat, k: nat)
    requires lo < n && k <= n - lo
    ensures var c, rest := Combinations(lo, n, k), Combinations(lo + 1, n, k);
      var a := if k == 0 then 0 else |Combinations(lo + 1, n, k - 1)|;
      && |c| == a + |rest|
      && (forall j :: 0 <= j < a ==> c[j] == [lo] + Combinations(lo + 1, n, k - 1)[j])
      && (forall j :: a <= j < |c| ==> c[j] == rest[j - a])
  {
    hide Combinations;
    CombinationsSplit(lo, n, k);
  }

  lemma {:induction false} ComplementWith(lo: nat, n: nat, c: seq<nat>)
    requires lo < n
    ensures Complement([lo] + c, lo, n) == Complement(c, lo + 1, n)
  {
    ComplementIgnores(lo, c, lo + 1, n);
  }

  lemma {:induction false} ComplementWithout(lo: nat, n: nat, c: seq<nat>)
    requires lo < n && lo !in c
    ensures Complement(c, lo, n) == [lo] + Complement(c, lo + 1, n)
  {
  }

  lemma {:induction false} SameSizes(lo: nat, n: nat, k: nat)
    requires lo <= n && k <= n - lo
    ensures |Combinations(lo, n, n - lo - k)| == |Combinations(lo, n, k)|
    decreases n - lo
  {
    hide Factorial;
    CombinationsCount(lo, n, k);
    CombinationsCount(lo, n, n - lo - k);
    var p, q := Factorial(k), Factorial(n - lo - k);
    assert p * q == q * p;
    SameQuotient(|Combinations(lo, n, k)|, |Combinations(lo, n, n - lo - k)|, p * q);
  }

  lemma {:induction false} SameQuotient(a: nat, b: nat, d: nat)
    requires d >= 1 && a * d == b * d
    ensures a == b
  {
  }

  /** Ascending sequences are determined by their elements. */
  lemma {:induction false} AscendingUnique(a: seq<nat>, b: seq<nat>)
    requires Ascending(a) && Ascending(b) && forall p :: p in a <==> p in b
    ensures a == b
  {
    if a == [] {
      assert forall i :: 0 <= i < |b| ==> b[i] in a;
    } else {
      assert a[0] in b;
      assert b[0] in a;
      assert a[0] == b[0];
      AscendingTail(a);
      AscendingTail(b);
      AscendingUnique(a[1..], b[1..]);
      assert a == [a[0]] + a[1..] && b == [b[0]] + b[1..];
    }
  }

  lemma {:induction false} AscendingTail(a: seq<nat>)
    requires Ascending(a) && a != []
    ensures Ascending(a[1..]) && forall p :: p in a[1..] <==> p in a && p != a[0]
  {
    assert a == [a[0]] + a[1..];
  }
}
