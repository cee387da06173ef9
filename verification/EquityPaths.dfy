/** Recorded equity paths: their period returns and their drawdown. */
module EquityPaths {
  import opened Outcomes

  predicate Positive(path: seq<real>) { forall i :: 0 <= i < |path| ==> path[i] > 0.0 }

  function Growth(before: real, after: real): real
    requires before != 0.0
  {
    after / before - 1.0
  }

  /** The share of an earlier equity that is missing later. */
  function Decline(before: real, after: real): real
    requires before != 0.0
  {
    (before - after) / before
  }

  // ---------------------------------------------------------------- returns

  /** The return each equity earned over the one recorded before it. */
  function Returns(first: real, path: seq<real>): (r: seq<real>)
    requires first > 0.0 && Positive(path)
    ensures |r| == |path|
  {
    if path == [] then []
    else
      var front := path[..|path| - 1];
      Returns(first, front) + [Growth(LastOf(first, front), path[|path| - 1])]
  }

  function LastOf(first: real, path: seq<real>): (last: real)
    requires first > 0.0 && Positive(path)
    ensures last > 0.0
  {
    if path == [] then first else path[|path| - 1]
  }

  function Compounded(earned: seq<real>): real {
    if earned == [] then 1.0 else Compounded(earned[..|earned| - 1]) * (1.0 + earned[|earned| - 1])
  }

  /** The recorded returns compound to the whole run's growth. */
  lemma {:induction false} ReturnsCompound(first: real, path: seq<real>)
    requires first > 0.0 && Positive(path)
    ensures first * Compounded(Returns(first, path)) == LastOf(first, path)
  {
    if path != [] {
      hide Growth;
      var front, earned := path[..|path| - 1], Returns(first, path);
      ReturnsCompound(first, front);
      assert earned[..|earned| - 1] == Returns(first, front);
      GrowthApplies(first, Compounded(Returns(first, front)), LastOf(first, front), path[|path| - 1]);
    }
  }

  lemma {:induction false} GrowthApplies(first: real, compounded: real, before: real, after: real)
    requires before > 0.0 && first * compounded == before
    ensures first * (compounded * (1.0 + Growth(before, after))) == after
  {
    assert 1.0 + Growth(before, after) == after / before;
    calc {
      first * (compounded * (after / before));
      (first * compounded) * (after / before);
      before * (after / before);
      after;
    }
  }

  // ---------------------------------------------------------------- drawdown

  datatype PathError = EmptyPath | ValueNotPositive

  /** The largest decline from any equity to a later one, and one that is reached. */
  ghost predicate IsMaxDrawdown(path: seq<real>, drawdown: real)
    requires Positive(path)
  {
    && (forall i, j :: 0 <= i <= j < |path| ==> Decline(path[i], path[j]) <= drawdown)
    && exists i, j :: 0 <= i <= j < |path| && Decline(path[i], path[j]) == drawdown
  }

  /** A later value falls furthest below the highest peak before it. */
  lemma {:induction false} HigherPeakDeclinesMore(low: real, peak: real, value: real)
    requires 0.0 < low <= peak && value > 0.0
    ensures Decline(low, value) <= Decline(peak, value) < 1.0
  {
    hide Decline;
    DeclineShare(low, value);
    DeclineShare(peak, value);
    DividedByMore(value, low, peak);
  }

  lemma {:induction false} DeclineShare(before: real, after: real)
    requires before > 0.0
    ensures Decline(before, after) == 1.0 - after / before
  {
    var d, share := Decline(before, after), after / before;
    assert d * before == before - after;
    assert (1.0 - share) * before == before - after by { assert share * before == after; }
    SameFactor(d, 1.0 - share, before);
  }

  lemma {:induction false} SameFactor(a: real, b: real, factor: real)
    requires factor > 0.0 && a * factor >= b * factor
    ensures a >= b && (a * factor == b * factor ==> a == b)
  {
    assert (a - b) * factor >= 0.0;
  }

  lemma {:induction false} Quotient(value: real, divisor: real)
    requires divisor > 0.0 && value > 0.0
    ensures value / divisor > 0.0
  {
  }

  lemma {:induction false} DividedByMore(value: real, low: real, peak: real)
    requires 0.0 < low <= peak && value > 0.0
    ensures value / low >= value / peak > 0.0
  {
    var a, b := value / low, value / peak;
    assert a * low == value && b * peak == value;
    Quotient(value, peak);
    assert b * peak >= b * low;
    SameFactor(a, b, low);
  }

  method MaxDrawdown(equity: seq<real>) returns (r: Result<real, PathError>)
    ensures r == Err(EmptyPath) <==> equity == []
    ensures r == Err(ValueNotPositive) <==> equity != [] && !Positive(equity)
    ensures r.Ok? <==> equity != [] && Positive(equity)
    ensures r.Ok? ==> IsMaxDrawdown(equity, r.value) && 0.0 <= r.value < 1.0
  {
    if equity == [] {
      return Err(EmptyPath);
    }
    var peak, drawdown := equity[0], 0.0;
    ghost var top, from, to := 0, 0, 0;
    var i := 0;
    while i < |equity|
      invariant 0 <= i <= |equity| && Positive(equity[..i])
      invariant i > 0 ==> 0 <= top < i && peak == equity[top] && forall k :: 0 <= k < i ==> equity[k] <= peak
      invariant i == 0 ==> peak == equity[0]
      invariant 0.0 <= drawdown < 1.0 && (i == 0 ==> drawdown == 0.0)
      invariant forall a, b :: 0 <= a <= b < i ==> equity[a] > 0.0 && Decline(equity[a], equity[b]) <= drawdown
      invariant i > 0 ==> 0 <= from <= to < i && equity[from] > 0.0 && Decline(equity[from], equity[to]) == drawdown
    {
      var value := equity[i];
      if value <= 0.0 {
        return Err(ValueNotPositive);
      }
      if i == 0 || value > peak {
        peak, top := value, i;
      }
      forall a | 0 <= a <= i ensures equity[a] > 0.0 && Decline(equity[a], value) <= Decline(peak, value) < 1.0 {
        if a < i { assert equity[..i][a] > 0.0; }
        HigherPeakDeclinesMore(equity[a], peak, value);
      }
      var candidate := (peak - value) / peak;
      if i == 0 { from, to := 0, 0; }
      if candidate > drawdown {
        drawdown, from, to := candidate, top, i;
      }
      assert equity[..i + 1] == equity[..i] + [value];
      i := i + 1;
    }
    assert equity[..i] == equity;
    return Ok(drawdown);
  }

  /** A path has no drawdown exactly when it never falls. */
  lemma {:induction false} NoDrawdownMeansRising(path: seq<real>, drawdown: real)
    requires path != [] && Positive(path) && IsMaxDrawdown(path, drawdown)
    ensures drawdown == 0.0 <==> forall i, j :: 0 <= i <= j < |path| ==> path[i] <= path[j]
  {
    forall i, j | 0 <= i <= j < |path| ensures Decline(path[i], path[j]) <= 0.0 <==> path[i] <= path[j] {
      DeclineSign(path[i], path[j]);
    }
    assert Decline(path[0], path[0]) <= drawdown;
  }

  lemma {:induction false} DeclineSign(before: real, after: real)
    requires before > 0.0
    ensures Decline(before, after) <= 0.0 <==> before <= after
    ensures Decline(before, before) == 0.0
  {
    var d := Decline(before, after);
    assert d * before == before - after;
    if d <= 0.0 { assert d * before <= 0.0; } else { assert d * before > 0.0; }
  }
}
