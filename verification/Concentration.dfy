// The Herfindahl index of a portfolio, and the two scores made from it.
module Concentration {
  import opened Wrappers

  function Abs(x: real): real {
    if x < 0.0 then -x else x
  }

  function Square(x: real): real {
    x * x
  }

  function Sum(f: real -> real, w: seq<real>): real {
    if w == [] then 0.0 else Sum(f, w[..|w| - 1]) + f(w[|w| - 1])
  }

  function Total(w: seq<real>): real {
    Sum(Abs, w)
  }

  function Normalized(w: seq<real>): seq<real> {
    seq(|w|, i requires 0 <= i < |w| => if Total(w) == 0.0 then 0.0 else Abs(w[i]) / Total(w))
  }

  // The sum of the squared weights, scaled to a total of 1.
  function Hhi(w: seq<real>): real {
    Sum(Square, Normalized(w))
  }

  // compute_concentration; None when there is nothing to weigh.
  function ConcentrationScore(w: seq<real>): Option<real> {
    if Total(w) <= 0.0 then None
    else Some(if Hhi(w) * 100.0 > 100.0 then 100.0 else if Hhi(w) * 100.0 < 0.0 then 0.0 else Hhi(w) * 100.0)
  }

  const DIVERSIFICATION_FLOOR_HHI: real := 0.05

  // compute_diversification
  function DiversificationScore(w: seq<real>): Option<real> {
    if Total(w) <= 0.0 then None
    else if Hhi(w) >= 1.0 then Some(0.0)
    else
      var raw := (1.0 - Hhi(w)) / (1.0 - DIVERSIFICATION_FLOOR_HHI);
      Some((if raw > 1.0 then 1.0 else if raw < 0.0 then 0.0 else raw) * 100.0)
  }

  // ---------------------------------------------------------------- bounds

  lemma {:induction false} TotalNonnegative(w: seq<real>)
    ensures Total(w) >= 0.0
    ensures Total(w) == 0.0 <==> forall i :: 0 <= i < |w| ==> w[i] == 0.0
  {
    if w != [] {
      var rest := w[..|w| - 1];
      TotalNonnegative(rest);
      if Total(w) == 0.0 {
        forall i | 0 <= i < |w| ensures w[i] == 0.0 {
          assert i < |rest| ==> rest[i] == w[i];
        }
      }
      if forall i :: 0 <= i < |w| ==> w[i] == 0.0 {
        assert forall i :: 0 <= i < |rest| ==> rest[i] == w[i];
      }
    }
  }

  function SquareSum(w: seq<real>): real {
    Sum(Square, w)
  }

  lemma {:induction false} ScaledSum(w: seq<real>, t: real, scaled: seq<real>)
    requires t > 0.0 && |scaled| == |w| && forall i :: 0 <= i < |w| ==> scaled[i] == Abs(w[i]) / t
    ensures SquareSum(scaled) * Square(t) == SquareSum(w)
  {
    if w != [] {
      var n := |w| - 1;
      ScaledSum(w[..n], t, scaled[..n]);
      ScaledSquare(w[n], t, scaled[n]);
      Distribute(SquareSum(scaled[..n]), Square(scaled[n]), Square(t));
    }
  }

  lemma Distribute(a: real, b: real, k: real)
    ensures (a + b) * k == a * k + b * k
  {
  }

  lemma ScaledSquare(x: real, t: real, y: real)
    requires t > 0.0 && y == Abs(x) / t
    ensures Square(y) * Square(t) == Square(x)
  {
  }

  // The index in terms of the raw weights.
  lemma HhiTimesTotal(w: seq<real>)
    requires Total(w) > 0.0
    ensures Hhi(w) * Square(Total(w)) == SquareSum(w)
  {
    ScaledSum(w, Total(w), Normalized(w));
  }

  lemma {:induction false} SquaresWithinTotal(w: seq<real>)
    ensures 0.0 <= SquareSum(w) <= Square(Total(w))
    ensures SquareSum(w) == Square(Total(w)) <==>
            forall i, j :: 0 <= i < j < |w| ==> w[i] == 0.0 || w[j] == 0.0
  {
    if w != [] {
      var n := |w| - 1;
      var rest := w[..n];
      SquaresWithinTotal(rest);
      TotalNonnegative(rest);
      SquareOfSum(Total(rest), Abs(w[n]));
      assert Square(w[n]) == Abs(w[n]) * Abs(w[n]);
      CrossTerm(Total(rest), Abs(w[n]));
      AtMostOneSnoc(w);
    }
  }

  lemma AtMostOneSnoc(w: seq<real>)
    requires w != []
    ensures var rest := w[..|w| - 1];
            (forall i, j :: 0 <= i < j < |w| ==> w[i] == 0.0 || w[j] == 0.0) <==>
            (forall i, j :: 0 <= i < j < |rest| ==> rest[i] == 0.0 || rest[j] == 0.0)
            && (w[|w| - 1] == 0.0 || forall i :: 0 <= i < |rest| ==> rest[i] == 0.0)
  {
    var n := |w| - 1;
    var rest := w[..n];
    assert forall i :: 0 <= i < n ==> rest[i] == w[i];
  }

  lemma SquareOfSum(t: real, a: real)
    ensures (t + a) * (t + a) == t * t + 2.0 * (t * a) + a * a
  {
  }

  lemma CrossTerm(t: real, a: real)
    requires t >= 0.0 && a >= 0.0
    ensures t * a >= 0.0
    ensures t * a == 0.0 <==> t == 0.0 || a == 0.0
  {
  }

  // Cauchy's inequality for the weights.
  lemma {:induction false} TotalWithinSquares(w: seq<real>)
    ensures Square(Total(w)) <= |w| as real * SquareSum(w)
  {
    if w != [] {
      var n := |w| - 1;
      var rest := w[..n];
      TotalWithinSquares(rest);
      SquaresWithinTotal(rest);
      assert Square(w[n]) == Abs(w[n]) * Abs(w[n]);
      if n == 0 {
        assert rest == [];
      } else {
        CauchyStep(n as real, Total(rest), SquareSum(rest), Abs(w[n]));
      }
    }
  }

  lemma CauchyStep(n: real, t: real, s: real, a: real)
    requires n >= 1.0 && t * t <= n * s
    ensures (t + a) * (t + a) <= (n + 1.0) * (s + a * a)
  {
    var gap := s + n * (a * a) - 2.0 * (t * a);
    SquareOfSum(t, a);
    assert (n + 1.0) * (s + a * a) == n * s + s + n * (a * a) + a * a;
    assert n * gap == n * s + (n * n) * (a * a) - 2.0 * (n * (t * a));
    SquareOfSum(t, -(n * a));
    SquareNonnegative(t - n * a);
    assert (n * a) * (n * a) == (n * n) * (a * a) && t * (n * a) == n * (t * a);
    if gap < 0.0 {
      CrossTermNegative(n, gap);
    }
  }

  lemma SquareNonnegative(x: real)
    ensures x * x >= 0.0
  {
  }

  lemma CrossTermNegative(n: real, gap: real)
    requires n > 0.0 && gap < 0.0
    ensures n * gap < 0.0
  {
  }

  // The index lies in [1/n, 1], and is 1 exactly when one holding has all.
  lemma HhiBounds(w: seq<real>)
    requires Total(w) > 0.0
    ensures |w| > 0 && 1.0 / |w| as real <= Hhi(w) <= 1.0
    ensures Hhi(w) == 1.0
            <==> exists k :: 0 <= k < |w| && w[k] != 0.0 && forall i :: 0 <= i < |w| && i != k ==> w[i] == 0.0
  {
    HhiTimesTotal(w);
    SquaresWithinTotal(w);
    TotalWithinSquares(w);
    TotalNonnegative(w);
    hide Hhi, Total, SquareSum, Square;
    ProductPositive(Total(w));
    RatioBounds(Hhi(w), Square(Total(w)), SquareSum(w), |w| as real);
    var k :| 0 <= k < |w| && w[k] != 0.0;
    if Hhi(w) == 1.0 {
      assert forall i :: 0 <= i < |w| && i != k ==> w[i] == 0.0;
    }
    if m :| 0 <= m < |w| && w[m] != 0.0 && forall i :: 0 <= i < |w| && i != m ==> w[i] == 0.0 {
      assert forall i, j :: 0 <= i < j < |w| ==> w[i] == 0.0 || w[j] == 0.0;
    }
  }

  lemma ProductPositive(t: real)
    requires t > 0.0
    ensures Square(t) > 0.0
  {
    CrossTerm(t, t);
  }

  lemma RatioBounds(h: real, tt: real, s: real, n: real)
    requires tt > 0.0 && h * tt == s && 0.0 <= s <= tt <= n * s && n > 0.0
    ensures 1.0 / n <= h <= 1.0
    ensures h == 1.0 <==> s == tt
  {
    assert h == s / tt;
    assert n * h == (n * s) / tt;
    assert n * h >= 1.0;
  }

  // ---------------------------------------------------------------- merging

  // Holdings i and j become one, in the place of i.
  function Merge(w: seq<real>, i: nat, j: nat): seq<real>
    requires i < j < |w|
  {
    w[i := w[i] + w[j]][..j] + w[j + 1..]
  }

  lemma {:induction false} SumConcat(f: real -> real, a: seq<real>, b: seq<real>)
    ensures Sum(f, a + b) == Sum(f, a) + Sum(f, b)
    decreases |b|
  {
    if b == [] {
      assert a + b == a;
    } else {
      var n := |b| - 1;
      assert (a + b)[..|a + b| - 1] == a + b[..n];
      SumConcat(f, a, b[..n]);
    }
  }

  lemma SumOne(f: real -> real, x: real)
    ensures Sum(f, [x]) == f(x)
  {
  }

  lemma SumAround(f: real -> real, a: seq<real>, x: real, b: seq<real>)
    ensures Sum(f, a + [x] + b) == Sum(f, a) + f(x) + Sum(f, b)
  {
    SumConcat(f, a + [x], b);
    SumConcat(f, a, [x]);
    SumOne(f, x);
  }

  lemma MergeSplits(w: seq<real>, i: nat, j: nat)
    requires i < j < |w|
    ensures w == w[..i] + [w[i]] + (w[i + 1..j] + [w[j]] + w[j + 1..])
    ensures Merge(w, i, j) == w[..i] + [w[i] + w[j]] + (w[i + 1..j] + w[j + 1..])
  {
  }

  lemma SumMerged(f: real -> real, w: seq<real>, i: nat, j: nat)
    requires i < j < |w|
    ensures Sum(f, Merge(w, i, j)) == Sum(f, w) - f(w[i]) - f(w[j]) + f(w[i] + w[j])
  {
    hide Sum, Merge;
    var a, b, c := w[..i], w[i + 1..j], w[j + 1..];
    MergeSplits(w, i, j);
    SumAround(f, a, w[i], b + [w[j]] + c);
    SumAround(f, b, w[j], c);
    SumAround(f, a, w[i] + w[j], b + c);
    SumConcat(f, b, c);
  }

  predicate SameSigned(x: real, y: real) {
    (x >= 0.0 && y >= 0.0) || (x <= 0.0 && y <= 0.0)
  }

  lemma SquareOfMerged(x: real, y: real)
    requires SameSigned(x, y)
    ensures Square(x + y) >= Square(x) + Square(y) && Abs(x + y) == Abs(x) + Abs(y)
    ensures Square(x + y) == Square(x) + Square(y) <==> x == 0.0 || y == 0.0
  {
  }

  // Merging same-signed holdings keeps the total and never lowers the index; it
  // leaves the index as it is only when one of the two was empty.
  lemma MergeRaisesHhi(w: seq<real>, i: nat, j: nat)
    requires i < j < |w| && SameSigned(w[i], w[j]) && Total(w) > 0.0
    ensures Total(Merge(w, i, j)) == Total(w)
    ensures Hhi(w) <= Hhi(Merge(w, i, j))
    ensures Hhi(w) == Hhi(Merge(w, i, j)) <==> w[i] == 0.0 || w[j] == 0.0
  {
    var merged := Merge(w, i, j);
    MergedSums(w, i, j);
    HhiTimesTotal(w);
    HhiTimesTotal(merged);
    hide Hhi, Total, SquareSum, Square;
    ProductPositive(Total(w));
    SameScale(Hhi(w), Hhi(merged), Square(Total(w)));
  }

  lemma MergedSums(w: seq<real>, i: nat, j: nat)
    requires i < j < |w| && SameSigned(w[i], w[j])
    ensures Total(Merge(w, i, j)) == Total(w)
    ensures SquareSum(w) <= SquareSum(Merge(w, i, j))
    ensures SquareSum(w) == SquareSum(Merge(w, i, j)) <==> w[i] == 0.0 || w[j] == 0.0
  {
    SquareOfMerged(w[i], w[j]);
    SumMerged(Abs, w, i, j);
    SumMerged(Square, w, i, j);
    hide Sum, Square, Abs;
  }

  lemma SameScale(a: real, b: real, k: real)
    requires k > 0.0
    ensures a <= b <==> a * k <= b * k
    ensures a == b <==> a * k == b * k
  {
  }

  // Hence the concentration score never falls and the diversification score
  // never rises under such a merge.
  lemma MergeMovesScores(w: seq<real>, i: nat, j: nat)
    requires i < j < |w| && SameSigned(w[i], w[j])
    ensures var merged := Merge(w, i, j);
            && (ConcentrationScore(w).Some? <==> ConcentrationScore(merged).Some?)
            && (ConcentrationScore(w).Some? <==> DiversificationScore(w).Some?)
            && (ConcentrationScore(w).Some? <==> DiversificationScore(merged).Some?)
            && (ConcentrationScore(w).Some? ==>
                  && 0.0 <= ConcentrationScore(w).value <= ConcentrationScore(merged).value <= 100.0
                  && 0.0 <= DiversificationScore(merged).value <= DiversificationScore(w).value <= 100.0)
  {
    hide Hhi, Total, Merge, SameSigned;
    var merged := Merge(w, i, j);
    MergedSums(w, i, j);
    if Total(w) > 0.0 {
      MergeRaisesHhi(w, i, j);
      HhiBounds(w);
      HhiBounds(merged);
      PositiveInverse(|w| as real);
      ScoresInOrder(w, merged);
    }
  }

  lemma ScoresInOrder(w: seq<real>, w': seq<real>)
    requires Total(w) > 0.0 && Total(w') > 0.0 && 0.0 <= Hhi(w) <= Hhi(w') <= 1.0
    ensures 0.0 <= ConcentrationScore(w).value <= ConcentrationScore(w').value <= 100.0
    ensures 0.0 <= DiversificationScore(w').value <= DiversificationScore(w).value <= 100.0
  {
  }

  // Where the two scores come from the index itself: the clamps act only on
  // portfolios more even than twenty equal holdings.
  lemma ScoresOfHhi(w: seq<real>)
    requires Total(w) > 0.0
    ensures ConcentrationScore(w) == Some(100.0 * Hhi(w))
    ensures DiversificationScore(w) == Some(if Hhi(w) <= 0.05 then 100.0 else 100.0 * ((1.0 - Hhi(w)) / 0.95))
    ensures DiversificationScore(w).value == 0.0 <==> Hhi(w) == 1.0
    ensures DiversificationScore(w).value == 100.0 <==> Hhi(w) <= DIVERSIFICATION_FLOOR_HHI
  {
    HhiBounds(w);
    PositiveInverse(|w| as real);
    hide Hhi, Total;
  }

  lemma NothingToWeigh(w: seq<real>)
    ensures ConcentrationScore(w) == None <==> forall i :: 0 <= i < |w| ==> w[i] == 0.0
    ensures DiversificationScore(w) == None <==> ConcentrationScore(w) == None
  {
    TotalZero(w);
  }

  lemma {:induction false} TotalZero(w: seq<real>)
    ensures Total(w) >= 0.0 && (Total(w) == 0.0 <==> forall i :: 0 <= i < |w| ==> w[i] == 0.0)
  {
    if w != [] {
      var rest := w[..|w| - 1];
      TotalZero(rest);
      assert forall i :: 0 <= i < |rest| ==> rest[i] == w[i];
    }
  }

  lemma PositiveInverse(n: real)
    requires n > 0.0
    ensures 1.0 / n > 0.0
  {
  }
}
