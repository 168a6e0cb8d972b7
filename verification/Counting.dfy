// Finite counting and division facts used across the modules.
module Counting {

  lemma SubsetCard<T>(a: set<T>, b: set<T>)
    requires a <= b
    ensures |a| <= |b|
  {
    assert b == a + (b - a);
    assert |b| == |a| + |b - a|;
  }

  lemma MapCard<K, V>(a: map<K, V>, b: map<K, V>)
    requires a.Keys <= b.Keys
    ensures |a| <= |b|
  {
    SubsetCard(a.Keys, b.Keys);
    assert |a.Keys| == |a| && |b.Keys| == |b|;
  }

  lemma {:induction false} RangeCard(s: set<nat>, lo: nat, width: nat)
    requires forall x :: x in s ==> lo <= x < lo + width
    ensures |s| <= width
    decreases width
  {
    if width == 0 {
      assert s == {};
    } else {
      var top := lo + width - 1;
      RangeCard(s - {top}, lo, width - 1);
      assert top !in s ==> s - {top} == s;
    }
  }

  lemma LeastOf(s: set<nat>) returns (m: nat)
    requires s != {}
    ensures m in s && forall x :: x in s ==> m <= x
  {
    var a :| a in s;
    m := a;
    var rest := set x | x in s && x < a;
    if rest != {} {
      assert a !in rest && rest < s;
      m := LeastOf(rest);
    }
    forall x | x in s ensures m <= x {
      assert x < a ==> x in rest;
    }
  }

  function CeilDiv(a: int, b: int): int
    requires 0 < b
  {
    (a + b - 1) / b
  }

  lemma FactorLess(x: int, y: int, b: int)
    requires 0 < b && x * b < y * b
    ensures x < y
  {
  }

  lemma MulMonotone(m: nat, x: int, y: int)
    requires x <= y
    ensures m * x <= m * y
  {
  }

  // CeilDiv(a, b) is the least q with a <= q * b.
  lemma CeilDivLeast(a: int, b: int)
    requires 0 < b
    ensures a <= CeilDiv(a, b) * b < a + b
  {
  }

  ghost function Multiples(lo: int, hi: int, p: int): set<int>
    requires 0 < p
  {
    set m | lo <= m < hi && m % p == 0
  }

  lemma {:induction false} MultiplesCard(lo: int, hi: int, p: int)
    requires 0 < p && lo <= hi
    ensures |Multiples(lo, hi, p)| == CeilDiv(hi, p) - CeilDiv(lo, p)
    decreases hi - lo
  {
    if lo == hi {
      assert Multiples(lo, hi, p) == {};
    } else {
      MultiplesCard(lo, hi - 1, p);
      CeilDivStep(hi - 1, p);
      var less := Multiples(lo, hi - 1, p);
      assert Multiples(lo, hi, p) == if (hi - 1) % p == 0 then less + {hi - 1} else less;
    }
  }

  lemma CeilDivIs(a: int, p: int, q: int)
    requires 0 < p && (q - 1) * p < a <= q * p
    ensures CeilDiv(a, p) == q
  {
    CeilDivLeast(a, p);
    var x := CeilDiv(a, p);
    assert (q + 1) * p == q * p + p;
    FactorLess(q - 1, x, p);
    FactorLess(x, q + 1, p);
  }

  lemma CeilDivAtMost(a: int, p: int)
    requires 0 < p
    ensures CeilDiv(a, p) <= a / p + 1
  {
    CeilDivLeast(a, p);
    var x, q := CeilDiv(a, p), a / p;
    hide CeilDiv;
    assert a < q * p + p;
    assert (q + 2) * p == q * p + 2 * p;
    FactorLess(x, q + 2, p);
  }

  lemma CeilDivStep(a: int, p: int)
    requires 0 < p
    ensures CeilDiv(a + 1, p) == CeilDiv(a, p) + if a % p == 0 then 1 else 0
  {
    var q := a / p;
    assert a == q * p + a % p;
    assert (q + 1) * p == q * p + p && (q - 1) * p == q * p - p && (q + 1 - 1) * p == q * p;
    hide CeilDiv;
    CeilDivIs(a + 1, p, q + 1);
    CeilDivIs(a, p, if a % p == 0 then q else q + 1);
  }
}
