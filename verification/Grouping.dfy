// Totals of values grouped by a key, and sums over the groups.
module Grouping {

  datatype Entry<K> = Entry(key: K, value: real)

  function Total<K>(entries: seq<Entry<K>>): real {
    if entries == [] then 0.0 else Total(entries[..|entries| - 1]) + entries[|entries| - 1].value
  }

  function GroupTotal<K(==)>(entries: seq<Entry<K>>, k: K): real {
    if entries == [] then 0.0
    else
      var last := entries[|entries| - 1];
      GroupTotal(entries[..|entries| - 1], k) + if last.key == k then last.value else 0.0
  }

  function Keys<K>(entries: seq<Entry<K>>): set<K> {
    set i | 0 <= i < |entries| :: entries[i].key
  }

  function Totals<K>(entries: seq<Entry<K>>): map<K, real> {
    map k | k in Keys(entries) :: GroupTotal(entries, k)
  }

  // The sum of f over a finite set.
  ghost function SumOver<K>(s: set<K>, f: map<K, real>): real
    requires s <= f.Keys
  {
    if s == {} then 0.0
    else
      var k :| k in s;
      f[k] + SumOver(s - {k}, f)
  }

  lemma SumEmpty<K>(f: map<K, real>)
    ensures SumOver({}, f) == 0.0
  {
  }

  lemma {:induction false} SumTakeOut<K>(s: set<K>, f: map<K, real>, k: K)
    requires s <= f.Keys && k in s
    ensures SumOver(s, f) == f[k] + SumOver(s - {k}, f)
    decreases |s|
  {
    var picked :| picked in s && SumOver(s, f) == f[picked] + SumOver(s - {picked}, f);
    if picked != k {
      SumTakeOut(s - {picked}, f, k);
      SumTakeOut(s - {k}, f, picked);
      assert s - {picked} - {k} == s - {k} - {picked};
    }
  }

  lemma {:induction false} SumSame<K>(s: set<K>, f: map<K, real>, g: map<K, real>)
    requires s <= f.Keys && s <= g.Keys && forall k :: k in s ==> f[k] == g[k]
    ensures SumOver(s, f) == SumOver(s, g)
    decreases |s|
  {
    if s != {} {
      var k :| k in s;
      SumTakeOut(s, f, k);
      SumTakeOut(s, g, k);
      SumSame(s - {k}, f, g);
    }
  }

  lemma {:induction false} SumMonotone<K>(s: set<K>, f: map<K, real>, g: map<K, real>)
    requires s <= f.Keys && s <= g.Keys && forall k :: k in s ==> f[k] <= g[k]
    ensures SumOver(s, f) <= SumOver(s, g)
    decreases |s|
  {
    if s != {} {
      var k :| k in s;
      SumTakeOut(s, f, k);
      SumTakeOut(s, g, k);
      SumMonotone(s - {k}, f, g);
    }
  }

  function Times(a: real, b: real): real {
    a * b
  }

  lemma AddTimes(a: real, b: real, r: real)
    ensures Times(a + b, r) == Times(a, r) + Times(b, r)
  {
  }

  lemma {:induction false} SumTimes<K>(s: set<K>, f: map<K, real>, g: map<K, real>, r: real)
    requires s <= f.Keys && s <= g.Keys && forall k :: k in s ==> g[k] == Times(f[k], r)
    ensures SumOver(s, g) == Times(SumOver(s, f), r)
    decreases |s|
  {
    if s == {} {
      SumEmpty(f);
      SumEmpty(g);
    } else {
      hide Times;
      var k :| k in s;
      SumTakeOut(s, f, k);
      SumTakeOut(s, g, k);
      SumTimes(s - {k}, f, g, r);
      AddTimes(f[k], SumOver(s - {k}, f), r);
    }
  }

  lemma {:induction false} SumDisjoint<K>(s: set<K>, t: set<K>, f: map<K, real>)
    requires s + t <= f.Keys && s * t == {}
    ensures SumOver(s + t, f) == SumOver(s, f) + SumOver(t, f)
    decreases |s|
  {
    if k :| k in s {
      SumTakeOut(s, f, k);
      SumTakeOut(s + t, f, k);
      SumDisjoint(s - {k}, t, f);
      assert s + t - {k} == (s - {k}) + t;
    } else {
      assert s + t == t;
    }
  }

  // Nonnegative sums grow with the set.
  lemma {:induction false} SumSubset<K>(s: set<K>, t: set<K>, f: map<K, real>)
    requires s <= t <= f.Keys && forall k :: k in t ==> f[k] >= 0.0
    ensures 0.0 <= SumOver(s, f) <= SumOver(t, f)
    decreases |t|
  {
    if k :| k in s {
      SumTakeOut(s, f, k);
      SumTakeOut(t, f, k);
      SumSubset(s - {k}, t - {k}, f);
    } else if k :| k in t {
      SumTakeOut(t, f, k);
      SumSubset(s, t - {k}, f);
    }
  }

  lemma GroupSnoc<K>(entries: seq<Entry<K>>, e: Entry<K>, k: K)
    ensures GroupTotal(entries + [e], k) == GroupTotal(entries, k) + if e.key == k then e.value else 0.0
    ensures Total(entries + [e]) == Total(entries) + e.value
    ensures Keys(entries + [e]) == Keys(entries) + {e.key}
  {
  }

  // One more entry.
  lemma TotalsSnoc<K>(entries: seq<Entry<K>>, e: Entry<K>)
    ensures Totals(entries + [e]) ==
            Totals(entries)[e.key := (if e.key in Totals(entries) then Totals(entries)[e.key] else 0.0) + e.value]
  {
    var more := entries + [e];
    assert more[..|entries|] == entries;
    forall k | k in Keys(entries) ensures k in Keys(more) {
      var i :| 0 <= i < |entries| && entries[i].key == k;
      assert more[i].key == k;
    }
    assert more[|entries|] == e;
    forall k | k !in Keys(entries) ensures GroupTotal(entries, k) == 0.0 {
      GroupAbsent(entries, k);
    }
  }

  lemma {:induction false} GroupAbsent<K>(entries: seq<Entry<K>>, k: K)
    requires k !in Keys(entries)
    ensures GroupTotal(entries, k) == 0.0
  {
    if entries != [] {
      var rest := entries[..|entries| - 1];
      assert entries[|entries| - 1].key in Keys(entries);
      assert forall i :: 0 <= i < |rest| ==> rest[i] == entries[i];
      assert Keys(rest) <= Keys(entries);
      GroupAbsent(rest, k);
    }
  }

  // The groups partition the whole.
  lemma {:induction false} GroupsSumToTotal<K>(entries: seq<Entry<K>>)
    ensures SumOver(Keys(entries), Totals(entries)) == Total(entries)
  {
    if entries != [] {
      var rest, e := entries[..|entries| - 1], entries[|entries| - 1];
      assert entries == rest + [e];
      GroupsSumToTotal(rest);
      TotalsSnoc(rest, e);
      var before, after := Totals(rest), Totals(entries);
      assert Keys(entries) == Keys(rest) + {e.key};
      SumTakeOut(Keys(entries), after, e.key);
      if e.key in Keys(rest) {
        SumTakeOut(Keys(rest), before, e.key);
        assert Keys(entries) - {e.key} == Keys(rest) - {e.key};
      } else {
        assert Keys(entries) - {e.key} == Keys(rest);
      }
      SumSame(Keys(entries) - {e.key}, before, after);
    }
  }

  lemma {:induction false} GroupNonnegative<K>(entries: seq<Entry<K>>, k: K)
    requires forall i :: 0 <= i < |entries| ==> entries[i].value >= 0.0
    ensures GroupTotal(entries, k) >= 0.0
  {
    if entries != [] {
      GroupNonnegative(entries[..|entries| - 1], k);
    }
  }

  // Each group's share of a total d.
  function Shares<K>(totals: map<K, real>, d: real): map<K, real>
    requires d != 0.0
  {
    map k | k in totals :: totals[k] / d
  }

  lemma OverIsTimes(x: real, d: real)
    requires d != 0.0
    ensures x / d == Times(x, 1.0 / d)
  {
  }

  // The shares of the total sum to 1.
  lemma SharesSumToOne<K>(entries: seq<Entry<K>>)
    requires Total(entries) > 0.0
    ensures SumOver(Keys(entries), Shares(Totals(entries), Total(entries))) == 1.0
  {
    var d := Total(entries);
    GroupsSumToTotal(entries);
    hide SumOver, Times, Total;
    forall k | k in Keys(entries) ensures Shares(Totals(entries), d)[k] == Times(Totals(entries)[k], 1.0 / d) {
      OverIsTimes(Totals(entries)[k], d);
    }
    SumTimes(Keys(entries), Totals(entries), Shares(Totals(entries), d), 1.0 / d);
    OverIsTimes(d, d);
  }

  // The accumulating loop over a dictionary.
  method Accumulate<K(==)>(entries: seq<Entry<K>>) returns (totals: map<K, real>)
    ensures totals == Totals(entries)
  {
    totals := map[];
    assert entries[..0] == [];
    for n := 0 to |entries|
      invariant totals == Totals(entries[..n])
    {
      var e := entries[n];
      TotalsSnoc(entries[..n], e);
      assert entries[..n + 1] == entries[..n] + [e];
      totals := totals[e.key := (if e.key in totals then totals[e.key] else 0.0) + e.value];
    }
    assert entries[..|entries|] == entries;
  }

  method SumValues<K(==)>(m: map<K, real>) returns (sum: real)
    ensures sum == SumOver(m.Keys, m)
  {
    var todo := m.Keys;
    sum := 0.0;
    SumEmpty(m);
    while todo != {}
      invariant todo <= m.Keys
      invariant sum + SumOver(todo, m) == SumOver(m.Keys, m)
      decreases |todo|
    {
      var k :| k in todo;
      SumTakeOut(todo, m, k);
      sum := sum + m[k];
      todo := todo - {k};
    }
  }

  // ---------------------------------------------------------------- ranking

  // r lists the entries of m, the greatest values first.
  ghost predicate Ranks<K>(r: seq<Entry<K>>, m: map<K, real>) {
    && (forall i :: 0 <= i < |r| ==> r[i].key in m && m[r[i].key] == r[i].value)
    && (forall k :: k in m ==> Entry(k, m[k]) in r)
    && (forall i, j :: 0 <= i < j < |r| ==> r[i].key != r[j].key && r[i].value >= r[j].value)
  }

  method GreatestOf<K(==)>(m: map<K, real>, keys: set<K>) returns (k: K)
    requires keys <= m.Keys && keys != {}
    ensures k in keys && forall x :: x in keys ==> m[x] <= m[k]
  {
    k :| k in keys;
    var todo := keys - {k};
    while todo != {}
      invariant todo <= keys && k in keys
      invariant forall x :: x in keys && x !in todo ==> m[x] <= m[k]
      decreases |todo|
    {
      var x :| x in todo;
      todo := todo - {x};
      if m[k] < m[x] {
        k := x;
      }
    }
  }

  ghost function Without<K>(m: map<K, real>, todo: set<K>): map<K, real> {
    map k | k in m && k !in todo :: m[k]
  }

  lemma RanksSnoc<K>(r: seq<Entry<K>>, m: map<K, real>, todo: set<K>, k: K)
    requires todo <= m.Keys && k in todo && Ranks(r, Without(m, todo))
    requires forall i :: 0 <= i < |r| ==> r[i].value >= m[k]
    ensures Ranks(r + [Entry(k, m[k])], Without(m, todo - {k}))
  {
    var r', m' := r + [Entry(k, m[k])], Without(m, todo - {k});
    forall x | x in m' ensures Entry(x, m'[x]) in r' {
      if x == k {
        assert r'[|r|] == Entry(x, m'[x]);
      } else {
        assert x in Without(m, todo);
      }
    }
  }

  // sorted(..., key=-value)
  method RankByValue<K(==)>(m: map<K, real>) returns (r: seq<Entry<K>>)
    ensures Ranks(r, m)
  {
    var todo := m.Keys;
    r := [];
    while todo != {}
      invariant todo <= m.Keys && Ranks(r, Without(m, todo))
      invariant forall i, k :: 0 <= i < |r| && k in todo ==> r[i].value >= m[k]
      decreases |todo|
    {
      var k := GreatestOf(m, todo);
      RanksSnoc(r, m, todo, k);
      hide Ranks;
      r := r + [Entry(k, m[k])];
      todo := todo - {k};
    }
    assert Without(m, {}) == m;
  }

  function ShareEntries<K>(r: seq<Entry<K>>, d: real): seq<Entry<K>>
    requires d != 0.0
  {
    seq(|r|, i requires 0 <= i < |r| => Entry(r[i].key, r[i].value / d))
  }

  // The shares of a positive total rank as the values do.
  lemma RankedShares<K>(r: seq<Entry<K>>, m: map<K, real>, d: real)
    requires Ranks(r, m) && d > 0.0
    ensures Ranks(ShareEntries(r, d), Shares(m, d))
  {
    var shares, r' := Shares(m, d), ShareEntries(r, d);
    forall k | k in shares ensures Entry(k, shares[k]) in r' {
      assert Entry(k, m[k]) in r;
      var i :| 0 <= i < |r| && r[i] == Entry(k, m[k]);
      assert r'[i] == Entry(k, shares[k]);
    }
    forall i, j | 0 <= i < j < |r'| ensures r'[i].value >= r'[j].value {
      DivideMonotone(r[j].value, r[i].value, d);
    }
  }

  lemma DivideMonotone(x: real, y: real, d: real)
    requires x <= y && d > 0.0
    ensures x / d <= y / d
  {
  }

  lemma RanksInit<K>(r: seq<Entry<K>>, m: map<K, real>)
    requires Ranks(r, m) && r != []
    ensures r[|r| - 1].key in m && Ranks(r[..|r| - 1], m - {r[|r| - 1].key})
  {
    var last := |r| - 1;
    var rest := m - {r[last].key};
    forall k | k in rest ensures Entry(k, rest[k]) in r[..last] {
      assert Entry(k, m[k]) in r;
      var i :| 0 <= i < |r| && r[i] == Entry(k, m[k]);
      assert r[..last][i] == r[i];
    }
  }

  // A ranking lists each entry once.
  lemma {:induction false} RanksCard<K>(r: seq<Entry<K>>, m: map<K, real>)
    requires Ranks(r, m)
    ensures |r| == |m|
  {
    if r == [] {
      assert m == map[];
    } else {
      RanksInit(r, m);
      hide Ranks;
      RanksCard(r[..|r| - 1], m - {r[|r| - 1].key});
      assert (m - {r[|r| - 1].key}).Keys == m.Keys - {r[|r| - 1].key};
      assert |m.Keys| == |m| && |(m - {r[|r| - 1].key}).Keys| == |m - {r[|r| - 1].key}|;
    }
  }

  // The entries above a threshold, in order.
  function Above<K>(r: seq<Entry<K>>, threshold: real): seq<Entry<K>> {
    if r == [] then []
    else
      var before := Above(r[..|r| - 1], threshold);
      if r[|r| - 1].value > threshold then before + [r[|r| - 1]] else before
  }

  lemma {:induction false} AboveMembers<K>(r: seq<Entry<K>>, threshold: real, e: Entry<K>)
    ensures e in Above(r, threshold) <==> e in r && e.value > threshold
  {
    if r != [] {
      AboveMembers(r[..|r| - 1], threshold, e);
      assert r == r[..|r| - 1] + [r[|r| - 1]];
    }
  }

  lemma {:induction false} AboveOrdered<K>(r: seq<Entry<K>>, threshold: real)
    requires forall i, j :: 0 <= i < j < |r| ==> r[i].key != r[j].key && r[i].value >= r[j].value
    ensures var a := Above(r, threshold);
            forall i, j :: 0 <= i < j < |a| ==> a[i].key != a[j].key && a[i].value >= a[j].value
  {
    if r != [] {
      var rest, last := r[..|r| - 1], r[|r| - 1];
      AboveOrdered(rest, threshold);
      var before := Above(rest, threshold);
      forall i | 0 <= i < |before| ensures before[i].key != last.key && before[i].value >= last.value {
        AboveMembers(rest, threshold, before[i]);
        assert before[i] in rest;
      }
    }
  }
}
