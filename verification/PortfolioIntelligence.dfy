// Aggregates of a portfolio: sector and geography shares, and the sectors worth
// a rebalancing suggestion.
module PortfolioIntelligence {
  import opened Wrappers
  import opened Counting
  import opened Grouping
  import opened Benchmarks

  const SECTOR_CONCENTRATION_THRESHOLD: real := 0.40

  datatype Position = Position(exchange: Option<string>, sector: string, valueBase: real)
  {
    function Market(): Benchmarks.Market {
      MarketForExchange(exchange)
    }
  }

  function SectorEntries(ps: seq<Position>): seq<Entry<string>> {
    seq(|ps|, i requires 0 <= i < |ps| => Entry(ps[i].sector, ps[i].valueBase))
  }

  function MarketEntries(ps: seq<Position>): seq<Entry<Market>> {
    seq(|ps|, i requires 0 <= i < |ps| => Entry(ps[i].Market(), ps[i].valueBase))
  }

  // The sectors and values of the positions in one market.
  function SectorsIn(ps: seq<Position>, m: Market): seq<Entry<string>> {
    if ps == [] then []
    else
      var before := SectorsIn(ps[..|ps| - 1], m);
      var p := ps[|ps| - 1];
      if p.Market() == m then before + [Entry(p.sector, p.valueBase)] else before
  }

  ghost predicate Nonnegative(ps: seq<Position>) {
    forall i :: 0 <= i < |ps| ==> ps[i].valueBase >= 0.0
  }

  // Every entry of the whole is in one market, so a market's total is its group's.
  lemma {:induction false} MarketTotals(ps: seq<Position>, m: Market)
    ensures Total(SectorsIn(ps, m)) == GroupTotal(MarketEntries(ps), m)
    ensures SectorsIn(ps, m) != [] <==> m in Keys(MarketEntries(ps))
  {
    if ps != [] {
      var rest, p := ps[..|ps| - 1], ps[|ps| - 1];
      MarketTotals(rest, m);
      var e := Entry(p.Market(), p.valueBase);
      assert MarketEntries(ps) == MarketEntries(rest) + [e];
      GroupSnoc(MarketEntries(rest), e, m);
      GroupSnoc(SectorsIn(rest, m), Entry(p.sector, p.valueBase), p.sector);
      hide Total, GroupTotal, Keys, MarketEntries;
    }
  }

  lemma NoSectors()
    ensures forall m: Market :: SectorsIn([], m) == []
  {
  }

  lemma SectorsInStep(ps: seq<Position>, n: nat, m: Market)
    requires n < |ps|
    ensures SectorsIn(ps[..n + 1], m) ==
            if ps[n].Market() == m then SectorsIn(ps[..n], m) + [Entry(ps[n].sector, ps[n].valueBase)]
            else SectorsIn(ps[..n], m)
  {
    assert ps[..n + 1][..n] == ps[..n];
  }

  // _sector_allocation: per market, each sector's share of that market, the
  // greatest first.
  method SectorAllocation(ps: seq<Position>) returns (result: map<Market, seq<Entry<string>>>)
    ensures forall m :: m in result <==> Total(SectorsIn(ps, m)) > 0.0
    ensures forall m :: m in result ==> Ranks(result[m], Shares(Totals(SectorsIn(ps, m)), Total(SectorsIn(ps, m))))
  {
    var bySector, marketTotals := CollectSectors(ps);
    hide Totals, Total, SectorsIn, Shares, Ranks;
    var todo := bySector.Keys;
    result := map[];
    while todo != {}
      invariant todo <= bySector.Keys
      invariant forall m :: m in result <==> m in bySector && m !in todo && marketTotals[m] > 0.0
      invariant forall m :: m in result ==> Ranks(result[m], Shares(bySector[m], marketTotals[m]))
      decreases |todo|
    {
      var market :| market in todo;
      todo := todo - {market};
      var total := marketTotals[market];
      if total > 0.0 {
        var ranked := RankByValue(bySector[market]);
        RankedShares(ranked, bySector[market], total);
        result := result[market := ShareEntries(ranked, total)];
      }
    }
    NoSectorsNoTotal(ps);
  }

  lemma NoSectorsNoTotal(ps: seq<Position>)
    ensures forall m :: SectorsIn(ps, m) == [] ==> Total(SectorsIn(ps, m)) == 0.0
  {
  }

  method CollectSectors(ps: seq<Position>)
    returns (bySector: map<Market, map<string, real>>, marketTotals: map<Market, real>)
    ensures bySector.Keys == marketTotals.Keys
    ensures forall m :: m in bySector <==> SectorsIn(ps, m) != []
    ensures forall m :: m in bySector ==>
              bySector[m] == Totals(SectorsIn(ps, m)) && marketTotals[m] == Total(SectorsIn(ps, m))
  {
    hide Totals, Total, Position.Market, SectorsIn, Shares, GroupTotal, Keys;
    bySector, marketTotals := map[], map[];
    assert ps[..0] == [];
    NoSectors();
    TotalsEmpty();
    for n := 0 to |ps|
      invariant bySector.Keys == marketTotals.Keys
      invariant forall m :: m in bySector <==> SectorsIn(ps[..n], m) != []
      invariant forall m :: m in bySector ==>
                  bySector[m] == Totals(SectorsIn(ps[..n], m)) && marketTotals[m] == Total(SectorsIn(ps[..n], m))
    {
      var p := ps[n];
      var market := p.Market();
      forall m: Market ensures SectorsIn(ps[..n + 1], m) ==
            if market == m then SectorsIn(ps[..n], m) + [Entry(p.sector, p.valueBase)] else SectorsIn(ps[..n], m)
      {
        SectorsInStep(ps, n, m);
      }
      GroupSnoc(SectorsIn(ps[..n], market), Entry(p.sector, p.valueBase), p.sector);
      TotalsSnoc(SectorsIn(ps[..n], market), Entry(p.sector, p.valueBase));
      var total := if market in marketTotals then marketTotals[market] else 0.0;
      marketTotals := marketTotals[market := total + p.valueBase];
      var sectors := if market in bySector then bySector[market] else map[];
      sectors := sectors[p.sector := (if p.sector in sectors then sectors[p.sector] else 0.0) + p.valueBase];
      bySector := bySector[market := sectors];
    }
    assert ps[..|ps|] == ps;
  }

  lemma TotalsEmpty()
    ensures Totals<string>([]) == map[] && Total<string>([]) == 0.0
  {
  }

  lemma {:induction false} NonnegativeTotal<K>(entries: seq<Entry<K>>)
    requires forall i :: 0 <= i < |entries| ==> entries[i].value >= 0.0
    ensures Total(entries) >= 0.0
  {
    if entries != [] {
      NonnegativeTotal(entries[..|entries| - 1]);
    }
  }

  lemma ShareAtLeastZero(a: real, d: real)
    requires a >= 0.0 && d > 0.0
    ensures a / d >= 0.0
  {
  }

  lemma SharesNonnegative<K>(entries: seq<Entry<K>>, k: K)
    requires forall i :: 0 <= i < |entries| ==> entries[i].value >= 0.0
    requires Total(entries) > 0.0 && k in Keys(entries)
    ensures Shares(Totals(entries), Total(entries))[k] >= 0.0
  {
    GroupNonnegative(entries, k);
    ShareAtLeastZero(GroupTotal(entries, k), Total(entries));
  }

  lemma {:induction false} SectorsInNonnegative(ps: seq<Position>, m: Market)
    requires Nonnegative(ps)
    ensures forall i :: 0 <= i < |SectorsIn(ps, m)| ==> SectorsIn(ps, m)[i].value >= 0.0
  {
    if ps != [] {
      SectorsInNonnegative(ps[..|ps| - 1], m);
    }
  }

  // Each market's sector shares are parts of a whole: they sum to 1, and with
  // nonnegative positions none is negative.
  lemma SectorSharesSumToOne(ps: seq<Position>, m: Market)
    requires Total(SectorsIn(ps, m)) > 0.0
    ensures var shares := Shares(Totals(SectorsIn(ps, m)), Total(SectorsIn(ps, m)));
            SumOver(shares.Keys, shares) == 1.0
            && (Nonnegative(ps) ==> forall k :: k in shares ==> shares[k] >= 0.0)
  {
    var entries := SectorsIn(ps, m);
    var shares := Shares(Totals(entries), Total(entries));
    SharesSumToOne(entries);
    assert shares.Keys == Keys(entries);
    if Nonnegative(ps) {
      SectorsInNonnegative(ps, m);
      forall k | k in shares ensures shares[k] >= 0.0 {
        SharesNonnegative(entries, k);
      }
    }
  }

  // ---------------------------------------------------------------- diversification

  lemma {:induction false} SameTotal(ps: seq<Position>)
    ensures Total(SectorEntries(ps)) == Total(MarketEntries(ps))
  {
    if ps != [] {
      var rest, p := ps[..|ps| - 1], ps[|ps| - 1];
      SameTotal(rest);
      assert SectorEntries(ps) == SectorEntries(rest) + [Entry(p.sector, p.valueBase)];
      assert MarketEntries(ps) == MarketEntries(rest) + [Entry(p.Market(), p.valueBase)];
      GroupSnoc(SectorEntries(rest), Entry(p.sector, p.valueBase), p.sector);
      GroupSnoc(MarketEntries(rest), Entry(p.Market(), p.valueBase), p.Market());
    }
  }

  function Squares<K>(shares: map<K, real>): map<K, real> {
    map k | k in shares :: Times(shares[k], shares[k])
  }

  // _diversification, with the portfolio's total.
  method Diversification(ps: seq<Position>) returns (hhi: real, geography: map<Market, real>)
    ensures var total := Total(MarketEntries(ps));
            if total <= 0.0 then hhi == 0.0 && geography == map[]
            else
              && geography == Shares(Totals(MarketEntries(ps)), total)
              && var shares := Shares(Totals(SectorEntries(ps)), total);
                 hhi == SumOver(shares.Keys, Squares(shares))
  {
    var totalBase := Total(MarketEntries(ps));
    if totalBase <= 0.0 {
      return 0.0, map[];
    }
    var sectorWeights := Accumulate(SectorEntries(ps));
    var geoWeights := Accumulate(MarketEntries(ps));
    var shares := Shares(sectorWeights, totalBase);
    hhi := SumValues(Squares(shares));
    assert Squares(shares).Keys == shares.Keys;
    geography := Shares(geoWeights, totalBase);
  }

  lemma SquareAtMost(x: real)
    requires 0.0 <= x <= 1.0
    ensures 0.0 <= Times(x, x) <= x
  {
    ProductNonnegative(x, 1.0 - x);
    ProductNonnegative(x, x);
    assert x * (1.0 - x) == x - x * x;
  }

  lemma ProductNonnegative(a: real, b: real)
    requires a >= 0.0 && b >= 0.0
    ensures a * b >= 0.0
  {
  }

  lemma PartAtMostWhole<K>(f: map<K, real>, k: K)
    requires k in f && forall j :: j in f ==> f[j] >= 0.0
    ensures f[k] <= SumOver(f.Keys, f)
  {
    SumSubset({k}, f.Keys, f);
    SumTakeOut({k}, f, k);
    assert {k} - {k} == {};
  }

  // With nonnegative positions the geography shares sum to 1, and the sector
  // index is at most 1.
  lemma GeographySumsToOne(ps: seq<Position>)
    requires Nonnegative(ps) && Total(MarketEntries(ps)) > 0.0
    ensures var geography := Shares(Totals(MarketEntries(ps)), Total(MarketEntries(ps)));
            SumOver(geography.Keys, geography) == 1.0
    ensures var shares := Shares(Totals(SectorEntries(ps)), Total(MarketEntries(ps)));
            0.0 <= SumOver(shares.Keys, Squares(shares)) <= 1.0
  {
    SameTotal(ps);
    SharesSumToOne(MarketEntries(ps));
    SharesSumToOne(SectorEntries(ps));
    var geography := Shares(Totals(MarketEntries(ps)), Total(MarketEntries(ps)));
    assert geography.Keys == Keys(MarketEntries(ps));
    var entries := SectorEntries(ps);
    var shares := Shares(Totals(entries), Total(entries));
    assert shares.Keys == Keys(entries);
    forall k | k in shares ensures shares[k] >= 0.0 {
      SharesNonnegative(entries, k);
    }
    SquaresWithinOne(shares);
  }

  lemma SquaresWithinOne<K>(shares: map<K, real>)
    requires SumOver(shares.Keys, shares) == 1.0 && forall k :: k in shares ==> shares[k] >= 0.0
    ensures 0.0 <= SumOver(shares.Keys, Squares(shares)) <= 1.0
  {
    hide SumOver, Times;
    forall k | k in shares ensures 0.0 <= Squares(shares)[k] <= shares[k] {
      PartAtMostWhole(shares, k);
      SquareAtMost(shares[k]);
    }
    hide Squares;
    assert shares.Keys <= Squares(shares).Keys by { SquaresKeys(shares); }
    SumMonotone(shares.Keys, Squares(shares), shares);
    SumSubset({}, shares.Keys, Squares(shares));
    SumEmpty(Squares(shares));
  }

  lemma SquaresKeys<K>(shares: map<K, real>)
    ensures Squares(shares).Keys == shares.Keys
  {
  }

  // ---------------------------------------------------------------- suggestions

  // The sectors above the threshold, with their shares.
  function Heavy(shares: map<string, real>): map<string, real> {
    map k | k in shares && shares[k] > SECTOR_CONCENTRATION_THRESHOLD :: shares[k]
  }

  lemma HeavyMeans(groups: map<string, real>, total: real, k: string)
    requires total > 0.0
    ensures k in Heavy(Shares(groups, total)) <==> k in groups && groups[k] / total > 0.40
    ensures k in Heavy(Shares(groups, total)) ==> Heavy(Shares(groups, total))[k] == groups[k] / total
  {
  }

  method RebalancingSuggestions(ps: seq<Position>) returns (suggestions: seq<Entry<string>>)
    ensures var total := Total(SectorEntries(ps));
            if total <= 0.0 then suggestions == []
            else Ranks(suggestions, Heavy(Shares(Totals(SectorEntries(ps)), total)))
  {
    var totalBase := Total(SectorEntries(ps));
    if totalBase <= 0.0 {
      return [];
    }
    var sectorWeights := Accumulate(SectorEntries(ps));
    var ranked := RankByValue(sectorWeights);
    suggestions := Suggest(ranked, totalBase);
    RankedShares(ranked, sectorWeights, totalBase);
    HeavyRanked(ShareEntries(ranked, totalBase), Shares(sectorWeights, totalBase));
  }

  method Suggest(ranked: seq<Entry<string>>, totalBase: real) returns (suggestions: seq<Entry<string>>)
    requires totalBase > 0.0
    ensures suggestions == Above(ShareEntries(ranked, totalBase), SECTOR_CONCENTRATION_THRESHOLD)
  {
    suggestions := [];
    ghost var shares := ShareEntries(ranked, totalBase);
    assert shares[..0] == [];
    for n := 0 to |ranked|
      invariant suggestions == Above(shares[..n], SECTOR_CONCENTRATION_THRESHOLD)
    {
      assert shares[..n + 1][..n] == shares[..n];
      var pct := ranked[n].value / totalBase;
      if pct > SECTOR_CONCENTRATION_THRESHOLD {
        suggestions := suggestions + [Entry(ranked[n].key, pct)];
      }
    }
    assert shares[..|ranked|] == shares;
  }

  lemma HeavyRanked(r: seq<Entry<string>>, shares: map<string, real>)
    requires Ranks(r, shares)
    ensures Ranks(Above(r, SECTOR_CONCENTRATION_THRESHOLD), Heavy(shares))
  {
    var a, heavy := Above(r, SECTOR_CONCENTRATION_THRESHOLD), Heavy(shares);
    AboveOrdered(r, SECTOR_CONCENTRATION_THRESHOLD);
    forall i | 0 <= i < |a| ensures a[i].key in heavy && heavy[a[i].key] == a[i].value {
      AboveMembers(r, SECTOR_CONCENTRATION_THRESHOLD, a[i]);
    }
    forall k | k in heavy ensures Entry(k, heavy[k]) in a {
      AboveMembers(r, SECTOR_CONCENTRATION_THRESHOLD, Entry(k, heavy[k]));
    }
  }

  lemma HeavySum(shares: map<string, real>, s: set<string>)
    requires s <= Heavy(shares).Keys && |s| == 3
    ensures SumOver(s, shares) > 1.2
  {
    var a :| a in s;
    SumTakeOut(s, shares, a);
    var b :| b in s - {a};
    SumTakeOut(s - {a}, shares, b);
    var c :| c in s - {a} - {b};
    SumTakeOut(s - {a} - {b}, shares, c);
    assert s - {a} - {b} - {c} == {};
  }

  lemma ThreeOf(s: set<string>) returns (t: set<string>)
    requires |s| >= 3
    ensures t <= s && |t| == 3
  {
    var a :| a in s;
    assert |s - {a}| >= 2;
    var b :| b in s - {a};
    assert |s - {a} - {b}| >= 1;
    var c :| c in s - {a} - {b};
    t := {a, b, c};
  }

  // Nonnegative positions never give more than two suggestions.
  lemma AtMostTwoSuggestions(ps: seq<Position>)
    requires Nonnegative(ps) && Total(SectorEntries(ps)) > 0.0
    ensures |Heavy(Shares(Totals(SectorEntries(ps)), Total(SectorEntries(ps))))| <= 2
    ensures forall r :: Ranks(r, Heavy(Shares(Totals(SectorEntries(ps)), Total(SectorEntries(ps))))) ==> |r| <= 2
  {
    var entries := SectorEntries(ps);
    var shares := Shares(Totals(entries), Total(entries));
    SharesSumToOne(entries);
    assert shares.Keys == Keys(entries);
    forall k | k in shares ensures shares[k] >= 0.0 {
      SharesNonnegative(entries, k);
    }
    assert |Heavy(shares).Keys| == |Heavy(shares)|;
    if |Heavy(shares)| > 2 {
      var t := ThreeOf(Heavy(shares).Keys);
      HeavySum(shares, t);
      SumSubset(t, shares.Keys, shares);
    }
    forall r | Ranks(r, Heavy(shares)) ensures |r| <= 2 {
      RanksCard(r, Heavy(shares));
    }
  }
}
