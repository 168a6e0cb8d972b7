// The sync service: the loops over a broker's response and the whole sync of a
// connection, in one transaction.
module SyncService {
  import opened Wrappers
  import opened Upserting
  import opened PositionSync
  import opened OrderSync

  // A unique constraint of the positions or of the orders table is violated.
  datatype SyncError = DuplicatePosition | DuplicateOrder

  datatype Warning =
    | PositionsFetchFailed
    | UnmappedSymbol(symbol: string)
    | OrdersFetchFailed
    | UnmappedOrder(symbol: string)

  datatype Summary = Summary(upserted: nat, closed: nat, skipped: nat, ordersUpserted: nat, warnings: seq<Warning>)

  datatype AuditRow = AuditRow(conn: nat, syncedAt: int, summary: Summary)

  // What the adapter returns; None when the fetch fails.
  datatype Responses = Responses(positions: Option<seq<BrokerPosition>>, orders: Option<seq<BrokerOrder>>)

  function MappedCount<R(!new), B(!new), K(!new)>(t: Table<R, B, K>, items: seq<B>): (n: nat)
    ensures n <= |items|
  {
    if items == [] then 0
    else MappedCount(t, items[..|items| - 1]) + if t.mapped(items[|items| - 1]) then 1 else 0
  }

  // The symbols the position loop skips, in order.
  function UnmappedPositions(resolve: Resolver, items: seq<BrokerPosition>): seq<Warning> {
    if items == [] then []
    else
      var before, b := UnmappedPositions(resolve, items[..|items| - 1]), items[|items| - 1];
      if resolve(b.symbol, b.exchange).None? then before + [UnmappedSymbol(b.symbol)] else before
  }

  function UnmappedOrders(resolve: Resolver, items: seq<BrokerOrder>): seq<Warning> {
    if items == [] then []
    else
      var before, b := UnmappedOrders(resolve, items[..|items| - 1]), items[|items| - 1];
      if resolve(b.symbol, None).None? then before + [UnmappedOrder(b.symbol)] else before
  }

  // All warnings of a sync: per table a failed fetch, or its skipped symbols.
  function WarningsOf(resolve: Resolver, fetched: Responses): seq<Warning> {
    (if fetched.positions.None? then [PositionsFetchFailed] else [])
    + UnmappedPositions(resolve, fetched.positions.GetOr([]))
    + (if fetched.orders.None? then [OrdersFetchFailed] else [])
    + UnmappedOrders(resolve, fetched.orders.GetOr([]))
  }

  lemma {:induction false} UnmappedPositionsAre(resolve: Resolver, items: seq<BrokerPosition>, w: Warning)
    ensures w in UnmappedPositions(resolve, items) <==>
            w.UnmappedSymbol? && exists b :: b in items && b.symbol == w.symbol && resolve(b.symbol, b.exchange).None?
  {
    if items != [] {
      var rest, last := items[..|items| - 1], items[|items| - 1];
      UnmappedPositionsAre(resolve, rest, w);
      assert items == rest + [last];
      assert forall b :: b in items <==> b in rest || b == last;
    }
  }

  lemma {:induction false} UnmappedOrdersAre(conn: nat, resolve: Resolver, items: seq<BrokerOrder>, w: Warning)
    ensures w in UnmappedOrders(resolve, items) <==>
            w.UnmappedOrder? && exists b :: b in items && b.symbol == w.symbol && resolve(b.symbol, None).None?
    ensures MappedCount(OrderTable(conn, resolve), items) + |UnmappedOrders(resolve, items)| == |items|
  {
    if items != [] {
      var rest, last := items[..|items| - 1], items[|items| - 1];
      UnmappedOrdersAre(conn, resolve, rest, w);
      assert items == rest + [last];
      assert forall b :: b in items <==> b in rest || b == last;
    }
  }

  // Exactly what is warned about: a failed fetch of either kind, and each symbol of
  // a response that no instrument is found for.
  lemma WarningsMean(resolve: Resolver, fetched: Responses, w: Warning)
    ensures w in WarningsOf(resolve, fetched) <==>
            match w
            case PositionsFetchFailed => fetched.positions.None?
            case OrdersFetchFailed => fetched.orders.None?
            case UnmappedSymbol(symbol) =>
              fetched.positions.Some?
              && exists b :: b in fetched.positions.value && b.symbol == symbol && resolve(b.symbol, b.exchange).None?
            case UnmappedOrder(symbol) =>
              fetched.orders.Some?
              && exists b :: b in fetched.orders.value && b.symbol == symbol && resolve(b.symbol, None).None?
  {
    UnmappedPositionsAre(resolve, fetched.positions.GetOr([]), w);
    UnmappedOrdersAre(0, resolve, fetched.orders.GetOr([]), w);
    hide UnmappedPositions, UnmappedOrders, MappedCount;
    assert w in WarningsOf(resolve, fetched) <==>
           (w == PositionsFetchFailed && fetched.positions.None?) || (w == OrdersFetchFailed && fetched.orders.None?)
           || w in UnmappedPositions(resolve, fetched.positions.GetOr([]))
           || w in UnmappedOrders(resolve, fetched.orders.GetOr([]));
  }

  // Every row of the response is either upserted or warned about.
  lemma {:induction false} MappedOrWarned(conn: nat, now: int, resolve: Resolver, items: seq<BrokerPosition>)
    ensures MappedCount(PositionTable(conn, now, resolve), items) + |UnmappedPositions(resolve, items)| == |items|
  {
    if items != [] {
      MappedOrWarned(conn, now, resolve, items[..|items| - 1]);
    }
  }

  // One more order is counted or warned about.
  lemma OrderCounted(conn: nat, resolve: Resolver, items: seq<BrokerOrder>, n: nat)
    requires n < |items|
    ensures var t, mapped := OrderTable(conn, resolve), resolve(items[n].symbol, None).Some?;
            && MappedCount(t, items[..n + 1]) == MappedCount(t, items[..n]) + (if mapped then 1 else 0)
            && UnmappedOrders(resolve, items[..n + 1])
               == UnmappedOrders(resolve, items[..n]) + if mapped then [] else [UnmappedOrder(items[n].symbol)]
  {
    assert items[..n + 1][..n] == items[..n];
  }

  function CloseUpTo(conn: nat, now: int, seen: set<nat>, rows: seq<Position>, n: nat): seq<Position> {
    seq(|rows|, i requires 0 <= i < |rows| => if i < n then Closed(conn, now, seen, rows[i]) else rows[i])
  }

  function VanishedUpTo(conn: nat, seen: set<nat>, rows: seq<Position>, n: nat): set<nat> {
    set i | 0 <= i < |rows| && i < n && Gone(conn, seen, rows[i]) && rows[i].quantity != 0.0
  }

  // The closing pass changes an indexed old row or nothing.
  lemma CloseStep(conn: nat, now: int, seen: set<nat>, rows: seq<Position>, n: nat)
    requires n < |rows|
    ensures var before, after := CloseUpTo(conn, now, seen, rows, n), CloseUpTo(conn, now, seen, rows, n + 1);
            after == before[n := Closed(conn, now, seen, before[n])] && before[n] == rows[n]
  {
  }

  lemma VanishedStep(conn: nat, seen: set<nat>, rows: seq<Position>, n: nat)
    requires n < |rows|
    ensures var before := VanishedUpTo(conn, seen, rows, n);
            |VanishedUpTo(conn, seen, rows, n + 1)|
            == |before| + if Gone(conn, seen, rows[n]) && rows[n].quantity != 0.0 then 1 else 0
  {
    var before, after := VanishedUpTo(conn, seen, rows, n), VanishedUpTo(conn, seen, rows, n + 1);
    assert after == if Gone(conn, seen, rows[n]) && rows[n].quantity != 0.0 then before + {n} else before;
  }

  // Inserted rows are all seen, so closing the old rows closes all that are gone.
  lemma OldRowsSuffice(conn: nat, now: int, resolve: Resolver, rows: seq<Position>, items: seq<BrokerPosition>)
    ensures var t := PositionTable(conn, now, resolve);
            CloseUpTo(conn, now, Seen(resolve, items), Upserted(t, rows, Index(t, rows), items), |rows|)
            == SyncedPositions(conn, now, resolve, rows, items)
  {
    var t := PositionTable(conn, now, resolve);
    var upserted := Upserted(t, rows, Index(t, rows), items);
    forall i | |rows| <= i < |upserted|
      ensures Closed(conn, now, Seen(resolve, items), upserted[i]) == upserted[i]
    {
      hide Index, Upserted;
      InsertedAt(t, rows, items, i);
      CreatedSeen(conn, now, resolve, Index(t, rows), items, upserted[i]);
    }
    hide Upserted, Index, Closed, PositionTable, Seen;
  }

  lemma CreatedSeen(conn: nat, now: int, resolve: Resolver, index: map<nat, nat>, items: seq<BrokerPosition>,
                    r: Position)
    requires CreatedFrom(PositionTable(conn, now, resolve), index, items, r)
    ensures r.instrument in Seen(resolve, items)
  {
  }

  // An old row that is gone has not been touched by the upserts.
  lemma GoneUntouched(conn: nat, now: int, resolve: Resolver, rows: seq<Position>, items: seq<BrokerPosition>, i: nat)
    requires PositionsUnique(rows) && i < |rows|
    ensures var t := PositionTable(conn, now, resolve);
            var upserted := Upserted(t, rows, Index(t, rows), items);
            var seen := Seen(resolve, items);
            && upserted[i].conn == rows[i].conn && upserted[i].instrument == rows[i].instrument
            && (Gone(conn, seen, rows[i]) ==> upserted[i] == rows[i])
  {
    var t := PositionTable(conn, now, resolve);
    PositionsLawful(conn, now, resolve);
    UniqueByConnection(conn, now, resolve, rows);
    UpsertedAt(t, rows, items, i);
    LastPositionWins(conn, now, resolve, rows[i], items, rows[i].instrument);
    InSeen(conn, now, resolve, items, rows[i].instrument);
  }

  class PortfolioSyncService {
    const resolve: Resolver
    var positions: seq<Position>
    var orders: seq<Order>
    var audit: seq<AuditRow>

    constructor (resolve: Resolver)
      ensures this.resolve == resolve && positions == [] && orders == [] && audit == []
    {
      this.resolve := resolve;
      positions, orders, audit := [], [], [];
    }

    method UpsertPositions(conn: nat, items: seq<BrokerPosition>, now: int)
      returns (upserted: nat, seen: set<nat>, warnings: seq<Warning>)
      modifies this`positions
      ensures var t := PositionTable(conn, now, resolve);
              && positions == Upserted(t, old(positions), Index(t, old(positions)), items)
              && upserted == MappedCount(t, items)
      ensures seen == Seen(resolve, items) && warnings == UnmappedPositions(resolve, items)
    {
      hide Index, Insertions, Updated, Upserted, Seen;
      var t := PositionTable(conn, now, resolve);
      var index := Index(t, positions);
      upserted, seen, warnings := 0, {}, [];
      SeenNothing(resolve);
      UpsertNothing(t, positions, index);
      assert items[..0] == [];
      for n := 0 to |items|
        invariant positions == Upserted(t, old(positions), index, items[..n])
        invariant upserted == MappedCount(t, items[..n])
        invariant seen == Seen(resolve, items[..n]) && warnings == UnmappedPositions(resolve, items[..n])
      {
        var bp := items[n];
        UpsertStep(t, old(positions), index, items, n);
        SeenStep(resolve, items, n);
        assert items[..n + 1][..n] == items[..n];
        var instrument := resolve(bp.symbol, bp.exchange);
        if instrument.Some? {
          seen := seen + {instrument.value};
          if instrument.value !in index {
            var row := Position(conn, instrument.value, bp.quantity, bp.avgEntryPrice, bp.currency, now);
            positions := positions + [row];
          } else {
            var i := index[instrument.value];
            positions := positions[i := positions[i].(quantity := bp.quantity, avgCost := bp.avgEntryPrice,
                                                      currency := bp.currency, asOf := now)];
          }
          upserted := upserted + 1;
        } else {
          warnings := warnings + [UnmappedSymbol(bp.symbol)];
        }
      }
      assert items[..|items|] == items;
    }

    // The closing pass, over the rows there were before the sync.
    method ClosePositions(conn: nat, seen: set<nat>, existing: nat, now: int) returns (closed: nat)
      requires existing <= |positions|
      modifies this`positions
      ensures positions == CloseUpTo(conn, now, seen, old(positions), existing)
      ensures closed == |VanishedUpTo(conn, seen, old(positions), existing)|
    {
      closed := 0;
      for n := 0 to existing
        invariant positions == CloseUpTo(conn, now, seen, old(positions), n)
        invariant closed == |VanishedUpTo(conn, seen, old(positions), n)|
      {
        CloseStep(conn, now, seen, old(positions), n);
        VanishedStep(conn, seen, old(positions), n);
        var row := positions[n];
        if row.conn == conn && row.instrument !in seen {
          if row.quantity == 0.0 {
            positions := positions[n := row.(asOf := now)];
          } else {
            positions := positions[n := row.(quantity := 0.0, asOf := now)];
            closed := closed + 1;
          }
        }
      }
    }

    method SyncPositions(conn: nat, items: seq<BrokerPosition>, now: int)
      returns (upserted: nat, closed: nat, skipped: nat, warnings: seq<Warning>)
      requires PositionsUnique(positions)
      modifies this`positions
      ensures positions == SyncedPositions(conn, now, resolve, old(positions), items)
      ensures upserted == MappedCount(PositionTable(conn, now, resolve), items) && upserted + skipped == |items|
      ensures closed == |Vanished(conn, Seen(resolve, items), old(positions))|
      ensures warnings == UnmappedPositions(resolve, items) && skipped == |warnings|
    {
      ghost var before := positions;
      var existing := |positions|;
      var seen;
      upserted, seen, warnings := UpsertPositions(conn, items, now);
      skipped := |warnings|;
      MappedOrWarned(conn, now, resolve, items);
      ghost var upsertedRows := positions;
      closed := ClosePositions(conn, seen, existing, now);
      OldRowsSuffice(conn, now, resolve, before, items);
      forall i | 0 <= i < existing
        ensures Gone(conn, seen, before[i]) <==> Gone(conn, seen, upsertedRows[i])
        ensures Gone(conn, seen, before[i]) ==> before[i] == upsertedRows[i]
      {
        GoneUntouched(conn, now, resolve, before, items, i);
      }
      assert VanishedUpTo(conn, seen, upsertedRows, existing) == Vanished(conn, seen, before);
    }

    method SyncOrders(conn: nat, items: seq<BrokerOrder>) returns (upserted: nat, warnings: seq<Warning>)
      modifies this`orders
      ensures orders == SyncedOrders(conn, resolve, old(orders), items)
      ensures upserted == MappedCount(OrderTable(conn, resolve), items)
      ensures warnings == UnmappedOrders(resolve, items)
    {
      hide Index, Insertions, Updated, Upserted, StatusToDb, MappedCount, UnmappedOrders;
      var t := OrderTable(conn, resolve);
      var index := Index(t, orders);
      upserted, warnings := 0, [];
      NoOrderCounted(conn, resolve);
      UpsertNothing(t, orders, index);
      assert items[..0] == [];
      for n := 0 to |items|
        invariant orders == Upserted(t, old(orders), index, items[..n])
        invariant upserted == MappedCount(t, items[..n]) && warnings == UnmappedOrders(resolve, items[..n])
      {
        var bo := items[n];
        UpsertStep(t, old(orders), index, items, n);
        OrderCounted(conn, resolve, items, n);
        var instrument := resolve(bo.symbol, None);
        if instrument.Some? {
          var dbStatus := StatusToDb(bo.status);
          if bo.id == "" || bo.id !in index {
            var orderType := if bo.orderType == "market" || bo.orderType == "limit" then bo.orderType else "market";
            orders := orders + [Order(conn, instrument.value, bo.side, orderType, bo.quantity, bo.limitPrice,
                                      dbStatus, Some(bo.id))];
          } else {
            var i := index[bo.id];
            ghost var before := orders;
            orders := orders[i := orders[i].(status := dbStatus, quantity := bo.quantity)];
            if bo.limitPrice.Some? {
              orders := orders[i := orders[i].(limitPrice := bo.limitPrice)];
            }
            assert orders == before[i := t.update(before[i], bo)];
          }
          upserted := upserted + 1;
        } else {
          warnings := warnings + [UnmappedOrder(bo.symbol)];
        }
      }
      assert items[..|items|] == items;
    }

    // A failed fetch counts as an empty response. A violated constraint aborts
    // the transaction, and both tables are as they were.
    method SyncConnection(conn: nat, fetched: Responses, now: int) returns (r: Result<Summary, SyncError>)
      requires PositionsUnique(positions) && IdempotencyKeysUnique(orders)
      modifies this
      ensures var ps, os := fetched.positions.GetOr([]), fetched.orders.GetOr([]);
              var t := PositionTable(conn, now, resolve);
              var positions' := SyncedPositions(conn, now, resolve, old(positions), ps);
              var orders' := SyncedOrders(conn, resolve, old(orders), os);
              && (r.Err? ==> positions == old(positions) && orders == old(orders) && audit == old(audit))
              && (r == Err(DuplicatePosition) <==> !NewKeysOnce(t, Index(t, old(positions)), ps))
              && (r == Err(DuplicateOrder) <==>
                    NewKeysOnce(t, Index(t, old(positions)), ps)
                    && !(&& NewPairsDiffer(conn, resolve, old(orders), os)
                         && EmptyIdsFree(conn, resolve, old(orders), os)))
              && (r.Ok? ==> positions == positions' && orders == orders'
                            && audit == old(audit) + [AuditRow(conn, now, r.value)]
                            && r.value.upserted + r.value.skipped == |ps|
                            && r.value.ordersUpserted == MappedCount(OrderTable(conn, resolve), os)
                            && r.value.warnings == WarningsOf(resolve, fetched)
                            && r.value.closed == |Vanished(conn, Seen(resolve, ps), old(positions))|)
      ensures PositionsUnique(positions) && IdempotencyKeysUnique(orders)
    {
      var ps, os := fetched.positions.GetOr([]), fetched.orders.GetOr([]);
      var before, ordersBefore := positions, orders;
      var warnings := if fetched.positions.None? then [PositionsFetchFailed] else [];
      var upserted, closed, skipped, unmapped := SyncPositions(conn, ps, now);
      warnings := warnings + unmapped;
      FlushSucceedsIff(conn, now, resolve, before, ps);
      if !PositionsUnique(positions) {
        positions := before;
        return Err(DuplicatePosition);
      }
      warnings := warnings + if fetched.orders.None? then [OrdersFetchFailed] else [];
      var ordersUpserted, unmappedOrders := SyncOrders(conn, os);
      warnings := warnings + unmappedOrders;
      OrderFlushSucceedsIff(conn, resolve, ordersBefore, os);
      if !IdempotencyKeysUnique(orders) {
        positions, orders := before, ordersBefore;
        return Err(DuplicateOrder);
      }
      var summary := Summary(upserted, closed, skipped, ordersUpserted, warnings);
      audit := audit + [AuditRow(conn, now, summary)];
      return Ok(summary);
    }
  }

  lemma NoOrderCounted(conn: nat, resolve: Resolver)
    ensures MappedCount(OrderTable(conn, resolve), []) == 0 && UnmappedOrders(resolve, []) == []
  {
  }

  lemma SeenNothing(resolve: Resolver)
    ensures Seen(resolve, []) == {}
  {
  }

  lemma SeenStep(resolve: Resolver, items: seq<BrokerPosition>, n: nat)
    requires n < |items|
    ensures var x := resolve(items[n].symbol, items[n].exchange);
            Seen(resolve, items[..n + 1]) == Seen(resolve, items[..n]) + if x.Some? then {x.value} else {}
  {
  }
}
