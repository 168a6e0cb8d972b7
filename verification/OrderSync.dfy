// Synchronising one broker connection into the orders table.
module OrderSync {
  import opened Wrappers
  import opened Upserting
  import opened PositionSync

  datatype Order =
    Order(conn: nat, instrument: nat, side: string, orderType: string, quantity: real, limitPrice: Option<real>,
          status: string, brokerId: Option<string>)

  datatype BrokerOrder =
    BrokerOrder(id: string, symbol: string, side: string, orderType: string, quantity: real,
                limitPrice: Option<real>, status: string)

  function StatusToDb(status: string): string {
    if status == "new" then "submitted"
    else if status == "partially_filled" then "partial"
    else if status == "filled" then "filled"
    else if status == "canceled" || status == "expired" then "cancelled"
    else if status == "rejected" then "rejected"
    else "pending"
  }

  // Which broker statuses each status of the table stands for.
  lemma StatusTable(status: string)
    ensures StatusToDb(status) == "submitted" <==> status == "new"
    ensures StatusToDb(status) == "partial" <==> status == "partially_filled"
    ensures StatusToDb(status) == "filled" <==> status == "filled"
    ensures StatusToDb(status) == "cancelled" <==> status in {"canceled", "expired"}
    ensures StatusToDb(status) == "rejected" <==> status == "rejected"
    ensures StatusToDb(status) == "pending" <==>
            status !in {"new", "partially_filled", "filled", "canceled", "expired", "rejected"}
  {
  }

  // Symbols of orders are resolved without an exchange. A row or an order with
  // an empty broker id is never looked up.
  function OrderTable(conn: nat, resolve: Resolver): Table<Order, BrokerOrder, string> {
    Table((r: Order) => if r.conn == conn && r.brokerId.Some? && r.brokerId.value != "" then r.brokerId else None,
          (b: BrokerOrder) => resolve(b.symbol, None).Some?,
          (b: BrokerOrder) => if b.id != "" then Some(b.id) else None,
          (b: BrokerOrder) =>
            Order(conn, resolve(b.symbol, None).GetOr(0), b.side,
                  if b.orderType == "market" || b.orderType == "limit" then b.orderType else "market",
                  b.quantity, b.limitPrice, StatusToDb(b.status), Some(b.id)),
          (r: Order, b: BrokerOrder) =>
            r.(status := StatusToDb(b.status), quantity := b.quantity,
               limitPrice := if b.limitPrice.Some? then b.limitPrice else r.limitPrice))
  }

  function SyncedOrders(conn: nat, resolve: Resolver, rows: seq<Order>, items: seq<BrokerOrder>): seq<Order> {
    var t := OrderTable(conn, resolve);
    Upserted(t, rows, Index(t, rows), items)
  }

  // The unique idempotency key is made of connection, instrument and broker id.
  predicate IdempotencyKeysUnique(rows: seq<Order>) {
    forall i, j :: 0 <= i < j < |rows| && rows[i].brokerId.Some? ==>
      rows[i].conn != rows[j].conn || rows[i].instrument != rows[j].instrument || rows[i].brokerId != rows[j].brokerId
  }

  lemma OrdersLawful(conn: nat, resolve: Resolver)
    ensures OrderTable(conn, resolve).Lawful()
  {
  }

  // The last limit price the response gives for the order, if it gives one.
  function LastLimit(t: Table<Order, BrokerOrder, string>, items: seq<BrokerOrder>, k: string): Option<real> {
    if items == [] then None
    else if IsFor(t, items[|items| - 1], k) && items[|items| - 1].limitPrice.Some? then items[|items| - 1].limitPrice
    else LastLimit(t, items[..|items| - 1], k)
  }

  // The row takes the last reported status and quantity, keeps a limit price the
  // response leaves out, and keeps its instrument, side, type and id.
  lemma {:induction false} OrderRowAfter(conn: nat, resolve: Resolver, r: Order, items: seq<BrokerOrder>, k: string)
    ensures var t := OrderTable(conn, resolve);
            var limit := LastLimit(t, items, k);
            Updates(t, r, items, k)
            == match LastFor(t, items, k)
               case None => r
               case Some(b) => r.(status := StatusToDb(b.status), quantity := b.quantity,
                                  limitPrice := if limit.Some? then limit else r.limitPrice)
    ensures LastFor(OrderTable(conn, resolve), items, k).None? ==> LastLimit(OrderTable(conn, resolve), items, k).None?
  {
    if items != [] {
      OrderRowAfter(conn, resolve, r, items[..|items| - 1], k);
    }
  }

  lemma OrdersRepeatable(conn: nat, resolve: Resolver, items: seq<BrokerOrder>)
    ensures Repeatable(OrderTable(conn, resolve), items)
  {
    var t := OrderTable(conn, resolve);
    forall r, k ensures Updates(t, Updates(t, r, items, k), items, k) == Updates(t, r, items, k) {
      OrderRowAfter(conn, resolve, r, items, k);
      OrderRowAfter(conn, resolve, Updates(t, r, items, k), items, k);
    }
  }

  // No order row is deleted, moved or re-pointed, and rows of other connections
  // are untouched.
  lemma OrdersAppendOnly(conn: nat, resolve: Resolver, rows: seq<Order>, items: seq<BrokerOrder>, i: nat)
    requires i < |rows|
    ensures var rows' := SyncedOrders(conn, resolve, rows, items);
            && i < |rows'|
            && rows'[i] == rows[i].(status := rows'[i].status, quantity := rows'[i].quantity,
                                    limitPrice := rows'[i].limitPrice)
            && (rows[i].conn != conn ==> rows'[i] == rows[i])
  {
    var t := OrderTable(conn, resolve);
    if t.rowKey(rows[i]).Some? {
      OrderRowAfter(conn, resolve, rows[i], items, t.rowKey(rows[i]).value);
    }
  }

  // One row per broker id stays so exactly when no two mapped orders share an id
  // that has no row yet.
  lemma OrdersUniqueIff(conn: nat, resolve: Resolver, rows: seq<Order>, items: seq<BrokerOrder>)
    requires KeysUnique(OrderTable(conn, resolve), rows)
    ensures var t := OrderTable(conn, resolve);
            KeysUnique(t, SyncedOrders(conn, resolve, rows, items)) <==> NewKeysOnce(t, Index(t, rows), items)
  {
    OrdersLawful(conn, resolve);
    UniqueIff(OrderTable(conn, resolve), rows, items);
  }

  // The row reflects the order.
  predicate Reflects(conn: nat, r: Order, b: BrokerOrder) {
    && r.conn == conn && r.brokerId == Some(b.id) && r.status == StatusToDb(b.status) && r.quantity == b.quantity
    && (b.limitPrice.Some? ==> r.limitPrice == b.limitPrice)
  }

  lemma OldRowReflects(conn: nat, resolve: Resolver, r: Order, items: seq<BrokerOrder>, m: nat)
    requires var t := OrderTable(conn, resolve);
             m < |items| && IsLast(t, items, items[m].id, m) && t.rowKey(r) == Some(items[m].id)
    ensures Reflects(conn, Updates(OrderTable(conn, resolve), r, items, items[m].id), items[m])
  {
    var t := OrderTable(conn, resolve);
    LastForIs(t, items, items[m].id, m);
    OrderRowAfter(conn, resolve, r, items, items[m].id);
    if items[m].limitPrice.Some? {
      LimitOfLast(t, items, items[m].id, m);
    }
  }

  // After the sync, each reported order has a row with its status and quantity.
  lemma OrdersConverge(conn: nat, resolve: Resolver, rows: seq<Order>, items: seq<BrokerOrder>, m: nat)
    requires var t := OrderTable(conn, resolve);
             KeysUnique(t, rows) && NewKeysOnce(t, Index(t, rows), items) && m < |items|
             && IsLast(t, items, items[m].id, m)
    ensures var rows' := SyncedOrders(conn, resolve, rows, items);
            var index := Index(OrderTable(conn, resolve), rows');
            items[m].id in index && Reflects(conn, rows'[index[items[m].id]], items[m])
  {
    var t := OrderTable(conn, resolve);
    OrdersLawful(conn, resolve);
    RowFor(t, rows, items, items[m].id, m);
    if items[m].id in Index(t, rows) {
      OldRowReflects(conn, resolve, rows[Index(t, rows)[items[m].id]], items, m);
    }
  }

  lemma {:induction false} LimitOfLast(t: Table<Order, BrokerOrder, string>, items: seq<BrokerOrder>, k: string, m: nat)
    requires IsLast(t, items, k, m) && items[m].limitPrice.Some?
    ensures LastLimit(t, items, k) == items[m].limitPrice
  {
    if m < |items| - 1 {
      LimitOfLast(t, items[..|items| - 1], k, m);
    }
  }

  // Repeating the sync changes no order row at all.
  lemma OrdersIdempotent(conn: nat, resolve: Resolver, rows: seq<Order>, items: seq<BrokerOrder>)
    requires var t := OrderTable(conn, resolve);
             KeysUnique(t, rows) && NewKeysOnce(t, Index(t, rows), items) && AllKeyed(t, items)
    ensures var rows' := SyncedOrders(conn, resolve, rows, items);
            SyncedOrders(conn, resolve, rows', items) == rows'
  {
    OrdersLawful(conn, resolve);
    OrdersRepeatable(conn, resolve, items);
    UpsertAgain(OrderTable(conn, resolve), rows, items);
  }

  // The same insertions, keyed by what the idempotency key is made of.
  function InsertTable(conn: nat, resolve: Resolver, index: map<string, nat>): Table<Order, BrokerOrder, (string,
                       nat)> {
    var t := OrderTable(conn, resolve);
    Table((r: Order) => if r.conn == conn && r.brokerId.Some? then Some((r.brokerId.value, r.instrument)) else None,
          (b: BrokerOrder) => IsNew(t, index, b),
          (b: BrokerOrder) => Some((b.id, resolve(b.symbol, None).GetOr(0))),
          t.create,
          (r: Order, b: BrokerOrder) => r)
  }

  lemma {:induction false} SameInsertions(conn: nat, resolve: Resolver, index: map<string, nat>,
                                          items: seq<BrokerOrder>)
    ensures Insertions(InsertTable(conn, resolve, index), map[], items)
            == Insertions(OrderTable(conn, resolve), index, items)
  {
    if items != [] {
      SameInsertions(conn, resolve, index, items[..|items| - 1]);
    }
  }

  // The idempotency keys of one connection's rows.
  lemma KeysByConnection(conn: nat, resolve: Resolver, index: map<string, nat>, rows: seq<Order>)
    requires IdempotencyKeysUnique(rows)
    ensures KeysUnique(InsertTable(conn, resolve, index), rows)
  {
  }

  // A row with its status, quantity and limit price left out.
  lemma OldRowKey(conn: nat, resolve: Resolver, rows: seq<Order>, items: seq<BrokerOrder>, i: nat)
    requires i < |rows|
    ensures var r := SyncedOrders(conn, resolve, rows, items)[i];
            r.conn == rows[i].conn && r.instrument == rows[i].instrument && r.brokerId == rows[i].brokerId
  {
    OrdersAppendOnly(conn, resolve, rows, items, i);
  }

  // No order without an id meets a row without an id of its own instrument.
  ghost predicate EmptyIdsFree(conn: nat, resolve: Resolver, rows: seq<Order>, items: seq<BrokerOrder>) {
    forall m, i :: 0 <= m < |items| && items[m].id == "" && resolve(items[m].symbol, None).Some?
                   && 0 <= i < |rows| && rows[i].conn == conn && rows[i].brokerId == Some("") ==>
      Some(rows[i].instrument) != resolve(items[m].symbol, None)
  }

  // No two orders without a row share both id and instrument.
  ghost predicate NewPairsDiffer(conn: nat, resolve: Resolver, rows: seq<Order>, items: seq<BrokerOrder>) {
    var t := OrderTable(conn, resolve);
    forall m, n :: 0 <= m < n < |items| && IsNew(t, Index(t, rows), items[m]) && IsNew(t, Index(t, rows), items[n]) ==>
      items[m].id != items[n].id || resolve(items[m].symbol, None) != resolve(items[n].symbol, None)
  }

  // The flush succeeds exactly when no two orders without a row share both id and
  // instrument, and none without an id meets such a row of its instrument.
  lemma OrderFlushSucceedsIff(conn: nat, resolve: Resolver, rows: seq<Order>, items: seq<BrokerOrder>)
    requires IdempotencyKeysUnique(rows)
    ensures IdempotencyKeysUnique(SyncedOrders(conn, resolve, rows, items)) <==>
            NewPairsDiffer(conn, resolve, rows, items) && EmptyIdsFree(conn, resolve, rows, items)
  {
    hide EmptyIdsFree, NewPairsDiffer, NoSharedKey, KeysUnique, NewKeysOnce;
    hide InsertTable, OrderTable, IdempotencyKeysUnique, Index;
    var index := Index(OrderTable(conn, resolve), rows);
    var k := InsertTable(conn, resolve, index);
    var rows' := SyncedOrders(conn, resolve, rows, items);
    var kept, inserted := rows'[..|rows|], rows'[|rows|..];
    SameInsertions(conn, resolve, index, items);
    assert inserted == Insertions(k, map[], items);
    InsertLawful(conn, resolve, index);
    InsertionsUnique(k, map[], items);
    KeptKeys(conn, resolve, rows, items);
    if EmptyIdsFree(conn, resolve, rows, items) {
      FreeShareNothing(conn, resolve, rows, items);
    } else {
      ClashSharesKey(conn, resolve, rows, items);
    }
    UniqueConcat(k, kept, inserted);
    assert rows' == kept + inserted;
    ByConnection(conn, resolve, rows, items);
    NewPairsOnce(conn, resolve, rows, items);
  }

  lemma InsertLawful(conn: nat, resolve: Resolver, index: map<string, nat>)
    ensures InsertTable(conn, resolve, index).Lawful()
  {
  }

  lemma KeptKeys(conn: nat, resolve: Resolver, rows: seq<Order>, items: seq<BrokerOrder>)
    requires IdempotencyKeysUnique(rows)
    ensures KeysUnique(InsertTable(conn, resolve, Index(OrderTable(conn, resolve), rows)),
                       SyncedOrders(conn, resolve, rows, items)[..|rows|])
  {
    var t := OrderTable(conn, resolve);
    var k := InsertTable(conn, resolve, Index(t, rows));
    var kept := SyncedOrders(conn, resolve, rows, items)[..|rows|];
    KeysByConnection(conn, resolve, Index(t, rows), rows);
    forall i | 0 <= i < |rows| ensures k.rowKey(kept[i]) == k.rowKey(rows[i]) {
      OldRowKey(conn, resolve, rows, items, i);
    }
    SameKeysUnique(k, rows, kept);
  }

  // A new order's key is on an old row only if both lack an id.
  lemma NewKeyOnOldRow(conn: nat, resolve: Resolver, rows: seq<Order>, items: seq<BrokerOrder>, r: Order, i: nat)
    requires var t := OrderTable(conn, resolve);
             CreatedFrom(t, Index(t, rows), items, r) && EmptyIdsFree(conn, resolve, rows, items)
    requires i < |rows| && rows[i].conn == conn && rows[i].brokerId.Some?
    ensures r.conn == conn && (rows[i].brokerId != r.brokerId || rows[i].instrument != r.instrument)
  {
    var t := OrderTable(conn, resolve);
    var m :| 0 <= m < |items| && IsNew(t, Index(t, rows), items[m]) && r == t.create(items[m]);
    var key := t.rowKey(rows[i]);
    assert key.Some? ==> key.value in Index(t, rows);
    assert Some(r.instrument) == resolve(items[m].symbol, None);
  }

  lemma FreeKeysDiffer(conn: nat, resolve: Resolver, rows: seq<Order>, items: seq<BrokerOrder>, i: nat, j: nat)
    requires EmptyIdsFree(conn, resolve, rows, items) && i < |rows| <= j < |SyncedOrders(conn, resolve, rows, items)|
    ensures var k := InsertTable(conn, resolve, Index(OrderTable(conn, resolve), rows));
            var rows' := SyncedOrders(conn, resolve, rows, items);
            k.rowKey(rows'[i]).Some? ==> k.rowKey(rows'[i]) != k.rowKey(rows'[j])
  {
    var t := OrderTable(conn, resolve);
    InsertedAt(t, rows, items, j);
    OldRowKey(conn, resolve, rows, items, i);
    hide Index, EmptyIdsFree, CreatedFrom;
    if rows[i].conn == conn && rows[i].brokerId.Some? {
      NewKeyOnOldRow(conn, resolve, rows, items, SyncedOrders(conn, resolve, rows, items)[j], i);
    }
  }

  lemma FreeShareNothing(conn: nat, resolve: Resolver, rows: seq<Order>, items: seq<BrokerOrder>)
    requires EmptyIdsFree(conn, resolve, rows, items)
    ensures var k := InsertTable(conn, resolve, Index(OrderTable(conn, resolve), rows));
            var rows' := SyncedOrders(conn, resolve, rows, items);
            NoSharedKey(k, rows'[..|rows|], rows'[|rows|..])
  {
    hide EmptyIdsFree, InsertTable, Index, OrderTable, NoSharedKey;
    var k := InsertTable(conn, resolve, Index(OrderTable(conn, resolve), rows));
    var rows' := SyncedOrders(conn, resolve, rows, items);
    forall i, j | 0 <= i < |rows| <= j < |rows'| && k.rowKey(rows'[i]).Some?
      ensures k.rowKey(rows'[i]) != k.rowKey(rows'[j])
    {
      FreeKeysDiffer(conn, resolve, rows, items, i, j);
    }
    NoSharedKeyAt(k, rows', |rows|);
  }

  lemma ClashSharesKey(conn: nat, resolve: Resolver, rows: seq<Order>, items: seq<BrokerOrder>)
    requires !EmptyIdsFree(conn, resolve, rows, items)
    ensures var k := InsertTable(conn, resolve, Index(OrderTable(conn, resolve), rows));
            var rows' := SyncedOrders(conn, resolve, rows, items);
            !NoSharedKey(k, rows'[..|rows|], rows'[|rows|..])
  {
    hide NoSharedKey, InsertTable, Index, OrderTable;
    var m, i :| 0 <= m < |items| && items[m].id == "" && resolve(items[m].symbol, None).Some?
                && 0 <= i < |rows| && rows[i].conn == conn && rows[i].brokerId == Some("")
                && Some(rows[i].instrument) == resolve(items[m].symbol, None);
    EmptyIdsShare(conn, resolve, rows, items, m, i);
  }

  lemma EmptyIdsShare(conn: nat, resolve: Resolver, rows: seq<Order>, items: seq<BrokerOrder>, m: nat, i: nat)
    requires m < |items| && items[m].id == "" && resolve(items[m].symbol, None).Some?
    requires i < |rows| && rows[i].conn == conn && rows[i].brokerId == Some("")
    requires Some(rows[i].instrument) == resolve(items[m].symbol, None)
    ensures var k := InsertTable(conn, resolve, Index(OrderTable(conn, resolve), rows));
            var rows' := SyncedOrders(conn, resolve, rows, items);
            !NoSharedKey(k, rows'[..|rows|], rows'[|rows|..])
  {
    var k := InsertTable(conn, resolve, Index(OrderTable(conn, resolve), rows));
    var rows' := SyncedOrders(conn, resolve, rows, items);
    var kept, inserted := rows'[..|rows|], rows'[|rows|..];
    EmptyIdInserted(conn, resolve, rows, items, m);
    OldRowKey(conn, resolve, rows, items, i);
    hide Index, SyncedOrders;
    var j :| 0 <= j < |inserted| && inserted[j] == OrderTable(conn, resolve).create(items[m]);
    assert k.rowKey(kept[i]) == k.rowKey(inserted[j]) && k.rowKey(kept[i]).Some?;
  }

  // An order without an id is inserted whatever the table holds.
  lemma EmptyIdInserted(conn: nat, resolve: Resolver, rows: seq<Order>, items: seq<BrokerOrder>, m: nat)
    requires m < |items| && items[m].id == "" && resolve(items[m].symbol, None).Some?
    ensures OrderTable(conn, resolve).create(items[m]) in SyncedOrders(conn, resolve, rows, items)[|rows|..]
  {
    var t := OrderTable(conn, resolve);
    assert IsNew(t, Index(t, rows), items[m]);
    InsertedFrom(t, Index(t, rows), items);
    assert SyncedOrders(conn, resolve, rows, items)[|rows|..] == Insertions(t, Index(t, rows), items);
  }

  lemma ByConnection(conn: nat, resolve: Resolver, rows: seq<Order>, items: seq<BrokerOrder>)
    requires IdempotencyKeysUnique(rows)
    ensures var k := InsertTable(conn, resolve, Index(OrderTable(conn, resolve), rows));
            var rows' := SyncedOrders(conn, resolve, rows, items);
            IdempotencyKeysUnique(rows') <==> KeysUnique(k, rows')
  {
    var k := InsertTable(conn, resolve, Index(OrderTable(conn, resolve), rows));
    var rows' := SyncedOrders(conn, resolve, rows, items);
    if KeysUnique(k, rows') {
      forall i, j | 0 <= i < j < |rows'| && rows'[i].brokerId.Some? && rows'[i].conn == rows'[j].conn
        ensures rows'[i].instrument != rows'[j].instrument || rows'[i].brokerId != rows'[j].brokerId
      {
        RowsByConnection(conn, resolve, rows, items, i);
        RowsByConnection(conn, resolve, rows, items, j);
        assert rows'[i].conn == conn ==> k.rowKey(rows'[i]) != k.rowKey(rows'[j]);
      }
    }
    if IdempotencyKeysUnique(rows') {
      KeysByConnection(conn, resolve, Index(OrderTable(conn, resolve), rows), rows');
    }
  }

  // Inserted rows are the connection's own; other connections' rows are old ones.
  lemma RowsByConnection(conn: nat, resolve: Resolver, rows: seq<Order>, items: seq<BrokerOrder>, i: nat)
    requires i < |SyncedOrders(conn, resolve, rows, items)|
    ensures var r := SyncedOrders(conn, resolve, rows, items)[i];
            if i < |rows| then r.conn != conn ==> r == rows[i] else r.conn == conn
  {
    var t := OrderTable(conn, resolve);
    if i < |rows| {
      OrdersAppendOnly(conn, resolve, rows, items, i);
    } else {
      InsertedAt(t, rows, items, i);
      assert CreatedFrom(t, Index(t, rows), items, SyncedOrders(conn, resolve, rows, items)[i]);
    }
  }

  lemma NewPairsOnce(conn: nat, resolve: Resolver, rows: seq<Order>, items: seq<BrokerOrder>)
    ensures NewKeysOnce(InsertTable(conn, resolve, Index(OrderTable(conn, resolve), rows)), map[], items) <==>
            NewPairsDiffer(conn, resolve, rows, items)
  {
    var t := OrderTable(conn, resolve);
    var index := Index(t, rows);
    var k := InsertTable(conn, resolve, index);
    assert forall m :: 0 <= m < |items| ==> (IsNew(k, map[], items[m]) <==> IsNew(t, index, items[m]));
  }

  // Once a sync has succeeded, repeating it succeeds exactly when every mapped
  // order of the response has an id.
  lemma RepeatSucceedsIff(conn: nat, resolve: Resolver, rows: seq<Order>, items: seq<BrokerOrder>)
    requires IdempotencyKeysUnique(SyncedOrders(conn, resolve, rows, items))
    ensures var once := SyncedOrders(conn, resolve, rows, items);
            IdempotencyKeysUnique(SyncedOrders(conn, resolve, once, items))
            <==> AllKeyed(OrderTable(conn, resolve), items)
  {
    hide OrderTable, SyncedOrders, IdempotencyKeysUnique, NewPairsDiffer, EmptyIdsFree, AllKeyed;
    OrderFlushSucceedsIff(conn, resolve, SyncedOrders(conn, resolve, rows, items), items);
    if AllKeyed(OrderTable(conn, resolve), items) {
      NothingNewAgain(conn, resolve, rows, items);
    } else {
      EmptyIdClashes(conn, resolve, rows, items);
    }
  }

  lemma EmptyIdClashes(conn: nat, resolve: Resolver, rows: seq<Order>, items: seq<BrokerOrder>)
    requires !AllKeyed(OrderTable(conn, resolve), items)
    ensures !EmptyIdsFree(conn, resolve, SyncedOrders(conn, resolve, rows, items), items)
  {
    var t := OrderTable(conn, resolve);
    var m :| 0 <= m < |items| && t.mapped(items[m]) && t.itemKey(items[m]).None?;
    EmptyIdInserted(conn, resolve, rows, items, m);
    hide SyncedOrders, Index;
    var once := SyncedOrders(conn, resolve, rows, items);
    var r := t.create(items[m]);
    assert r in once;
    assert r.conn == conn && r.brokerId == Some("") && Some(r.instrument) == resolve(items[m].symbol, None);
    var i :| 0 <= i < |once| && once[i] == r;
  }

  lemma NothingNewAgain(conn: nat, resolve: Resolver, rows: seq<Order>, items: seq<BrokerOrder>)
    requires AllKeyed(OrderTable(conn, resolve), items)
    ensures var once := SyncedOrders(conn, resolve, rows, items);
            NewPairsDiffer(conn, resolve, once, items) && EmptyIdsFree(conn, resolve, once, items)
  {
    var t := OrderTable(conn, resolve);
    var once := SyncedOrders(conn, resolve, rows, items);
    OrdersLawful(conn, resolve);
    forall m | 0 <= m < |items| ensures !IsNew(t, Index(t, once), items[m]) {
      if t.mapped(items[m]) {
        HasRow(t, rows, items, m);
      }
    }
    forall m | 0 <= m < |items| && resolve(items[m].symbol, None).Some? ensures items[m].id != "" {
      assert t.mapped(items[m]) && t.itemKey(items[m]).Some?;
    }
    hide Index, Upserted;
  }

  // An order without a broker id is inserted every time, so the second sync
  // breaks the idempotency key whatever the table held.
  lemma EmptyIdBreaksRepeat(conn: nat, resolve: Resolver, rows: seq<Order>, b: BrokerOrder)
    requires b.id == "" && resolve(b.symbol, None).Some?
    ensures var once := SyncedOrders(conn, resolve, rows, [b]);
            once == rows + [OrderTable(conn, resolve).create(b)]
            && !IdempotencyKeysUnique(SyncedOrders(conn, resolve, once, [b]))
  {
    var t := OrderTable(conn, resolve);
    SingleNew(conn, resolve, rows, b);
    var once := SyncedOrders(conn, resolve, rows, [b]);
    SingleNew(conn, resolve, once, b);
    var twice := SyncedOrders(conn, resolve, once, [b]);
    assert twice[|rows|] == t.create(b) && twice[|rows| + 1] == t.create(b);
  }

  lemma SingleNew(conn: nat, resolve: Resolver, rows: seq<Order>, b: BrokerOrder)
    requires b.id == "" && resolve(b.symbol, None).Some?
    ensures SyncedOrders(conn, resolve, rows, [b]) == rows + [OrderTable(conn, resolve).create(b)]
  {
    var t := OrderTable(conn, resolve);
    UpsertStep(t, rows, Index(t, rows), [b], 0);
    assert [b][..0] == [] && [b][..1] == [b];
    UpsertNothing(t, rows, Index(t, rows));
  }
}
