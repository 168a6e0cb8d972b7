// Synchronising one broker connection into the positions table.
module PositionSync {
  import opened Wrappers
  import opened Upserting

  datatype Position = Position(conn: nat, instrument: nat, quantity: real, avgCost: real, currency: string, asOf: int)

  datatype BrokerPosition =
    BrokerPosition(symbol: string, exchange: Option<string>, quantity: real, avgEntryPrice: real, currency: string)

  // normalize_symbol: the instrument of a broker symbol and exchange, if any.
  type Resolver = (string, Option<string>) -> Option<nat>

  function PositionTable(conn: nat, now: int, resolve: Resolver): Table<Position, BrokerPosition, nat> {
    Table((r: Position) => if r.conn == conn then Some(r.instrument) else None,
          (b: BrokerPosition) => resolve(b.symbol, b.exchange).Some?,
          (b: BrokerPosition) => resolve(b.symbol, b.exchange),
          (b: BrokerPosition) =>
            Position(conn, resolve(b.symbol, b.exchange).GetOr(0), b.quantity, b.avgEntryPrice, b.currency, now),
          (r: Position, b: BrokerPosition) =>
            r.(quantity := b.quantity, avgCost := b.avgEntryPrice, currency := b.currency, asOf := now))
  }

  function Seen(resolve: Resolver, items: seq<BrokerPosition>): set<nat> {
    set m | 0 <= m < |items| && resolve(items[m].symbol, items[m].exchange).Some? ::
      resolve(items[m].symbol, items[m].exchange).value
  }

  // A row of the connection whose instrument the broker no longer reports.
  predicate Gone(conn: nat, seen: set<nat>, r: Position) {
    r.conn == conn && r.instrument !in seen
  }

  function Closed(conn: nat, now: int, seen: set<nat>, r: Position): Position {
    if Gone(conn, seen, r) then r.(quantity := 0.0, asOf := now) else r
  }

  function CloseGone(conn: nat, now: int, seen: set<nat>, rows: seq<Position>): seq<Position> {
    seq(|rows|, i requires 0 <= i < |rows| => Closed(conn, now, seen, rows[i]))
  }

  function SyncedPositions(conn: nat, now: int, resolve: Resolver, rows: seq<Position>, items: seq<BrokerPosition>)
    : seq<Position>
  {
    var t := PositionTable(conn, now, resolve);
    CloseGone(conn, now, Seen(resolve, items), Upserted(t, rows, Index(t, rows), items))
  }

  // The rows a sync closes: gone, and not closed before.
  function Vanished(conn: nat, seen: set<nat>, rows: seq<Position>): set<nat> {
    set i | 0 <= i < |rows| && Gone(conn, seen, rows[i]) && rows[i].quantity != 0.0
  }

  // The table's unique constraint on connection and instrument.
  predicate PositionsUnique(rows: seq<Position>) {
    forall i, j :: 0 <= i < j < |rows| ==> rows[i].conn != rows[j].conn || rows[i].instrument != rows[j].instrument
  }

  lemma PositionsLawful(conn: nat, now: int, resolve: Resolver)
    ensures PositionTable(conn, now, resolve).Lawful()
  {
    var t := PositionTable(conn, now, resolve);
    forall b | t.mapped(b) ensures t.rowKey(t.create(b)) == t.itemKey(b) {
      assert t.create(b).instrument == resolve(b.symbol, b.exchange).value;
    }
  }

  lemma UniqueByConnection(conn: nat, now: int, resolve: Resolver, rows: seq<Position>)
    requires PositionsUnique(rows)
    ensures KeysUnique(PositionTable(conn, now, resolve), rows)
  {
  }

  // What the response's rows for instrument x make of its row.
  lemma {:induction false} LastPositionWins(conn: nat, now: int, resolve: Resolver, r: Position,
                                            items: seq<BrokerPosition>, x: nat)
    ensures var t := PositionTable(conn, now, resolve);
            Updates(t, r, items, x)
            == match LastFor(t, items, x)
               case None => r
               case Some(b) => r.(quantity := b.quantity, avgCost := b.avgEntryPrice, currency := b.currency,
                                  asOf := now)
  {
    if items != [] {
      LastPositionWins(conn, now, resolve, r, items[..|items| - 1], x);
    }
  }

  lemma InSeen(conn: nat, now: int, resolve: Resolver, items: seq<BrokerPosition>, x: nat)
    ensures x in Seen(resolve, items) <==> LastFor(PositionTable(conn, now, resolve), items, x).Some?
  {
  }

  // ---- what one sync does to the table

  lemma SyncedAt(conn: nat, now: int, resolve: Resolver, rows: seq<Position>, items: seq<BrokerPosition>, i: nat)
    requires PositionsUnique(rows) && i < |rows|
    ensures var t := PositionTable(conn, now, resolve);
            var rows' := SyncedPositions(conn, now, resolve, rows, items);
            && i < |rows'|
            && rows'[i] == if rows[i].conn != conn then rows[i]
                           else match LastFor(t, items, rows[i].instrument)
                             case None => rows[i].(quantity := 0.0, asOf := now)
                             case Some(b) => rows[i].(quantity := b.quantity, avgCost := b.avgEntryPrice,
                                                      currency := b.currency, asOf := now)
  {
    var t := PositionTable(conn, now, resolve);
    PositionsLawful(conn, now, resolve);
    UniqueByConnection(conn, now, resolve, rows);
    UpsertedAt(t, rows, items, i);
    LastPositionWins(conn, now, resolve, rows[i], items, rows[i].instrument);
    InSeen(conn, now, resolve, items, rows[i].instrument);
  }

  // The rows beyond the old ones are the new items' own.
  lemma SyncedInserted(conn: nat, now: int, resolve: Resolver, rows: seq<Position>, items: seq<BrokerPosition>, j: nat)
    requires |rows| <= j < |SyncedPositions(conn, now, resolve, rows, items)|
    ensures var t := PositionTable(conn, now, resolve);
            CreatedFrom(t, Index(t, rows), items, SyncedPositions(conn, now, resolve, rows, items)[j])
  {
    var t := PositionTable(conn, now, resolve);
    InsertedFrom(t, Index(t, rows), items);
    var r := Upserted(t, rows, Index(t, rows), items)[j];
    assert r == Insertions(t, Index(t, rows), items)[j - |rows|];
    assert CreatedFrom(t, Index(t, rows), items, r);
    var m :| 0 <= m < |items| && IsNew(t, Index(t, rows), items[m]) && r == t.create(items[m]);
    assert r.instrument in Seen(resolve, items);
  }

  // The flush fails exactly when two response rows resolve to one instrument
  // that has no local row: the index does not see the first insert.
  lemma FlushSucceedsIff(conn: nat, now: int, resolve: Resolver, rows: seq<Position>, items: seq<BrokerPosition>)
    requires PositionsUnique(rows)
    ensures var t := PositionTable(conn, now, resolve);
            PositionsUnique(SyncedPositions(conn, now, resolve, rows, items)) <==> NewKeysOnce(t, Index(t, rows), items)
  {
    var t := PositionTable(conn, now, resolve);
    var upserted := Upserted(t, rows, Index(t, rows), items);
    var rows' := SyncedPositions(conn, now, resolve, rows, items);
    PositionsLawful(conn, now, resolve);
    UniqueByConnection(conn, now, resolve, rows);
    UniqueIff(t, rows, items);
    assert forall i :: 0 <= i < |rows'| ==> t.rowKey(rows'[i]) == t.rowKey(upserted[i]);
    if PositionsUnique(rows') {
      UniqueByConnection(conn, now, resolve, rows');
      SameKeysUnique(t, rows', upserted);
    } else {
      var i, j :| 0 <= i < j < |rows'| && rows'[i].conn == rows'[j].conn && rows'[i].instrument == rows'[j].instrument;
      OldRow(conn, now, resolve, rows, items, i);
      OldRow(conn, now, resolve, rows, items, j);
      assert t.rowKey(upserted[i]) == t.rowKey(upserted[j]) && t.rowKey(upserted[i]).Some?;
    }
  }

  // A row of another connection was there before; an old row keeps its identity.
  lemma OldRow(conn: nat, now: int, resolve: Resolver, rows: seq<Position>, items: seq<BrokerPosition>, i: nat)
    requires PositionsUnique(rows) && i < |SyncedPositions(conn, now, resolve, rows, items)|
    ensures var rows' := SyncedPositions(conn, now, resolve, rows, items);
            && (rows'[i].conn != conn ==> i < |rows|)
            && (i < |rows| ==> rows'[i].conn == rows[i].conn && rows'[i].instrument == rows[i].instrument)
  {
    if i < |rows| {
      SyncedAt(conn, now, resolve, rows, items, i);
    } else {
      SyncedInserted(conn, now, resolve, rows, items, i);
    }
  }

  // No row is deleted or moved, and rows of other connections are untouched.
  lemma OthersUntouched(conn: nat, now: int, resolve: Resolver, rows: seq<Position>, items: seq<BrokerPosition>, i: nat)
    requires PositionsUnique(rows) && i < |rows|
    ensures var rows' := SyncedPositions(conn, now, resolve, rows, items);
            && |rows| <= |rows'| && rows'[i].conn == rows[i].conn && rows'[i].instrument == rows[i].instrument
            && (rows[i].conn != conn ==> rows'[i] == rows[i])
            && forall j :: |rows| <= j < |rows'| ==> rows'[j].conn == conn
  {
    SyncedAt(conn, now, resolve, rows, items, i);
    var rows' := SyncedPositions(conn, now, resolve, rows, items);
    forall j | |rows| <= j < |rows'| ensures rows'[j].conn == conn {
      OldRow(conn, now, resolve, rows, items, j);
    }
  }

  // The row holds what the broker last reported for its instrument, or nothing.
  ghost predicate Mirrors(conn: nat, now: int, resolve: Resolver, items: seq<BrokerPosition>, r: Position) {
    && r.asOf == now
    && match LastFor(PositionTable(conn, now, resolve), items, r.instrument)
       case None => r.quantity == 0.0
       case Some(b) => r.quantity == b.quantity && r.avgCost == b.avgEntryPrice && r.currency == b.currency
  }

  lemma RowMirrors(conn: nat, now: int, resolve: Resolver, rows: seq<Position>, items: seq<BrokerPosition>, i: nat)
    requires PositionsUnique(rows) && PositionsUnique(SyncedPositions(conn, now, resolve, rows, items))
    requires i < |SyncedPositions(conn, now, resolve, rows, items)|
    ensures var r := SyncedPositions(conn, now, resolve, rows, items)[i];
            r.conn == conn ==> Mirrors(conn, now, resolve, items, r)
  {
    var t := PositionTable(conn, now, resolve);
    if i < |rows| {
      SyncedAt(conn, now, resolve, rows, items, i);
    } else {
      SyncedInserted(conn, now, resolve, rows, items, i);
      FlushSucceedsIff(conn, now, resolve, rows, items);
      var r := SyncedPositions(conn, now, resolve, rows, items)[i];
      var m :| 0 <= m < |items| && IsNew(t, Index(t, rows), items[m]) && r == t.create(items[m]);
      forall n | m < n < |items| ensures !IsFor(t, items[n], r.instrument) {
        if IsFor(t, items[n], r.instrument) {
          assert IsNew(t, Index(t, rows), items[n]);
        }
      }
      LastForIs(t, items, r.instrument, m);
    }
  }

  // A successful sync leaves the connection holding what the broker reports: one
  // row for each mapped instrument, holding its last reported figures, and zero
  // on every other row of the connection.
  lemma Converges(conn: nat, now: int, resolve: Resolver, rows: seq<Position>, items: seq<BrokerPosition>)
    requires PositionsUnique(rows) && PositionsUnique(SyncedPositions(conn, now, resolve, rows, items))
    ensures var rows' := SyncedPositions(conn, now, resolve, rows, items);
            && (forall i :: 0 <= i < |rows'| && rows'[i].conn == conn ==> Mirrors(conn, now, resolve, items, rows'[i]))
            && (forall x :: x in Seen(resolve, items) ==>
                  exists i :: 0 <= i < |rows'| && rows'[i].conn == conn && rows'[i].instrument == x)
  {
    var rows' := SyncedPositions(conn, now, resolve, rows, items);
    forall i | 0 <= i < |rows'| && rows'[i].conn == conn ensures Mirrors(conn, now, resolve, items, rows'[i]) {
      RowMirrors(conn, now, resolve, rows, items, i);
    }
    forall x | x in Seen(resolve, items)
      ensures exists i :: 0 <= i < |rows'| && rows'[i].conn == conn && rows'[i].instrument == x
    {
      HeldSomewhere(conn, now, resolve, rows, items, x);
    }
  }

  lemma HeldSomewhere(conn: nat, now: int, resolve: Resolver, rows: seq<Position>, items: seq<BrokerPosition>, x: nat)
    requires x in Seen(resolve, items)
    ensures var rows' := SyncedPositions(conn, now, resolve, rows, items);
            exists i :: 0 <= i < |rows'| && rows'[i].conn == conn && rows'[i].instrument == x
  {
    var t := PositionTable(conn, now, resolve);
    var upserted := Upserted(t, rows, Index(t, rows), items);
    PositionsLawful(conn, now, resolve);
    var m :| 0 <= m < |items| && resolve(items[m].symbol, items[m].exchange) == Some(x);
    HasRow(t, rows, items, m);
    var i := Index(t, upserted)[x];
    assert t.rowKey(upserted[i]) == Some(x);
    assert SyncedPositions(conn, now, resolve, rows, items)[i].instrument == x;
  }

  function Restamp(conn: nat, now: int, rows: seq<Position>): seq<Position> {
    seq(|rows|, i requires 0 <= i < |rows| => if rows[i].conn == conn then rows[i].(asOf := now) else rows[i])
  }

  lemma {:induction false} LastForAnyTime(conn: nat, now: int, later: int, resolve: Resolver,
                                          items: seq<BrokerPosition>, x: nat)
    ensures LastFor(PositionTable(conn, now, resolve), items, x)
            == LastFor(PositionTable(conn, later, resolve), items, x)
  {
    if items != [] {
      LastForAnyTime(conn, now, later, resolve, items[..|items| - 1], x);
    }
  }

  // Repeating a successful sync changes nothing but as_of, and closes nothing.
  lemma Idempotent(conn: nat, now: int, later: int, resolve: Resolver, rows: seq<Position>, items: seq<BrokerPosition>)
    requires PositionsUnique(rows) && PositionsUnique(SyncedPositions(conn, now, resolve, rows, items))
    ensures var rows' := SyncedPositions(conn, now, resolve, rows, items);
            && SyncedPositions(conn, later, resolve, rows', items) == Restamp(conn, later, rows')
            && PositionsUnique(Restamp(conn, later, rows'))
            && Vanished(conn, Seen(resolve, items), rows') == {}
  {
    var rows' := SyncedPositions(conn, now, resolve, rows, items);
    var t := PositionTable(conn, later, resolve);
    Converges(conn, now, resolve, rows, items);
    forall m | 0 <= m < |items| ensures !IsNew(t, Index(t, rows'), items[m]) {
      if t.mapped(items[m]) {
        var x := t.itemKey(items[m]).value;
        assert x in Seen(resolve, items);
        var i :| 0 <= i < |rows'| && rows'[i].conn == conn && rows'[i].instrument == x;
        assert t.rowKey(rows'[i]) == Some(x);
      }
    }
    NoneNew(t, Index(t, rows'), items);
    var again := SyncedPositions(conn, later, resolve, rows', items);
    forall i | 0 <= i < |rows'| ensures again[i] == Restamp(conn, later, rows')[i] {
      SyncedAt(conn, later, resolve, rows', items, i);
      LastForAnyTime(conn, now, later, resolve, items, rows'[i].instrument);
    }
    forall i | i in Vanished(conn, Seen(resolve, items), rows') ensures false {
      InSeen(conn, now, resolve, items, rows'[i].instrument);
    }
  }

  // A failed fetch is taken for an empty response: it zeroes the connection.
  lemma FailedFetchClosesAll(conn: nat, now: int, resolve: Resolver, rows: seq<Position>, i: nat)
    requires PositionsUnique(rows) && i < |rows|
    ensures var rows' := SyncedPositions(conn, now, resolve, rows, []);
            rows'[i] == if rows[i].conn == conn then rows[i].(quantity := 0.0, asOf := now) else rows[i]
  {
  }
}
