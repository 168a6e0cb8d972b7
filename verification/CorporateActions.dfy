// The corporate-actions service over its tables: detection, anomaly flags and
// the application of a split.
module CorporateActions {
  import opened Wrappers
  import opened SplitAdjust

  const FLAGGED_MARKER: string := "[flagged:qty-anomaly]"

  const QTY_ANOMALY_TOLERANCE: real := 0.00000001

  datatype Order = Order(conn: nat, instrument: nat, buy: bool, filled: bool, quantity: real, createdAt: int)

  datatype Error = NotFound

  // An order that may explain a quantity change seen between two syncs.
  predicate Explains(conn: nat, instrument: nat, from: int, to: int, o: Order) {
    o.conn == conn && o.instrument == instrument && o.filled && from <= o.createdAt <= to
  }

  function SignedSum(conn: nat, instrument: nat, from: int, to: int, orders: seq<Order>): real {
    if orders == [] then 0.0
    else
      var o := orders[|orders| - 1];
      SignedSum(conn, instrument, from, to, orders[..|orders| - 1])
      + (if !Explains(conn, instrument, from, to, o) then 0.0 else if o.buy then o.quantity else -o.quantity)
  }

  // The quantities of the orders of that kind.
  ghost function TotalOf(kind: Order -> bool, orders: seq<Order>): real {
    if orders == [] then 0.0
    else TotalOf(kind, orders[1..]) + if kind(orders[0]) then orders[0].quantity else 0.0
  }

  lemma {:induction false} TotalSnoc(kind: Order -> bool, orders: seq<Order>, o: Order)
    ensures TotalOf(kind, []) == 0.0
    ensures TotalOf(kind, orders + [o]) == TotalOf(kind, orders) + if kind(o) then o.quantity else 0.0
  {
    if orders == [] {
      assert (orders + [o])[1..] == [] && [o][1..] == [];
    } else {
      assert (orders + [o])[1..] == orders[1..] + [o] && (orders + [o])[0] == orders[0];
      TotalSnoc(kind, orders[1..], o);
    }
  }

  // The sum is what was bought less what was sold, in filled orders of this
  // connection and instrument, from the first instant to the last.
  lemma {:induction false} SignedSumMeans(conn: nat, instrument: nat, from: int, to: int, orders: seq<Order>,
                                          bought: Order -> bool, sold: Order -> bool)
    requires forall o :: bought(o) <==> && o.conn == conn && o.instrument == instrument
                                        && o.filled && o.buy && from <= o.createdAt && o.createdAt <= to
    requires forall o :: sold(o) <==> && o.conn == conn && o.instrument == instrument
                                      && o.filled && !o.buy && from <= o.createdAt && o.createdAt <= to
    ensures SignedSum(conn, instrument, from, to, orders) == TotalOf(bought, orders) - TotalOf(sold, orders)
    decreases |orders|
  {
    if orders != [] {
      var rest, o := orders[..|orders| - 1], orders[|orders| - 1];
      SignedSumMeans(conn, instrument, from, to, rest, bought, sold);
      assert orders == rest + [o];
      TotalSnoc(bought, rest, o);
      TotalSnoc(sold, rest, o);
    }
  }

  predicate Within(a: real, b: real, tolerance: real) {
    a - b <= tolerance && b - a <= tolerance
  }

  predicate Unexplained(conn: nat, instrument: nat, previous: real, current: real, from: int, to: int,
                        orders: seq<Order>) {
    && !Within(current, previous, QTY_ANOMALY_TOLERANCE)
    && !Within(current - previous, SignedSum(conn, instrument, from, to, orders), QTY_ANOMALY_TOLERANCE)
  }

  class CorporateActionsService {
    const history: nat   // days of prices before the ex-date that are adjusted
    var bars: seq<Bar>
    var actions: map<nat, ActionRow>
    var cache: set<CacheKey>
    var audit: seq<Audit>
    ghost var applied: seq<Detection>

    constructor (history: nat, bars: seq<Bar>)
      ensures this.history == history && Snapshot() == Init(bars, map[]) && audit == []
    {
      this.history, this.bars := history, bars;
      actions, cache, audit, applied := map[], {}, [], [];
    }

    ghost function Snapshot(): State
      reads this
    {
      State(bars, actions, cache, applied)
    }

    // `id` is the fresh key the table assigns.
    method DetectFromAdjustmentFactor(instrument: nat, exDate: int, factor: real, notes: Option<string>, id: nat)
      returns (r: Option<Detection>)
      requires id !in actions
      modifies this`actions
      ensures Snapshot() == Step(history, old(Snapshot()), Detect(id, ActionRow(instrument, exDate, factor, notes)))
      ensures r == if factor == 1.0 then None else Some(Detection(instrument, exDate, factor, id))
      ensures actions == if factor == 1.0 then old(actions)
                         else old(actions)[id := ActionRow(instrument, exDate, factor, notes)]
    {
      if factor == 1.0 {
        return None;
      }
      actions := actions[id := ActionRow(instrument, exDate, factor, notes)];
      return Some(Detection(instrument, exDate, factor, id));
    }

    // Inserts a row for review; no price is touched.
    method DetectBrokerPositionAnomaly(conn: nat, instrument: nat, previous: real, current: real,
                                       from: int, observed: int,
                                       today: int, orders: seq<Order>, id: nat) returns (flagged: bool)
      requires id !in actions
      modifies this`actions
      ensures flagged <==> Unexplained(conn, instrument, previous, current, from, observed, orders)
      // The change, and its difference from the net fills, are each over 1e-8.
      ensures flagged <==>
                var change, net := current - previous, SignedSum(conn, instrument, from, observed, orders);
                && (change > 0.00000001 || change < -0.00000001)
                && (change - net > 0.00000001 || change - net < -0.00000001)
      ensures actions == if flagged then
                old(actions)[id := ActionRow(instrument, today, if current != 0.0 then previous / current else 1.0,
                                             Some("[flagged:qty-anomaly]"))]
                else old(actions)
    {
      if Within(current, previous, QTY_ANOMALY_TOLERANCE) {
        return false;
      }
      var orderDelta := 0.0;
      assert orders[..0] == [];
      for n := 0 to |orders|
        invariant orderDelta == SignedSum(conn, instrument, from, observed, orders[..n])
      {
        assert orders[..n + 1][..n] == orders[..n];
        var o := orders[n];
        if Explains(conn, instrument, from, observed, o) {
          orderDelta := orderDelta + if o.buy then o.quantity else -o.quantity;
        }
      }
      assert orders[..|orders|] == orders;
      if Within(current - previous, orderDelta, QTY_ANOMALY_TOLERANCE) {
        return false;
      }
      actions := actions[id := ActionRow(instrument, today, if current != 0.0 then previous / current else 1.0,
                                         Some(FLAGGED_MARKER))];
      return true;
    }

    // Deletes the instrument's keys one by one as the scan yields them.
    method InvalidateIndicatorCache(instrument: nat) returns (deleted: nat)
      modifies this`cache
      ensures cache == old(cache) - KeysOf(old(cache), instrument)
      ensures deleted == |KeysOf(old(cache), instrument)|
    {
      var todo := KeysOf(cache, instrument);
      deleted := 0;
      while todo != {}
        invariant todo <= KeysOf(old(cache), instrument)
        invariant cache == old(cache) - (KeysOf(old(cache), instrument) - todo)
        invariant deleted + |todo| == |KeysOf(old(cache), instrument)|
        decreases |todo|
      {
        var key :| key in todo;
        cache := cache - {key};
        todo := todo - {key};
        deleted := deleted + 1;
      }
    }

    method ApplySplit(d: Detection) returns (r: Result<nat, Error>)
      modifies this`bars, this`actions, this`cache, this`audit, this`applied
      ensures Snapshot() == Step(history, old(Snapshot()), Apply(d))
      ensures r.Err? <==> d.actionId !in old(actions)
      ensures r.Ok? ==> r.value == if IsApplied(old(actions)[d.actionId]) then 0
                else |set i | 0 <= i < |old(bars)| && old(bars)[i].instrument == d.instrument
                              && (d.exDate - history) * 86400 <= old(bars)[i].timestamp < d.exDate * 86400|
      ensures audit == old(audit) + if WillAdjust(old(Snapshot()), d)
                then [Audit(d.actionId, r.value, |KeysOf(old(cache), d.instrument)|)] else []
    {
      if d.actionId !in actions {
        return Err(NotFound);
      }
      var row := actions[d.actionId];
      if IsApplied(row) {
        return Ok(0);
      }
      var rowsUpdated := |set i | 0 <= i < |bars| && Covers(history, d, bars[i])|;
      assert (set i | 0 <= i < |bars| && Covers(history, d, bars[i]))
          == (set i | 0 <= i < |bars| && bars[i].instrument == d.instrument
                      && (d.exDate - history) * 86400 <= bars[i].timestamp < d.exDate * 86400);
      bars := Adjusted(history, d, bars);
      var invalidated := InvalidateIndicatorCache(d.instrument);
      actions := actions[d.actionId := Mark(row)];
      applied := applied + [d];
      audit := audit + [Audit(d.actionId, rowsUpdated, invalidated)];
      return Ok(rowsUpdated);
    }
  }
}
