// The pre-trade checks and the order in which validate_action takes them.
module SafetyGuardian {
  import opened Wrappers
  import opened Redis
  import opened DuplicateGuard

  datatype Code = PositionSize | DailyLoss | MaxDrawdown | DuplicateOrder | KillSwitch

  datatype Decision = Allowed | Rejected(code: Code)

  datatype AuditRow = AuditRow(user: nat, code: Code)

  datatype Limits = Limits(maxPositionPct: real, dailyLossPct: real, maxDrawdownPct: real, windowSeconds: nat)

  datatype Proposal = Proposal(symbol: string, side: string, qty: string, value: real)

  datatype Portfolio = Portfolio(value: real, startOfDay: real, peak: real)

  // The sorted-set member; qty is the text of the decimal, so 1 and 1.0 differ.
  function OrderMember(symbol: string, side: string, qty: string): string {
    symbol + "|" + side + "|" + qty
  }

  // Orders whose fields hold no separator get the same member only if equal.
  lemma MembersDistinguish(a: Proposal, b: Proposal)
    requires '|' !in a.symbol && '|' !in b.symbol && '|' !in a.side && '|' !in b.side
    requires OrderMember(a.symbol, a.side, a.qty) == OrderMember(b.symbol, b.side, b.qty)
    ensures a.symbol == b.symbol && a.side == b.side && a.qty == b.qty
  {
    assert OrderMember(a.symbol, a.side, a.qty) == a.symbol + "|" + (a.side + "|" + a.qty);
    assert OrderMember(b.symbol, b.side, b.qty) == b.symbol + "|" + (b.side + "|" + b.qty);
    SplitsOnce(a.symbol, a.side + "|" + a.qty, b.symbol, b.side + "|" + b.qty);
    SplitsOnce(a.side, a.qty, b.side, b.qty);
  }

  lemma {:induction false} SplitsOnce(a: string, restA: string, b: string, restB: string)
    requires '|' !in a && '|' !in b && a + "|" + restA == b + "|" + restB
    ensures a == b && restA == restB
    decreases |a|
  {
    var wholeA, wholeB := a + "|" + restA, b + "|" + restB;
    assert wholeA[0] == if a == "" then '|' else a[0];
    assert wholeB[0] == if b == "" then '|' else b[0];
    if a == "" {
      assert wholeA[1..] == restA && wholeB[1..] == restB;
    } else {
      assert wholeA[1..] == a[1..] + "|" + restA && wholeB[1..] == b[1..] + "|" + restB;
      SplitsOnce(a[1..], restA, b[1..], restB);
      assert a == [a[0]] + a[1..] && b == [b[0]] + b[1..];
    }
  }

  // What each check means, without its division.
  predicate TooLarge(p: Proposal, f: Portfolio, l: Limits) {
    f.value <= 0.0 || p.value > f.value * l.maxPositionPct
  }

  // `now` has fallen below `before` by at least the given share of it.
  predicate FallenBy(before: real, now: real, share: real) {
    0.0 < before && now < before && before - now >= share * before
  }

  // The first failing check among those that only read; None if all pass.
  function FirstViolation(killed: bool, p: Proposal, f: Portfolio, l: Limits): Option<Code> {
    if killed then Some(KillSwitch)
    else if TooLarge(p, f, l) then Some(PositionSize)
    else if FallenBy(f.startOfDay, f.value, l.dailyLossPct) then Some(DailyLoss)
    else if FallenBy(f.peak, f.value, l.maxDrawdownPct) then Some(MaxDrawdown)
    else None
  }

  lemma ShareOf(loss: real, before: real, share: real)
    requires 0.0 < before
    ensures loss / before >= share <==> loss >= share * before
  {
  }

  // Which code is given: that of the first check to fail, for the shares of the
  // portfolio that each looks at.
  lemma ViolationMeans(killed: bool, p: Proposal, f: Portfolio, l: Limits)
    ensures var first := FirstViolation(killed, p, f, l);
            var sized := 0.0 < f.value && p.value <= l.maxPositionPct * f.value;
            var lost := 0.0 < f.startOfDay && f.value < f.startOfDay
                        && (f.startOfDay - f.value) / f.startOfDay >= l.dailyLossPct;
            var down := 0.0 < f.peak && f.value < f.peak && (f.peak - f.value) / f.peak >= l.maxDrawdownPct;
            && (first == Some(KillSwitch) <==> killed)
            && (first == Some(PositionSize) <==> !killed && !sized)
            && (first == Some(DailyLoss) <==> !killed && sized && lost)
            && (first == Some(MaxDrawdown) <==> !killed && sized && !lost && down)
            && (first == None <==> !killed && sized && !lost && !down)
  {
    if 0.0 < f.startOfDay {
      ShareOf(f.startOfDay - f.value, f.startOfDay, l.dailyLossPct);
    }
    if 0.0 < f.peak {
      ShareOf(f.peak - f.value, f.peak, l.maxDrawdownPct);
    }
  }

  class Guardian {
    var now: int
    var orders: map<nat, ZSet<string>>
    var audit: seq<AuditRow>

    constructor (now: int)
      ensures this.now == now && orders == map[] && audit == []
    {
      this.now, orders, audit := now, map[], [];
    }

    function OrdersOf(user: nat): (z: ZSet<string>)
      reads this`orders, this`now
      ensures user in orders ==> Members(z, now) == Members(orders[user], now)
      ensures user !in orders ==> Members(z, now) == map[]
    {
      if user in orders then orders[user] else ZSet(map[], now)
    }

    method RecordViolation(user: nat, code: Code)
      modifies this`audit
      ensures audit == old(audit) + [AuditRow(user, code)]
    {
      audit := audit + [AuditRow(user, code)];
    }

    method ValidatePositionSize(user: nat, p: Proposal, f: Portfolio, l: Limits) returns (d: Decision)
      modifies this`audit
      ensures d == if TooLarge(p, f, l) then Rejected(PositionSize) else Allowed
      ensures d == Allowed <==> 0.0 < f.value && p.value <= l.maxPositionPct * f.value
      ensures audit == old(audit) + if d.Rejected? then [AuditRow(user, d.code)] else []
    {
      if f.value <= 0.0 {
        RecordViolation(user, PositionSize);
        return Rejected(PositionSize);
      }
      var limitValue := f.value * l.maxPositionPct;
      if p.value > limitValue {
        RecordViolation(user, PositionSize);
        return Rejected(PositionSize);
      }
      return Allowed;
    }

    method CheckDailyLoss(user: nat, f: Portfolio, l: Limits) returns (d: Decision)
      modifies this`audit
      ensures d == if FallenBy(f.startOfDay, f.value, l.dailyLossPct) then Rejected(DailyLoss) else Allowed
      ensures d == Rejected(DailyLoss) <==>
              0.0 < f.startOfDay && f.value < f.startOfDay && (f.startOfDay - f.value) / f.startOfDay >= l.dailyLossPct
      ensures audit == old(audit) + if d.Rejected? then [AuditRow(user, d.code)] else []
    {
      if f.startOfDay <= 0.0 {
        return Allowed;
      }
      var loss := f.startOfDay - f.value;
      if loss <= 0.0 {
        return Allowed;
      }
      var lossPct := loss / f.startOfDay;
      ShareOf(loss, f.startOfDay, l.dailyLossPct);
      if lossPct >= l.dailyLossPct {
        RecordViolation(user, DailyLoss);
        return Rejected(DailyLoss);
      }
      return Allowed;
    }

    method CheckMaxDrawdown(user: nat, f: Portfolio, l: Limits) returns (d: Decision)
      modifies this`audit
      ensures d == if FallenBy(f.peak, f.value, l.maxDrawdownPct) then Rejected(MaxDrawdown) else Allowed
      ensures d == Rejected(MaxDrawdown) <==>
              0.0 < f.peak && f.value < f.peak && (f.peak - f.value) / f.peak >= l.maxDrawdownPct
      ensures audit == old(audit) + if d.Rejected? then [AuditRow(user, d.code)] else []
    {
      if f.peak <= 0.0 {
        return Allowed;
      }
      var drawdown := f.peak - f.value;
      if drawdown <= 0.0 {
        return Allowed;
      }
      var drawdownPct := drawdown / f.peak;
      ShareOf(drawdown, f.peak, l.maxDrawdownPct);
      if drawdownPct >= l.maxDrawdownPct {
        RecordViolation(user, MaxDrawdown);
        return Rejected(MaxDrawdown);
      }
      return Allowed;
    }

    method CheckDuplicateOrder(user: nat, p: Proposal, window: nat) returns (d: Decision)
      modifies this`audit, this`orders
      ensures d == if Accepted(window, old(OrdersOf(user)), now, OrderMember(p.symbol, p.side, p.qty))
                   then Allowed else Rejected(DuplicateOrder)
      ensures orders == old(orders)[user := CheckedOrders(window, old(OrdersOf(user)), now,
                                                          OrderMember(p.symbol, p.side, p.qty))]
      ensures audit == old(audit) + if d.Rejected? then [AuditRow(user, d.code)] else []
    {
      var member := OrderMember(p.symbol, p.side, p.qty);
      var trimmed := RemoveByScore(OrdersOf(user), now, None, now - window);
      var added := member !in Members(trimmed, now);
      orders := orders[user := AddNxExpire(trimmed, now, member, now, window * 2)];
      if !added {
        RecordViolation(user, DuplicateOrder);
        return Rejected(DuplicateOrder);
      }
      return Allowed;
    }

    method RecordOrder(user: nat, p: Proposal, window: nat)
      modifies this`orders
      ensures orders == old(orders)[user := AddExpire(old(OrdersOf(user)), now, OrderMember(p.symbol, p.side, p.qty),
                                                      now, 2 * window)]
    {
      orders := orders[user := AddExpire(OrdersOf(user), now, OrderMember(p.symbol, p.side, p.qty), now, window * 2)];
    }

    // `killed` is the kill switch's answer; None when no switch was supplied.
    method ValidateAction(user: nat, killed: Option<bool>, p: Proposal, f: Portfolio, l: Limits)
      returns (d: Decision)
      modifies this`audit, this`orders
      ensures var first := FirstViolation(killed == Some(true), p, f, l);
              var member := OrderMember(p.symbol, p.side, p.qty);
              && d == (if first.Some? then Rejected(first.value)
                       else if Accepted(l.windowSeconds, old(OrdersOf(user)), now, member) then Allowed
                       else Rejected(DuplicateOrder))
              && (first.Some? ==> orders == old(orders))
              && (first.None? ==>
                    orders == old(orders)[user := CheckedOrders(l.windowSeconds, old(OrdersOf(user)), now, member)])
      ensures audit == old(audit) + if d.Rejected? then [AuditRow(user, d.code)] else []
    {
      if killed == Some(true) {
        RecordViolation(user, KillSwitch);
        return Rejected(KillSwitch);
      }
      var size := ValidatePositionSize(user, p, f, l);
      if size.Rejected? {
        return size;
      }
      var daily := CheckDailyLoss(user, f, l);
      if daily.Rejected? {
        return daily;
      }
      var drawdown := CheckMaxDrawdown(user, f, l);
      if drawdown.Rejected? {
        return drawdown;
      }
      d := CheckDuplicateOrder(user, p, l.windowSeconds);
    }
  }

  // What the user's set holds after validate_action: the slot is claimed at this
  // instant exactly when the action is allowed; every score a rejected action
  // leaves behind is one that was there before.
  lemma SlotClaimedIffAllowed(window: nat, z: ZSet<string>, now: int, member: string)
    requires 0 < window
    ensures var after := Members(CheckedOrders(window, z, now, member), now);
            && (Accepted(window, z, now, member) ==> member in after && after[member] == now)
            && (!Accepted(window, z, now, member) ==>
                  && member in after && now - window < after[member]
                  && forall m :: m in after ==> m in Members(z, now) && after[m] == Members(z, now)[m])
            && (forall m :: m in Members(z, now) && now - window < Members(z, now)[m] ==>
                  m in after && after[m] == Members(z, now)[m])
  {
  }
}
