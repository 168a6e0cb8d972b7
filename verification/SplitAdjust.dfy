// Split detection and the adjustment of stored prices.
module SplitAdjust {
  import opened Wrappers

  const APPLIED_MARKER: string := "[applied]"

  // Timestamps are in seconds, ex-dates in days, at UTC.
  const DAY: int := 86400

  datatype Bar =
    Bar(instrument: nat, timestamp: int, open: real, high: real, low: real, close: real, volume: real)

  datatype ActionRow = ActionRow(instrument: nat, exDate: int, factor: real, notes: Option<string>)

  datatype Detection = Detection(instrument: nat, exDate: int, factor: real, actionId: nat)

  predicate OccursAt(text: string, part: string, i: nat) {
    i + |part| <= |text| && text[i..i + |part|] == part
  }

  predicate Contains(text: string, part: string) {
    exists i :: 0 <= i <= |text| && OccursAt(text, part, i)
  }

  predicate IsApplied(row: ActionRow) {
    row.notes.Some? && Contains(row.notes.value, APPLIED_MARKER)
  }

  function Mark(row: ActionRow): ActionRow {
    var before := if row.notes.Some? && row.notes.value != "" then row.notes.value + " " else "";
    row.(notes := Some(before + APPLIED_MARKER))
  }

  lemma MarkedIsApplied(row: ActionRow)
    ensures IsApplied(Mark(row))
    ensures Mark(row).(notes := row.notes) == row
    ensures Mark(row).notes == Some(if row.notes.GetOr("") == "" then "[applied]" else row.notes.value + " [applied]")
  {
    var text := Mark(row).notes.value;
    var i := |text| - |APPLIED_MARKER|;
    assert OccursAt(text, APPLIED_MARKER, i);
    assert " " + APPLIED_MARKER == " [applied]";
    if row.notes.GetOr("") == "" {
      assert "" + APPLIED_MARKER == APPLIED_MARKER;
    } else {
      assert row.notes.value + " " + APPLIED_MARKER == row.notes.value + (" " + APPLIED_MARKER);
    }
  }

  lemma AppliedIff(row: ActionRow)
    ensures IsApplied(row) <==> row.notes.Some? && exists a, b :: row.notes.value == a + "[applied]" + b
  {
    if row.notes.Some? {
      var text := row.notes.value;
      if a, b :| text == a + "[applied]" + b {
        assert OccursAt(text, APPLIED_MARKER, |a|);
      }
      if i :| 0 <= i <= |text| && OccursAt(text, APPLIED_MARKER, i) {
        assert text == text[..i] + "[applied]" + text[i + 9..];
      }
    }
  }

  // The bar lies in the window [ex - history, ex) of the split.
  predicate Covers(history: nat, d: Detection, b: Bar) {
    b.instrument == d.instrument && (d.exDate - history) * DAY <= b.timestamp < d.exDate * DAY
  }

  function VolumeFactor(factor: real): real {
    if factor != 0.0 then 1.0 / factor else 1.0
  }

  function Scaled(b: Bar, price: real, volume: real): Bar {
    b.(open := b.open * price, high := b.high * price, low := b.low * price, close := b.close * price,
       volume := b.volume * volume)
  }

  function AdjustBar(history: nat, d: Detection, b: Bar): Bar {
    if Covers(history, d, b) then Scaled(b, d.factor, VolumeFactor(d.factor)) else b
  }

  // ---------------------------------------------------------------- the service

  // Cached indicators are keyed by instrument and indicator.
  datatype CacheKey = CacheKey(instrument: nat, indicator: string)

  datatype Audit = Audit(actionId: nat, rowsUpdated: nat, invalidated: nat)

  // `applied` lists the detections whose adjustment was carried out.
  datatype State = State(bars: seq<Bar>, actions: map<nat, ActionRow>, cache: set<CacheKey>, applied: seq<Detection>)

  datatype Call =
    | Apply(d: Detection)
    | Detect(id: nat, row: ActionRow)   // inserts a row under a fresh id
    | CacheWrite(key: CacheKey)

  predicate WillAdjust(s: State, d: Detection) {
    d.actionId in s.actions && !IsApplied(s.actions[d.actionId])
  }

  function Adjusted(history: nat, d: Detection, bars: seq<Bar>): seq<Bar> {
    seq(|bars|, i requires 0 <= i < |bars| => AdjustBar(history, d, bars[i]))
  }

  function KeysOf(cache: set<CacheKey>, instrument: nat): set<CacheKey> {
    set k | k in cache && k.instrument == instrument
  }

  function Step(history: nat, s: State, c: Call): State {
    match c
    case Apply(d) =>
      if WillAdjust(s, d) then
        State(Adjusted(history, d, s.bars), s.actions[d.actionId := Mark(s.actions[d.actionId])],
              s.cache - KeysOf(s.cache, d.instrument), s.applied + [d])
      else s
    case Detect(id, row) =>
      if id !in s.actions && row.factor != 1.0 then s.(actions := s.actions[id := row]) else s
    case CacheWrite(key) => s.(cache := s.cache + {key})
  }

  function Run(history: nat, s: State, calls: seq<Call>): State
    decreases |calls|
  {
    if calls == [] then s else Run(history, Step(history, s, calls[0]), calls[1..])
  }

  function FactorOn(history: nat, d: Detection, b: Bar): real {
    if Covers(history, d, b) then d.factor else 1.0
  }

  function VolumeFactorOn(history: nat, d: Detection, b: Bar): real {
    if Covers(history, d, b) then VolumeFactor(d.factor) else 1.0
  }

  // The product of the factors of the listed splits that cover the bar.
  function Product(history: nat, ds: seq<Detection>, b: Bar): real {
    if ds == [] then 1.0 else Product(history, ds[..|ds| - 1], b) * FactorOn(history, ds[|ds| - 1], b)
  }

  function VolumeProduct(history: nat, ds: seq<Detection>, b: Bar): real {
    if ds == [] then 1.0 else VolumeProduct(history, ds[..|ds| - 1], b) * VolumeFactorOn(history, ds[|ds| - 1], b)
  }

  function AllAdjusted(history: nat, ds: seq<Detection>, raw: seq<Bar>): seq<Bar> {
    seq(|raw|, i requires 0 <= i < |raw| =>
      Scaled(raw[i], Product(history, ds, raw[i]), VolumeProduct(history, ds, raw[i])))
  }

  ghost predicate IdsDistinct(ds: seq<Detection>) {
    forall i, j :: 0 <= i < j < |ds| ==> ds[i].actionId != ds[j].actionId
  }

  // The bars are the raw ones, scaled by the product over the applied splits;
  // each action row has been applied at most once and is marked.
  ghost predicate Inv(history: nat, raw: seq<Bar>, s: State) {
    && s.bars == AllAdjusted(history, s.applied, raw)
    && IdsDistinct(s.applied)
    && forall k :: 0 <= k < |s.applied| ==>
         s.applied[k].actionId in s.actions && IsApplied(s.actions[s.applied[k].actionId])
  }

  lemma AdjustIsScaled(history: nat, d: Detection, b: Bar)
    ensures AdjustBar(history, d, b) == Scaled(b, FactorOn(history, d, b), VolumeFactorOn(history, d, b))
  {
  }

  lemma FactorOnScaled(history: nat, d: Detection, b: Bar, p: real, v: real)
    ensures FactorOn(history, d, Scaled(b, p, v)) == FactorOn(history, d, b)
    ensures VolumeFactorOn(history, d, Scaled(b, p, v)) == VolumeFactorOn(history, d, b)
  {
  }

  lemma ScaleAgain(history: nat, ds: seq<Detection>, d: Detection, raw: Bar)
    ensures AdjustBar(history, d, Scaled(raw, Product(history, ds, raw), VolumeProduct(history, ds, raw)))
         == Scaled(raw, Product(history, ds + [d], raw), VolumeProduct(history, ds + [d], raw))
  {
    hide Scaled, FactorOn, VolumeFactorOn, Product, VolumeProduct, AdjustBar;
    var p, v := Product(history, ds, raw), VolumeProduct(history, ds, raw);
    AdjustIsScaled(history, d, Scaled(raw, p, v));
    FactorOnScaled(history, d, raw, p, v);
    ProductSnoc(history, ds, d, raw);
    ScaledTwice(raw, p, v, FactorOn(history, d, raw), VolumeFactorOn(history, d, raw),
                Product(history, ds + [d], raw), VolumeProduct(history, ds + [d], raw));
  }

  lemma ProductSnoc(history: nat, ds: seq<Detection>, d: Detection, b: Bar)
    ensures Product(history, ds + [d], b) == Product(history, ds, b) * FactorOn(history, d, b)
    ensures VolumeProduct(history, ds + [d], b) == VolumeProduct(history, ds, b) * VolumeFactorOn(history, d, b)
  {
  }

  lemma ScaledTwice(b: Bar, p: real, v: real, p': real, v': real, price: real, volume: real)
    requires price == p * p' && volume == v * v'
    ensures Scaled(Scaled(b, p, v), p', v') == Scaled(b, price, volume)
  {
  }

  lemma ApplyKeepsInv(history: nat, raw: seq<Bar>, s: State, d: Detection)
    requires Inv(history, raw, s) && WillAdjust(s, d)
    ensures Inv(history, raw, Step(history, s, Apply(d)))
  {
    var s' := Step(history, s, Apply(d));
    MarkedIsApplied(s.actions[d.actionId]);
    forall i | 0 <= i < |raw| ensures s'.bars[i] == AllAdjusted(history, s'.applied, raw)[i] {
      ScaleAgain(history, s.applied, d, raw[i]);
    }
    assert s'.bars == AllAdjusted(history, s'.applied, raw);
    hide IsApplied, AllAdjusted, Adjusted, Mark;
    forall k | 0 <= k < |s.applied| ensures s.applied[k].actionId != d.actionId {
      assert IsApplied(s.actions[s.applied[k].actionId]);
    }
  }

  lemma StepKeepsInv(history: nat, raw: seq<Bar>, s: State, c: Call)
    requires Inv(history, raw, s)
    ensures Inv(history, raw, Step(history, s, c))
  {
    if c.Apply? && WillAdjust(s, c.d) {
      ApplyKeepsInv(history, raw, s, c.d);
    }
  }

  lemma {:induction false} RunKeepsInv(history: nat, raw: seq<Bar>, s: State, calls: seq<Call>)
    requires Inv(history, raw, s)
    ensures Inv(history, raw, Run(history, s, calls))
    decreases |calls|
  {
    hide Inv, Step;
    if calls != [] {
      StepKeepsInv(history, raw, s, calls[0]);
      RunKeepsInv(history, raw, Step(history, s, calls[0]), calls[1..]);
    }
  }

  function Init(bars: seq<Bar>, actions: map<nat, ActionRow>): State {
    State(bars, actions, {}, [])
  }

  lemma InitInv(history: nat, raw: seq<Bar>, actions: map<nat, ActionRow>)
    ensures Inv(history, raw, Init(raw, actions))
  {
  }

  // After any calls in any order and with repeats: every bar is its raw bar with
  // prices times the product of the factors of the applied splits covering it,
  // each action row contributing once.
  lemma BarsAreRawTimesProduct(history: nat, raw: seq<Bar>, actions: map<nat, ActionRow>, calls: seq<Call>)
    ensures var s := Run(history, Init(raw, actions), calls);
            IdsDistinct(s.applied) && s.bars == AllAdjusted(history, s.applied, raw)
  {
    InitInv(history, raw, actions);
    RunKeepsInv(history, raw, Init(raw, actions), calls);
  }

  // An unmarked row's split rewrites exactly its instrument's bars of the `history`
  // days before the ex-date: prices times the factor, volume over a nonzero one.
  lemma ApplyRewrites(history: nat, s: State, d: Detection)
    requires d.actionId in s.actions && !IsApplied(s.actions[d.actionId])
    ensures var bars := Step(history, s, Apply(d)).bars;
            && |bars| == |s.bars|
            && forall i :: 0 <= i < |bars| ==>
                 var b := s.bars[i];
                 bars[i] == if b.instrument == d.instrument
                               && (d.exDate - history) * 86400 <= b.timestamp < d.exDate * 86400 then
                              Bar(b.instrument, b.timestamp, b.open * d.factor, b.high * d.factor,
                                  b.low * d.factor, b.close * d.factor,
                                  if d.factor == 0.0 then b.volume else b.volume / d.factor)
                            else b
  {
    forall i | 0 <= i < |s.bars| && d.factor != 0.0
      ensures s.bars[i].volume * (1.0 / d.factor) == s.bars[i].volume / d.factor
    {
    }
  }

  // A key is cached once it is written, until its instrument is adjusted.
  lemma CachedUntilAdjusted(history: nat, s: State, c: Call, key: CacheKey)
    ensures key in Step(history, s, c).cache <==>
            || c == CacheWrite(key)
            || (key in s.cache && !(c.Apply? && c.d.instrument == key.instrument && WillAdjust(s, c.d)))
  {
  }

  // A marked or unknown row's does nothing.
  lemma ApplyAgain(history: nat, s: State, d: Detection)
    requires d.actionId in s.actions ==> IsApplied(s.actions[d.actionId])
    ensures Step(history, s, Apply(d)) == s
  {
  }

  // ---------------------------------------------------------------- any order

  // Taking one split out divides its factor out of both products.
  lemma {:induction false} TakeOut(history: nat, ds: seq<Detection>, j: nat, b: Bar)
    requires j < |ds|
    ensures var rest := ds[..j] + ds[j + 1..];
            && Product(history, ds, b) == Product(history, rest, b) * FactorOn(history, ds[j], b)
            && VolumeProduct(history, ds, b) == VolumeProduct(history, rest, b) * VolumeFactorOn(history, ds[j], b)
    decreases |ds|
  {
    hide *;
    var last := |ds| - 1;
    var shorter := ds[..last];
    DropOne(ds, j);
    ProductSnoc(history, shorter, ds[last], b);
    if j < last {
      TakeOut(history, shorter, j, b);
      var rest := shorter[..j] + shorter[j + 1..];
      ProductSnoc(history, rest, ds[last], b);
      Swap(Product(history, rest, b), FactorOn(history, ds[j], b), FactorOn(history, ds[last], b));
      Swap(VolumeProduct(history, rest, b), VolumeFactorOn(history, ds[j], b), VolumeFactorOn(history, ds[last], b));
    }
  }

  lemma DropOne(ds: seq<Detection>, j: nat)
    requires j < |ds|
    ensures var last := |ds| - 1;
            var shorter := ds[..last];
            && ds == shorter + [ds[last]]
            && ds[..j] + ds[j + 1..] == if j == last then shorter else (shorter[..j] + shorter[j + 1..]) + [ds[last]]
  {
    var last := |ds| - 1;
    if j == last {
      assert ds[j + 1..] == [];
    } else {
      assert ds[j + 1..] == ds[..last][j + 1..] + [ds[last]];
    }
  }

  lemma Swap(a: real, b: real, c: real)
    ensures a * b * c == a * c * b
  {
  }

  // The products depend on which splits were applied, not on their order.
  lemma {:induction false} ProductAnyOrder(history: nat, a: seq<Detection>, b: seq<Detection>, bar: Bar)
    requires multiset(a) == multiset(b)
    ensures Product(history, a, bar) == Product(history, b, bar)
    ensures VolumeProduct(history, a, bar) == VolumeProduct(history, b, bar)
    decreases |a|
  {
    hide *;
    if a == [] {
      assert |multiset(b)| == 0;
      assert b == [];
    } else {
      var j := Matching(a, b);
      TakeOut(history, a, 0, bar);
      TakeOut(history, b, j, bar);
      ProductAnyOrder(history, a[..0] + a[1..], b[..j] + b[j + 1..], bar);
    }
  }

  lemma Matching(a: seq<Detection>, b: seq<Detection>) returns (j: nat)
    requires a != [] && multiset(a) == multiset(b)
    ensures j < |b| && b[j] == a[0] && multiset(a[..0] + a[1..]) == multiset(b[..j] + b[j + 1..])
  {
    assert a[0] in multiset(b);
    j :| 0 <= j < |b| && b[j] == a[0];
    assert b == b[..j] + [b[j]] + b[j + 1..];
    assert a == a[..0] + [a[0]] + a[1..];
    assert multiset(a[..0] + a[1..]) == multiset(a) - multiset{a[0]};
    assert multiset(b[..j] + b[j + 1..]) == multiset(b) - multiset{b[j]};
  }

  function Applies(ds: seq<Detection>): seq<Call> {
    seq(|ds|, i requires 0 <= i < |ds| => Apply(ds[i]))
  }

  // One detection per action row.
  ghost predicate OnePerAction(ds: seq<Detection>) {
    forall i, j :: 0 <= i < |ds| && 0 <= j < |ds| && ds[i].actionId == ds[j].actionId ==> ds[i] == ds[j]
  }

  // What a sequence of apply calls carries out: each known, unmarked one once.
  lemma {:induction false} AppliedSet(history: nat, s: State, ds: seq<Detection>)
    requires OnePerAction(ds)
    ensures var s' := Run(history, s, Applies(ds));
            && |s.applied| <= |s'.applied| && s'.applied[..|s.applied|] == s.applied
            && forall d :: d in s'.applied[|s.applied|..] <==> d in ds && WillAdjust(s, d)
    decreases |ds|
  {
    if ds != [] {
      var d, rest := ds[0], ds[1..];
      assert Applies(ds)[1..] == Applies(rest) && Applies(ds)[0] == Apply(d);
      var s1 := Step(history, s, Apply(d));
      assert OnePerAction(rest);
      AppliedSet(history, s1, rest);
      var s' := Run(history, s1, Applies(rest));
      if WillAdjust(s, d) {
        MarkedIsApplied(s.actions[d.actionId]);
        NewlyApplied(s, s1, s', d, ds);
      } else {
        assert s1 == s;
        assert ds == [d] + rest;
      }
    }
  }

  lemma NewlyApplied(s: State, s1: State, s': State, d: Detection, ds: seq<Detection>)
    requires ds != [] && ds[0] == d && OnePerAction(ds) && WillAdjust(s, d)
    requires s1.applied == s.applied + [d] && IsApplied(Mark(s.actions[d.actionId]))
    requires s1.actions == s.actions[d.actionId := Mark(s.actions[d.actionId])]
    requires |s1.applied| <= |s'.applied| && s'.applied[..|s1.applied|] == s1.applied
    requires forall e :: e in s'.applied[|s1.applied|..] <==> e in ds[1..] && WillAdjust(s1, e)
    ensures |s.applied| <= |s'.applied| && s'.applied[..|s.applied|] == s.applied
    ensures forall e :: e in s'.applied[|s.applied|..] <==> e in ds && WillAdjust(s, e)
  {
    hide IsApplied, Mark;
    var n := |s.applied|;
    assert s'.applied[..n] == s1.applied[..n];
    assert s'.applied[n] == d;
    assert s'.applied[n..] == [d] + s'.applied[n + 1..];
    assert ds == [d] + ds[1..];
    forall e ensures e in s'.applied[n..] <==> e in ds && WillAdjust(s, e) {
      if e in ds && e.actionId == d.actionId {
        assert e == d;
      }
    }
  }

  lemma {:induction false} SameSetSameMultiset(a: seq<Detection>, b: seq<Detection>)
    requires IdsDistinct(a) && IdsDistinct(b) && forall d :: d in a <==> d in b
    ensures multiset(a) == multiset(b)
  {
    OnceEach(a);
    OnceEach(b);
    forall d ensures multiset(a)[d] == multiset(b)[d] {
    }
  }

  lemma {:induction false} OnceEach(a: seq<Detection>)
    requires IdsDistinct(a)
    ensures forall d :: multiset(a)[d] == if d in a then 1 else 0
  {
    if a != [] {
      var rest := a[..|a| - 1];
      OnceEach(rest);
      assert a == rest + [a[|a| - 1]];
      assert a[|a| - 1] !in rest;
    }
  }

  // Two sequences that apply the same splits, in any orders and with any repeats,
  // leave the same bars.
  lemma OrderAndRepeatsIrrelevant(history: nat, raw: seq<Bar>, actions: map<nat, ActionRow>,
                                  a: seq<Detection>, b: seq<Detection>)
    requires OnePerAction(a) && OnePerAction(b) && forall d :: d in a <==> d in b
    ensures Run(history, Init(raw, actions), Applies(a)).bars == Run(history, Init(raw, actions), Applies(b)).bars
  {
    var s := Init(raw, actions);
    var sa, sb := Run(history, s, Applies(a)), Run(history, s, Applies(b));
    BarsAreRawTimesProduct(history, raw, actions, Applies(a));
    BarsAreRawTimesProduct(history, raw, actions, Applies(b));
    AppliedSet(history, s, a);
    AppliedSet(history, s, b);
    assert sa.applied[0..] == sa.applied && sb.applied[0..] == sb.applied;
    hide WillAdjust, Run;
    SameSetSameMultiset(sa.applied, sb.applied);
    forall i | 0 <= i < |raw|
      ensures AllAdjusted(history, sa.applied, raw)[i] == AllAdjusted(history, sb.applied, raw)[i]
    {
      ProductAnyOrder(history, sa.applied, sb.applied, raw[i]);
    }
  }

  // ---------------------------------------------------------------- what is kept

  ghost predicate WellFormed(b: Bar) {
    b.low <= b.open <= b.high && b.low <= b.close <= b.high
  }

  lemma {:induction false} ProductPositive(history: nat, ds: seq<Detection>, b: Bar)
    requires CoveringPositive(history, ds, b)
    ensures Product(history, ds, b) > 0.0
  {
    if ds != [] {
      ProductPositive(history, ds[..|ds| - 1], b);
    }
  }

  lemma {:induction false} VolumeUndoesPrice(history: nat, ds: seq<Detection>, b: Bar)
    requires CoveringNonzero(history, ds, b)
    ensures Product(history, ds, b) * VolumeProduct(history, ds, b) == 1.0
  {
    if ds != [] {
      var rest, d := ds[..|ds| - 1], ds[|ds| - 1];
      assert ds == rest + [d];
      VolumeUndoesPrice(history, rest, b);
      ProductSnoc(history, rest, d, b);
      if Covers(history, d, b) {
        hide Product, VolumeProduct;
        Unscale(Product(history, rest, b), VolumeProduct(history, rest, b), d.factor);
      }
    }
  }

  lemma Unscale(p: real, v: real, f: real)
    requires p * v == 1.0 && f != 0.0
    ensures (p * f) * (v * (1.0 / f)) == 1.0
  {
  }

  lemma ScaledKeepsShape(b: Bar, p: real, v: real)
    requires WellFormed(b) && p > 0.0
    ensures WellFormed(Scaled(b, p, v))
  {
  }

  lemma ScaledKeepsValue(b: Bar, p: real, v: real)
    requires p * v == 1.0
    ensures Scaled(b, p, v).close * Scaled(b, p, v).volume == b.close * b.volume
  {
  }

  // The factors of all applied splits covering the bar satisfy the bound.
  ghost predicate CoveringPositive(history: nat, ds: seq<Detection>, b: Bar) {
    forall k :: 0 <= k < |ds| && Covers(history, ds[k], b) ==> ds[k].factor > 0.0
  }

  ghost predicate CoveringNonzero(history: nat, ds: seq<Detection>, b: Bar) {
    forall k :: 0 <= k < |ds| && Covers(history, ds[k], b) ==> ds[k].factor != 0.0
  }

  // Positive factors keep low <= open, close <= high, and nonzero ones keep the
  // traded value, whatever was applied in whatever order.
  lemma ShapeAndValueKept(history: nat, raw: seq<Bar>, actions: map<nat, ActionRow>, calls: seq<Call>, i: nat)
    requires i < |raw|
    ensures var s := Run(history, Init(raw, actions), calls);
            && |s.bars| == |raw|
            && (WellFormed(raw[i]) && CoveringPositive(history, s.applied, raw[i]) ==> WellFormed(s.bars[i]))
            && (CoveringNonzero(history, s.applied, raw[i]) ==>
                  s.bars[i].close * s.bars[i].volume == raw[i].close * raw[i].volume)
  {
    BarsAreRawTimesProduct(history, raw, actions, calls);
    var s := Run(history, Init(raw, actions), calls);
    hide Run, Product, VolumeProduct, WellFormed, Scaled;
    var p, v := Product(history, s.applied, raw[i]), VolumeProduct(history, s.applied, raw[i]);
    if CoveringPositive(history, s.applied, raw[i]) && WellFormed(raw[i]) {
      ProductPositive(history, s.applied, raw[i]);
      ScaledKeepsShape(raw[i], p, v);
    }
    if CoveringNonzero(history, s.applied, raw[i]) {
      VolumeUndoesPrice(history, s.applied, raw[i]);
      ScaledKeepsValue(raw[i], p, v);
    }
  }

  // One application conserves a bar's traded value exactly when its factor is
  // not zero: 1 / factor is replaced by 1 then.
  lemma ValueKeptIffNonzero(history: nat, d: Detection, b: Bar)
    requires Covers(history, d, b) && b.close * b.volume != 0.0
    ensures AdjustBar(history, d, b).close * AdjustBar(history, d, b).volume == b.close * b.volume <==> d.factor != 0.0
  {
  }

  // After an adjustment no cached indicator of the instrument is left, and the
  // others all are.
  lemma CacheDropped(history: nat, s: State, d: Detection)
    requires WillAdjust(s, d)
    ensures KeysOf(Step(history, s, Apply(d)).cache, d.instrument) == {}
    ensures forall i: nat :: i != d.instrument ==> KeysOf(Step(history, s, Apply(d)).cache, i) == KeysOf(s.cache, i)
  {
  }
}
