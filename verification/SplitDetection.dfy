// When a split is adjusted for once: detection inserts a row without looking for
// an existing one, so this depends on how detections are made.
module SplitDetection {
  import opened Wrappers
  import opened SplitAdjust

  // The two rows record a split of one instrument on one date.
  predicate SameSplit(a: ActionRow, b: ActionRow) {
    a.instrument == b.instrument && a.exDate == b.exDate
  }

  // The detection carries its row's own data.
  predicate Carries(d: Detection, row: ActionRow) {
    d.instrument == row.instrument && d.exDate == row.exDate && d.factor == row.factor
  }

  ghost predicate DistinctRows(actions: map<nat, ActionRow>) {
    forall a, b :: a in actions && b in actions && a != b ==> !SameSplit(actions[a], actions[b])
  }

  // A split is detected only while no row records it, and applied as recorded.
  ghost predicate CarefulCall(s: State, c: Call) {
    match c
    case Detect(_, row) => forall id :: id in s.actions ==> !SameSplit(s.actions[id], row)
    case Apply(d) => d.actionId in s.actions ==> Carries(d, s.actions[d.actionId])
    case CacheWrite(_) => true
  }

  lemma CarefulMeans(s: State, id: nat, row: ActionRow)
    ensures CarefulCall(s, Detect(id, row)) <==>
            forall k :: k in s.actions && s.actions[k].instrument == row.instrument ==>
              s.actions[k].exDate != row.exDate
  {
  }

  ghost predicate Careful(history: nat, s: State, calls: seq<Call>)
    decreases |calls|
  {
    calls == [] || (CarefulCall(s, calls[0]) && Careful(history, Step(history, s, calls[0]), calls[1..]))
  }

  // What was applied is on record, one split per row and one row per split.
  ghost predicate OnRecord(s: State) {
    && DistinctRows(s.actions) && IdsDistinct(s.applied)
    && forall k :: 0 <= k < |s.applied| ==>
         s.applied[k].actionId in s.actions && IsApplied(s.actions[s.applied[k].actionId])
         && Carries(s.applied[k], s.actions[s.applied[k].actionId])
  }

  lemma ApplyKeepsRecord(history: nat, s: State, d: Detection)
    requires OnRecord(s) && CarefulCall(s, Apply(d)) && WillAdjust(s, d)
    ensures OnRecord(Step(history, s, Apply(d)))
  {
    MarkedIsApplied(s.actions[d.actionId]);
    hide IsApplied, Mark, Adjusted;
    forall k | 0 <= k < |s.applied| ensures s.applied[k].actionId != d.actionId {
      assert IsApplied(s.actions[s.applied[k].actionId]);
    }
  }

  lemma StepKeepsRecord(history: nat, s: State, c: Call)
    requires OnRecord(s) && CarefulCall(s, c)
    ensures OnRecord(Step(history, s, c))
  {
    if c.Apply? && WillAdjust(s, c.d) {
      ApplyKeepsRecord(history, s, c.d);
    }
    hide IsApplied, Mark, Adjusted;
  }

  lemma {:induction false} RunKeepsRecord(history: nat, s: State, calls: seq<Call>)
    requires OnRecord(s) && Careful(history, s, calls)
    ensures OnRecord(Run(history, s, calls))
    decreases |calls|
  {
    hide OnRecord, Step, CarefulCall;
    if calls != [] {
      StepKeepsRecord(history, s, calls[0]);
      RunKeepsRecord(history, Step(history, s, calls[0]), calls[1..]);
    }
  }

  // No instrument and date twice.
  ghost predicate SplitsDistinct(ds: seq<Detection>) {
    forall i, j :: 0 <= i < j < |ds| ==> ds[i].instrument != ds[j].instrument || ds[i].exDate != ds[j].exDate
  }

  // In a careful run each split is adjusted for at most once: every bar is its raw
  // bar times the factors of pairwise different splits.
  lemma EachSplitOnce(history: nat, raw: seq<Bar>, actions: map<nat, ActionRow>, calls: seq<Call>)
    requires DistinctRows(actions) && Careful(history, Init(raw, actions), calls)
    ensures var s := Run(history, Init(raw, actions), calls);
            && SplitsDistinct(s.applied) && s.bars == AllAdjusted(history, s.applied, raw)
            && forall k :: 0 <= k < |s.applied| ==>
                 var Detection(instrument, exDate, factor, id) := s.applied[k];
                 id in s.actions && s.actions[id] == ActionRow(instrument, exDate, factor, s.actions[id].notes)
  {
    BarsAreRawTimesProduct(history, raw, actions, calls);
    RunKeepsRecord(history, Init(raw, actions), calls);
    var s := Run(history, Init(raw, actions), calls);
    hide Run;
    forall i, j | 0 <= i < j < |s.applied|
      ensures s.applied[i].instrument != s.applied[j].instrument || s.applied[i].exDate != s.applied[j].exDate
    {
      assert !SameSplit(s.actions[s.applied[i].actionId], s.actions[s.applied[j].actionId]);
    }
  }

  // Care is needed in every state: once a recorded split that is still to be
  // applied is detected again, applying both rows multiplies its factor in twice.
  lemma RedetectedAdjustsTwice(history: nat, s: State, id: nat, again: nat, notes: Option<string>)
    requires id in s.actions && again !in s.actions && s.actions[id].factor != 1.0
    requires !IsApplied(s.actions[id]) && !IsApplied(s.actions[id].(notes := notes))
    ensures var row := s.actions[id];
            var d := Detection(row.instrument, row.exDate, row.factor, id);
            var s' := Run(history, s, [Detect(again, row.(notes := notes)), Apply(d), Apply(d.(actionId := again))]);
            && s'.applied == s.applied + [d, d.(actionId := again)] && !SplitsDistinct(s'.applied)
            && |s'.bars| == |s.bars|
            && forall i :: 0 <= i < |s.bars| && Covers(history, d, s.bars[i]) ==>
                 s'.bars[i].close == s.bars[i].close * row.factor * row.factor
  {
    var row := s.actions[id];
    var d := Detection(row.instrument, row.exDate, row.factor, id);
    var d' := d.(actionId := again);
    var s1 := Step(history, s, Detect(again, row.(notes := notes)));
    var s2 := Step(history, s1, Apply(d));
    var s3 := Step(history, s2, Apply(d'));
    RunThree(history, s, Detect(again, row.(notes := notes)), Apply(d), Apply(d'));
    hide IsApplied, Mark;
    assert s2.applied == s.applied + [d] && s2.actions[again] == row.(notes := notes);
    assert s3.applied == s.applied + [d] + [d'];
    assert s3.applied[|s.applied|] == d && s3.applied[|s.applied| + 1] == d';
    hide Covers;
    forall i | 0 <= i < |s.bars| && Covers(history, d, s.bars[i])
      ensures s3.bars[i].close == s.bars[i].close * row.factor * row.factor
    {
      CoveredTwice(history, d, d', s.bars[i]);
      assert s2.bars[i] == AdjustBar(history, d, s.bars[i]) && s3.bars[i] == AdjustBar(history, d', s2.bars[i]);
    }
  }

  // And once a split has been applied, detecting it again and applying that row
  // multiplies its factor in once more.
  lemma AppliedAdjustsAgain(history: nat, s: State, k: nat, again: nat, notes: Option<string>)
    requires k < |s.applied| && s.applied[k].factor != 1.0 && again !in s.actions
    requires !IsApplied(ActionRow(s.applied[k].instrument, s.applied[k].exDate, s.applied[k].factor, notes))
    ensures var d := s.applied[k];
            var row, d' := ActionRow(d.instrument, d.exDate, d.factor, notes), d.(actionId := again);
            var s' := Run(history, s, [Detect(again, row), Apply(d')]);
            && s'.applied == s.applied + [d'] && !SplitsDistinct(s'.applied)
            && s'.bars == Adjusted(history, d', s.bars)
            && forall i :: 0 <= i < |s.bars| && Covers(history, d, s.bars[i]) ==>
                 s'.bars[i].close == s.bars[i].close * d.factor
  {
    var d := s.applied[k];
    var row, d' := ActionRow(d.instrument, d.exDate, d.factor, notes), d.(actionId := again);
    var s1 := Step(history, s, Detect(again, row));
    var s2 := Step(history, s1, Apply(d'));
    RunTwo(history, s, Detect(again, row), Apply(d'));
    hide IsApplied, Mark;
    assert s2.applied[k] == d && s2.applied[|s.applied|] == d';
  }

  lemma RunTwo(history: nat, s: State, a: Call, b: Call)
    ensures Run(history, s, [a, b]) == Step(history, Step(history, s, a), b)
  {
    hide Step;
    assert [a, b][1..] == [b] && [b][1..] == [];
    var s1 := Step(history, s, a);
    assert Run(history, s1, [b]) == Run(history, Step(history, s1, b), []);
    assert Run(history, s, [a, b]) == Run(history, s1, [b]);
  }

  lemma CoveredTwice(history: nat, d: Detection, d': Detection, b: Bar)
    requires Covers(history, d, b) && d' == d.(actionId := d'.actionId)
    ensures AdjustBar(history, d', AdjustBar(history, d, b)).close == b.close * d.factor * d.factor
  {
  }

  lemma RunThree(history: nat, s: State, a: Call, b: Call, c: Call)
    ensures Run(history, s, [a, b, c]) == Step(history, Step(history, Step(history, s, a), b), c)
  {
    hide Step;
    assert [a, b, c][1..] == [b, c] && [b, c][1..] == [c] && [c][1..] == [];
    var s1 := Step(history, s, a);
    var s2 := Step(history, s1, b);
    assert Run(history, s2, [c]) == Run(history, Step(history, s2, c), []);
    assert Run(history, s1, [b, c]) == Run(history, s2, [c]);
    assert Run(history, s, [a, b, c]) == Run(history, s1, [b, c]);
  }
}
