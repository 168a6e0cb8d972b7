// Sentiment scores of texts, one by one and in batches, through a shared cache.
module FinBert {
  import opened Wrappers
  import opened Redis

  // ---------------------------------------------------------------- texts and labels

  // The characters that strip() removes.
  predicate IsSpace(c: char) {
    var n := c as int;
    || 0x09 <= n <= 0x0D || 0x1C <= n <= 0x20 || n == 0x85 || n == 0xA0 || n == 0x1680 || 0x2000 <= n <= 0x200A
    || n == 0x2028 || n == 0x2029 || n == 0x202F || n == 0x205F || n == 0x3000
  }

  lemma SpaceTable(c: char)
    ensures IsSpace(c) <==>
            c in {'\t', '\n', '\U{0B}', '\U{0C}', '\r', '\U{1C}', '\U{1D}', '\U{1E}', '\U{1F}', ' ', '\U{85}', '\U{A0}',
                  '\U{1680}', '\U{2000}', '\U{2001}', '\U{2002}', '\U{2003}', '\U{2004}', '\U{2005}', '\U{2006}',
                  '\U{2007}', '\U{2008}', '\U{2009}', '\U{200A}', '\U{2028}', '\U{2029}', '\U{202F}', '\U{205F}',
                  '\U{3000}'}
  {
  }

  function StripLeft(s: string): string {
    if s != "" && IsSpace(s[0]) then StripLeft(s[1..]) else s
  }

  function StripRight(s: string): string {
    if s != "" && IsSpace(s[|s| - 1]) then StripRight(s[..|s| - 1]) else s
  }

  function Strip(s: string): string {
    StripRight(StripLeft(s))
  }

  function LowerChar(c: char): char {
    if 'A' <= c <= 'Z' then (c as int + 32) as char else c
  }

  function Lower(s: string): string {
    seq(|s|, i requires 0 <= i < |s| => LowerChar(s[i]))
  }

  lemma LowerIs(s: string, i: nat)
    requires i < |s|
    ensures |Lower(s)| == |s|
    ensures 'A' <= s[i] <= 'Z' ==>
              'a' <= Lower(s)[i] <= 'z'
              && Lower(s)[i] as int - 'a' as int == s[i] as int - 'A' as int
    ensures !('A' <= s[i] <= 'Z') ==> Lower(s)[i] == s[i]
  {
  }

  predicate AllSpaces(s: string) {
    forall i :: 0 <= i < |s| ==> IsSpace(s[i])
  }

  // Strip takes off all spaces at both ends and nothing else.
  lemma {:induction false} StripMeans(s: string) returns (before: string, behind: string)
    ensures s == before + Strip(s) + behind && AllSpaces(before) && AllSpaces(behind)
    ensures Strip(s) != "" ==> !IsSpace(Strip(s)[0]) && !IsSpace(Strip(s)[|Strip(s)| - 1])
  {
    before := LeftSpaces(s);
    behind := RightSpaces(StripLeft(s));
    assert StripLeft(s) == Strip(s) + behind;
  }

  lemma {:induction false} LeftSpaces(s: string) returns (before: string)
    ensures s == before + StripLeft(s) && AllSpaces(before)
    ensures StripLeft(s) != "" ==> !IsSpace(StripLeft(s)[0])
  {
    before := "";
    if s != "" && IsSpace(s[0]) {
      before := LeftSpaces(s[1..]);
      before := [s[0]] + before;
    }
  }

  lemma {:induction false} RightSpaces(s: string) returns (behind: string)
    ensures s == StripRight(s) + behind && AllSpaces(behind)
    ensures StripRight(s) != "" ==> !IsSpace(StripRight(s)[|StripRight(s)| - 1]) && StripRight(s)[0] == s[0]
  {
    behind := "";
    if s != "" && IsSpace(s[|s| - 1]) {
      behind := RightSpaces(s[..|s| - 1]);
      behind := behind + [s[|s| - 1]];
    }
  }

  // One label of a prediction; the score is None when it is no number.
  datatype Label = Label(name: string, score: Option<real>)

  // What the pipeline returns per text: all labels, or the best one alone.
  datatype Prediction = Many(labels: seq<Label>) | One(best: Label)

  // _flatten_prediction
  function Flatten(raw: seq<Prediction>): seq<Label> {
    if raw == [] then []
    else if raw[0].Many? then raw[0].labels
    else Ones(raw)
  }

  function Ones(raw: seq<Prediction>): seq<Label> {
    if raw == [] then []
    else if raw[0].One? then [raw[0].best] + Ones(raw[1..])
    else Ones(raw[1..])
  }

  function LastScore(labels: seq<Label>, name: string): real {
    if labels == [] then 0.0
    else if Lower(labels[|labels| - 1].name) == name then labels[|labels| - 1].score.GetOr(0.0)
    else LastScore(labels[..|labels| - 1], name)
  }

  function ClampUnit(x: real): real {
    if x < -1.0 then -1.0 else if x > 1.0 then 1.0 else x
  }

  function Scalar(labels: seq<Label>): real {
    ClampUnit(LastScore(labels, "positive") - LastScore(labels, "negative"))
  }

  // What the last label of that name says, if any has it.
  ghost predicate Says(labels: seq<Label>, name: string, score: real) {
    || (score == 0.0 && forall i :: 0 <= i < |labels| ==> Lower(labels[i].name) != name)
    || (exists i :: 0 <= i < |labels| && Lower(labels[i].name) == name && score == labels[i].score.GetOr(0.0)
                    && forall j :: i < j < |labels| ==> Lower(labels[j].name) != name)
  }

  lemma {:induction false} LastSays(labels: seq<Label>, name: string, score: real)
    ensures Says(labels, name, score) <==> score == LastScore(labels, name)
    decreases |labels|
  {
    hide Lower;
    if labels != [] {
      var last := |labels| - 1;
      var rest := labels[..last];
      LastSays(rest, name, score);
      if Lower(labels[last].name) != name {
        assert Says(labels, name, score) <==> Says(rest, name, score) by {
          assert forall i :: 0 <= i < last ==> rest[i] == labels[i];
          assert forall i :: 0 <= i < |labels| && Lower(labels[i].name) == name ==> i < last;
        }
      }
    }
  }

  // The scalar is what "positive" says less what "negative" says, within [-1, 1]:
  // a text more positive than negative scores above zero.
  lemma ScalarMeans(labels: seq<Label>, positive: real, negative: real)
    requires Says(labels, "positive", positive) && Says(labels, "negative", negative)
    ensures -1.0 <= positive - negative <= 1.0 ==> Scalar(labels) == positive - negative
    ensures positive - negative < -1.0 ==> Scalar(labels) == -1.0
    ensures positive - negative > 1.0 ==> Scalar(labels) == 1.0
  {
    LastSays(labels, "positive", positive);
    LastSays(labels, "negative", negative);
  }

  method ScalarFromLabels(labels: seq<Label>) returns (r: real)
    ensures r == Scalar(labels) && -1.0 <= r <= 1.0
  {
    var pos, neg := 0.0, 0.0;
    assert labels[..0] == [];
    for n := 0 to |labels|
      invariant pos == LastScore(labels[..n], "positive") && neg == LastScore(labels[..n], "negative")
    {
      assert labels[..n + 1][..n] == labels[..n];
      var name := Lower(labels[n].name);
      var score := labels[n].score.GetOr(0.0);
      assert "positive"[0] != "negative"[0];
      if name == "positive" {
        pos := score;
      } else if name == "negative" {
        neg := score;
      }
    }
    assert labels[..|labels|] == labels;
    return ClampUnit(pos - neg);
  }

  // The deterministic model, and the formatting of a score to six decimals.
  datatype Model = Model(predict: string -> Prediction, round: real -> real)
  {
    // A nearest millionth; which way exact halves go is left open.
    ghost predicate Rounds() {
      forall x :: Distance(round(x), x) <= 0.0000005
    }
  }

  // Rounding halves up is one such formatting.
  lemma HalfUpRounds(model: Model)
    requires forall x :: model.round(x) == (x * 1000000.0 + 0.5).Floor as real / 1000000.0
    ensures model.Rounds()
  {
    forall x ensures Distance(model.round(x), x) <= 0.0000005 {
      assert model.round(x) * 1000000.0 == (x * 1000000.0 + 0.5).Floor as real;
    }
  }

  function Score(model: Model, text: string): real {
    Scalar(Flatten([model.predict(text)]))
  }

  // The labels that count: all of them, or the best one alone.
  lemma ScoreMeans(model: Model, text: string)
    ensures var p := model.predict(text);
            Score(model, text) == Scalar(if p.Many? then p.labels else [p.best])
  {
    assert Ones([model.predict(text)][1..]) == [];
  }

  lemma {:induction false} OnesMeans(bests: seq<Label>, raw: seq<Prediction>)
    requires |bests| == |raw| && forall i :: 0 <= i < |raw| ==> raw[i] == One(bests[i])
    ensures Flatten(raw) == bests && Ones(raw) == bests
  {
    if raw != [] {
      OnesMeans(bests[1..], raw[1..]);
    }
  }

  // The score a caller is after; blank texts score zero.
  function Target(model: Model, raw: string): real {
    if Strip(raw) == "" then 0.0 else Score(model, Strip(raw))
  }

  // ---------------------------------------------------------------- the cache

  // A cached payload: six decimals, or something that does not parse.
  datatype Payload = Number(value: real) | Corrupt

  function Distance(x: real, y: real): (d: real)
    ensures d >= x - y && d >= y - x && (d == x - y || d == y - x)
  {
    if x < y then y - x else x - y
  }

  // Every number in the cache is the rounding of its text's score.
  ghost predicate Coherent(model: Model, cells: map<string, Cell<Payload>>) {
    forall t :: t in cells && cells[t].value.Number? ==> cells[t].value.value == model.round(Score(model, t))
  }

  function Hit(cells: map<string, Cell<Payload>>, now: int, text: string): Option<real> {
    var payload := Get(cells, text, now);
    if payload.Some? && payload.value.Number? then Some(payload.value.value) else None
  }

  predicate IsMiss(cells: map<string, Cell<Payload>>, now: int, raw: string) {
    Strip(raw) != "" && Hit(cells, now, Strip(raw)).None?
  }

  function SlotValue(model: Model, cells: map<string, Cell<Payload>>, now: int, raw: string): real {
    if Strip(raw) == "" then 0.0
    else if Hit(cells, now, Strip(raw)).Some? then Hit(cells, now, Strip(raw)).value
    else Score(model, Strip(raw))
  }

  function Missed(cells: map<string, Cell<Payload>>, now: int, texts: seq<string>): set<string> {
    set i | 0 <= i < |texts| && IsMiss(cells, now, texts[i]) :: Strip(texts[i])
  }

  function CellFor(model: Model, text: string, deadline: int): Cell<Payload> {
    Cell(Number(model.round(Score(model, text))), Some(deadline))
  }

  function Cached(model: Model, cells: map<string, Cell<Payload>>, texts: set<string>, deadline: int): map<string,
                  Cell<Payload>> {
    cells + map t | t in texts :: CellFor(model, t, deadline)
  }

  lemma CachedCoherent(model: Model, cells: map<string, Cell<Payload>>, texts: set<string>, deadline: int)
    requires Coherent(model, cells)
    ensures Coherent(model, Cached(model, cells, texts, deadline))
  {
  }

  lemma SlotClose(model: Model, cells: map<string, Cell<Payload>>, now: int, raw: string)
    requires model.Rounds() && Coherent(model, cells)
    ensures Distance(SlotValue(model, cells, now, raw), Target(model, raw)) <= 0.0000005
  {
    hide Score, Strip;
  }

  // Each slot is within half a millionth of the score of its own stripped text.
  lemma SlotsClose(model: Model, cells: map<string, Cell<Payload>>, now: int, texts: seq<string>)
    requires model.Rounds() && Coherent(model, cells)
    ensures forall i :: 0 <= i < |texts| ==>
              Distance(SlotValue(model, cells, now, texts[i]), Target(model, texts[i])) <= 0.0000005
  {
    hide *;
    forall i | 0 <= i < |texts|
      ensures Distance(SlotValue(model, cells, now, texts[i]), Target(model, texts[i])) <= 0.0000005
    {
      SlotClose(model, cells, now, texts[i]);
    }
  }

  // A batch repeated before its entries lapse is answered from the cache alone:
  // the roundings, and nothing is written.
  lemma RepeatedBatch(model: Model, cells: map<string, Cell<Payload>>, now: int, later: int, ttl: int,
                      texts: seq<string>)
    requires Coherent(model, cells) && now <= later < now + ttl
    requires forall t :: t in cells ==>
               cells[t].deadline == None || later < cells[t].deadline.value || cells[t].deadline.value <= now
    ensures var after := Cached(model, cells, Missed(cells, now, texts), now + ttl);
            && Missed(after, later, texts) == {}
            && forall i :: 0 <= i < |texts| && Strip(texts[i]) != "" ==>
                 SlotValue(model, after, later, texts[i]) == model.round(Target(model, texts[i]))
  {
    hide Score, Strip;
    var after := Cached(model, cells, Missed(cells, now, texts), now + ttl);
    CachedCoherent(model, cells, Missed(cells, now, texts), now + ttl);
    forall i | 0 <= i < |texts| && Strip(texts[i]) != ""
      ensures !IsMiss(after, later, texts[i])
      ensures SlotValue(model, after, later, texts[i]) == model.round(Target(model, texts[i]))
    {
      var t := Strip(texts[i]);
      assert IsMiss(cells, now, texts[i]) ==> t in Missed(cells, now, texts);
      if t in Missed(cells, now, texts) {
        assert after[t] == CellFor(model, t, now + ttl);
      } else {
        assert after[t] == cells[t];
      }
    }
  }

  // ---------------------------------------------------------------- the code

  datatype Error = Unavailable

  class Scorer {
    const model: Model
    const redis: Strings?<string, Payload>   // null: run without a cache
    const ttl: nat
    var available: bool                      // whether the model can be loaded

    constructor (model: Model, redis: Strings?<string, Payload>, ttl: nat, available: bool)
      ensures this.model == model && this.redis == redis && this.ttl == ttl && this.available == available
    {
      this.model, this.redis, this.ttl, this.available := model, redis, ttl, available;
    }

    function Cells(): map<string, Cell<Payload>>
      reads redis
    {
      if redis == null then map[] else redis.cells
    }

    function Now(): int
      reads redis
    {
      if redis == null then 0 else redis.now
    }

    ghost function Footprint(): set<object>
    {
      if redis == null then {} else {redis}
    }

    // One text. A payload that does not parse counts as a miss and is replaced.
    method ScoreText(raw: string) returns (r: Result<real, Error>)
      requires model.Rounds() && Coherent(model, Cells())
      modifies Footprint()
      ensures r.Err? <==> IsMiss(old(Cells()), Now(), raw) && !available
      ensures r.Ok? ==> r.value == SlotValue(model, old(Cells()), Now(), raw)
      ensures r.Ok? ==> Distance(r.value, Target(model, raw)) <= 0.0000005
      ensures Now() == old(Now()) && Coherent(model, Cells())
      ensures redis != null ==>
                Cells() == Cached(model, old(Cells()),
                                  if r.Ok? then Missed(old(Cells()), Now(), [raw]) else {}, Now() + ttl)
    {
      hide Scalar, Flatten, Strip, Coherent, Missed, Cached, Distance, Target, Model.Rounds;
      SlotClose(model, Cells(), Now(), raw);
      MissedOne(Cells(), Now(), raw);
      CachedNothing(model, Cells(), Now() + ttl);
      var text := Strip(raw);
      if text == "" {
        return Ok(0.0);
      }
      if redis != null {
        var payload := Get(redis.cells, text, redis.now);
        if payload.Some? && payload.value.Number? {
          return Ok(payload.value.value);
        }
      }
      if !available {
        return Err(Unavailable);
      }
      var scalar := ScalarFromLabels(Flatten([model.predict(text)]));
      if redis != null {
        CachedCoherent(model, redis.cells, {text}, redis.now + ttl);
        CachedOne(model, redis.cells, {}, text, redis.now + ttl);
        redis.SetEx(text, Number(model.round(scalar)), ttl);
      }
      return Ok(scalar);
    }

    // A batch: hits first, then the rest through the model in one call. Without
    // a loadable model a batch still succeeds if everything is in the cache.
    method ScoreBatch(texts: seq<string>) returns (r: Result<seq<real>, Error>)
      requires model.Rounds() && Coherent(model, Cells())
      modifies Footprint()
      ensures r.Err? <==> !available && Missed(old(Cells()), Now(), texts) != {}
      ensures r.Ok? ==> AnswersBatch(model, old(Cells()), Now(), texts, r.value)
      ensures Now() == old(Now()) && Coherent(model, Cells())
      ensures redis != null ==>
                Cells() == Cached(model, old(Cells()),
                                  if r.Ok? then Missed(old(Cells()), Now(), texts) else {}, Now() + ttl)
    {
      hide Scalar, Flatten, Strip, Coherent, Missed, Cached, Distance;
      hide SlotValue, Target, Score, IsMiss, Listed, TextsOf, Hit, AnswersBatch, Scored, Values;
      ghost var before, now := Cells(), Now();
      CachedNothing(model, before, now + ttl);
      if texts == [] {
        EmptyBatch(model, before, now);
        return Ok([]);
      }
      var filled, toScore, slot := FirstPass(texts);
      var results := filled;
      MissedIs(before, now, texts, toScore, slot);
      ListedFacts(before, now, texts, toScore, slot);
      NoneScored(model, texts, filled);
      if toScore != [] {
        if !available {
          return Err(Unavailable);
        }
        results := SecondPass(texts, filled, toScore);
      }
      AllFilled(model, before, now, texts, filled, results, toScore, slot);
      CachedCoherent(model, before, Missed(before, now, texts), now + ttl);
      var scores := Values(results);
      return Ok(scores);
    }

    // Fills the blank and cached slots and lists the rest, with their places.
    method FirstPass(texts: seq<string>)
      returns (results: seq<Option<real>>, toScore: seq<(nat, string)>, ghost slot: map<nat, nat>)
      ensures |results| == |texts| && Listed(Cells(), Now(), texts, |texts|, toScore, slot)
      ensures forall i :: 0 <= i < |texts| && !IsMiss(Cells(), Now(), texts[i]) ==>
                results[i] == Some(SlotValue(model, Cells(), Now(), texts[i]))
    {
      hide Scalar, Flatten, Strip;
      results := seq(|texts|, _ => None);
      toScore, slot := [], map[];
      for n := 0 to |texts|
        invariant |results| == |texts| && Listed(Cells(), Now(), texts, n, toScore, slot)
        invariant forall i :: 0 <= i < n && !IsMiss(Cells(), Now(), texts[i]) ==>
                    results[i] == Some(SlotValue(model, Cells(), Now(), texts[i]))
      {
        var text := Strip(texts[n]);
        if text == "" {
          results := results[n := Some(0.0)];
          continue;
        }
        if redis != null {
          var payload := Get(redis.cells, text, redis.now);
          if payload.Some? && payload.value.Number? {
            results := results[n := Some(payload.value.value)];
            continue;
          }
        }
        slot := slot[n := |toScore|];
        toScore := toScore + [(n, text)];
      }
    }

    // Scores the listed texts, fills their slots and caches the roundings.
    method SecondPass(texts: seq<string>, filled: seq<Option<real>>, toScore: seq<(nat, string)>)
      returns (results: seq<Option<real>>)
      requires |filled| == |texts|
      requires forall k :: 0 <= k < |toScore| ==> toScore[k].0 < |texts| && toScore[k].1 == Strip(texts[toScore[k].0])
      modifies Footprint()
      ensures Now() == old(Now()) && Scored(model, texts, filled, toScore, |toScore|, results)
      ensures redis != null ==> Cells() == Cached(model, old(Cells()), TextsOf(toScore), Now() + ttl)
    {
      hide Scalar, Flatten, Strip, Cached, TextsOf;
      var prediction := seq(|toScore|, k requires 0 <= k < |toScore| => model.predict(toScore[k].1));
      results := filled;
      CachedNothing(model, Cells(), Now() + ttl);
      TextsOfNone();
      assert toScore[..0] == [];
      for n := 0 to |toScore|
        invariant Now() == old(Now()) && Scored(model, texts, filled, toScore, n, results)
        invariant redis != null ==> Cells() == Cached(model, old(Cells()), TextsOf(toScore[..n]), Now() + ttl)
      {
        var (i, text) := toScore[n];
        var scalar := ScalarFromLabels(Flatten([prediction[n]]));
        results := results[i := Some(scalar)];
        if redis != null {
          CachedOne(model, old(redis.cells), TextsOf(toScore[..n]), text, redis.now + ttl);
          TextsOfStep(toScore, n);
          redis.SetEx(text, Number(model.round(scalar)), ttl);
        }
      }
      assert toScore[..|toScore|] == toScore;
    }
  }

  // toScore lists exactly the misses among the first n texts, in order, and slot
  // says where each is listed.
  ghost predicate Listed(cells: map<string, Cell<Payload>>, now: int, texts: seq<string>, n: nat,
                         toScore: seq<(nat, string)>, slot: map<nat, nat>)
    requires n <= |texts|
  {
    && (forall k :: 0 <= k < |toScore| ==>
          toScore[k].0 < n && IsMiss(cells, now, texts[toScore[k].0]) && toScore[k].1 == Strip(texts[toScore[k].0]))
    && (forall i :: 0 <= i < n && IsMiss(cells, now, texts[i]) ==>
          i in slot && slot[i] < |toScore| && toScore[slot[i]].0 == i)
  }

  lemma ListedFacts(cells: map<string, Cell<Payload>>, now: int, texts: seq<string>, toScore: seq<(nat, string)>,
                    slot: map<nat, nat>)
    requires Listed(cells, now, texts, |texts|, toScore, slot)
    ensures TextsOf(toScore) == {} <==> toScore == []
    ensures forall k :: 0 <= k < |toScore| ==> toScore[k].0 < |texts| && toScore[k].1 == Strip(texts[toScore[k].0])
  {
    hide Strip, IsMiss;
    if toScore != [] {
      assert toScore[0].1 in TextsOf(toScore);
    }
  }

  // The first n listed slots hold their text's score; no other slot changed.
  ghost predicate Scored(model: Model, texts: seq<string>, filled: seq<Option<real>>, toScore: seq<(nat, string)>,
                         n: nat,
                         results: seq<Option<real>>)
    requires |filled| == |texts| && n <= |toScore| && forall k :: 0 <= k < |toScore| ==> toScore[k].0 < |texts|
  {
    && |results| == |texts|
    && (forall k :: 0 <= k < n ==> results[toScore[k].0] == Some(Score(model, Strip(texts[toScore[k].0]))))
    && (forall i :: 0 <= i < |texts| && (forall k :: 0 <= k < n ==> toScore[k].0 != i) ==> results[i] == filled[i])
  }

  // An empty slot would count as zero.
  function Values(results: seq<Option<real>>): seq<real> {
    seq(|results|, i requires 0 <= i < |results| => results[i].GetOr(0.0))
  }

  // One score per text, in order: its slot's value, within half a millionth of
  // the score of the text itself.
  ghost predicate AnswersBatch(model: Model, cells: map<string, Cell<Payload>>, now: int, texts: seq<string>,
                               scores: seq<real>) {
    |scores| == |texts| && forall i :: 0 <= i < |texts| ==>
      && scores[i] == SlotValue(model, cells, now, texts[i])
      && Distance(scores[i], Target(model, texts[i])) <= 0.0000005
  }

  lemma NoneScored(model: Model, texts: seq<string>, filled: seq<Option<real>>)
    requires |filled| == |texts|
    ensures Scored(model, texts, filled, [], 0, filled)
  {
  }

  lemma EmptyBatch(model: Model, cells: map<string, Cell<Payload>>, now: int)
    ensures AnswersBatch(model, cells, now, [], []) && Missed(cells, now, []) == {}
  {
  }

  // Both passes together leave no slot empty.
  lemma AllFilled(model: Model, cells: map<string, Cell<Payload>>, now: int, texts: seq<string>,
                  filled: seq<Option<real>>,
                  results: seq<Option<real>>, toScore: seq<(nat, string)>, slot: map<nat, nat>)
    requires |filled| == |texts| && Listed(cells, now, texts, |texts|, toScore, slot)
    requires forall i :: 0 <= i < |texts| && !IsMiss(cells, now, texts[i]) ==>
               filled[i] == Some(SlotValue(model, cells, now, texts[i]))
    requires forall k :: 0 <= k < |toScore| ==> toScore[k].0 < |texts|
    requires Scored(model, texts, filled, toScore, |toScore|, results)
    requires model.Rounds() && Coherent(model, cells)
    ensures AnswersBatch(model, cells, now, texts, Values(results))
  {
  }

  function TextsOf(toScore: seq<(nat, string)>): set<string> {
    set k | 0 <= k < |toScore| :: toScore[k].1
  }

  lemma TextsOfNone()
    ensures TextsOf([]) == {}
  {
  }

  lemma TextsOfStep(toScore: seq<(nat, string)>, n: nat)
    requires n < |toScore|
    ensures TextsOf(toScore[..n + 1]) == TextsOf(toScore[..n]) + {toScore[n].1}
  {
  }

  lemma MissedIn(cells: map<string, Cell<Payload>>, now: int, texts: seq<string>, i: nat)
    requires i < |texts| && IsMiss(cells, now, texts[i])
    ensures Strip(texts[i]) in Missed(cells, now, texts)
  {
  }

  lemma MissedIs(cells: map<string, Cell<Payload>>, now: int, texts: seq<string>, toScore: seq<(nat, string)>,
                 slot: map<nat, nat>)
    requires Listed(cells, now, texts, |texts|, toScore, slot)
    ensures Missed(cells, now, texts) == TextsOf(toScore)
  {
  }

  lemma MissedOne(cells: map<string, Cell<Payload>>, now: int, raw: string)
    ensures Missed(cells, now, [raw]) == if IsMiss(cells, now, raw) then {Strip(raw)} else {}
  {
    hide Strip;
    assert [raw][0] == raw;
    if IsMiss(cells, now, raw) {
      MissedIn(cells, now, [raw], 0);
    }
  }

  lemma CachedNothing(model: Model, cells: map<string, Cell<Payload>>, deadline: int)
    ensures Cached(model, cells, {}, deadline) == cells
  {
  }

  lemma CachedOne(model: Model, cells: map<string, Cell<Payload>>, texts: set<string>, text: string, deadline: int)
    ensures Cached(model, cells, texts, deadline)[text := CellFor(model, text, deadline)]
         == Cached(model, cells, texts + {text}, deadline)
    ensures Cached(model, cells, {}, deadline) == cells && {} + {text} == {text}
  {
    hide CellFor;
  }
}
