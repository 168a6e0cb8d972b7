// Market sessions with database overrides. Instants are UTC seconds, dates count
// days.
module Calendar {
  import opened Wrappers

  datatype Mic = XNYS | XNAS | XBOM

  datatype Session = Session(open: int, close: int)

  // What the calendar library knows of one exchange.
  datatype Library = Library(localDate: int -> int, sessions: map<int, Session>)

  // Dates follow the clock, and a session with the minute after it lies within
  // its own local date.
  ghost predicate Regular(lib: Library) {
    && (forall s, t :: s <= t ==> lib.localDate(s) <= lib.localDate(t))
    && (forall d :: d in lib.sessions ==> lib.sessions[d].open < lib.sessions[d].close)
    && (forall d, t :: d in lib.sessions && lib.sessions[d].open <= t < lib.sessions[d].close + 60 ==>
          lib.localDate(t) == d)
  }

  predicate IsTradingMinute(lib: Library, ts: int) {
    exists d :: d in lib.sessions && lib.sessions[d].open <= ts < lib.sessions[d].close
  }

  datatype Override = Override(isOpen: bool, reason: string)

  type Overrides = map<(Mic, int), Override>

  datatype Source = FromOverride | FromLibrary | FromClosed

  datatype SessionHours = SessionHours(date: int, session: Option<Session>, isHalfDay: bool, source: Source)

  predicate Vetoed(overrides: Overrides, mic: Mic, on: int) {
    (mic, on) in overrides && !overrides[(mic, on)].isOpen
  }

  function TypicalMinutes(mic: Mic): int {
    if mic.XBOM? then 375 else 390
  }

  // The session of a date that stands after overrides.
  function Standing(lib: Library, overrides: Overrides, mic: Mic, on: int): Option<Session> {
    if on in lib.sessions && !Vetoed(overrides, mic, on) then Some(lib.sessions[on]) else None
  }

  function Hours(lib: Library, overrides: Overrides, mic: Mic, on: int): SessionHours {
    if Vetoed(overrides, mic, on) then SessionHours(on, None, false, FromOverride)
    else if on !in lib.sessions then SessionHours(on, None, false, FromClosed)
    else
      var s := lib.sessions[on];
      SessionHours(on, Some(s), s.close - s.open < 60 * (TypicalMinutes(mic) - 60),
                   if (mic, on) in overrides then FromOverride else FromLibrary)
  }

  datatype CalendarError = NoUpcomingClose

  class CalendarService {
    const libs: Mic -> Library
    var overrides: Overrides

    constructor (libs: Mic -> Library)
      ensures this.libs == libs && overrides == map[]
    {
      this.libs, overrides := libs, map[];
    }

    // Open exactly during the standing session of the local date.
    method IsMarketOpen(mic: Mic, ts: int) returns (open: bool)
      requires Regular(libs(mic))
      ensures open <==>
              var standing := Standing(libs(mic), overrides, mic, libs(mic).localDate(ts));
              standing.Some? && standing.value.open <= ts < standing.value.close
    {
      var on := libs(mic).localDate(ts);
      if (mic, on) in overrides && !overrides[(mic, on)].isOpen {
        return false;
      }
      return IsTradingMinute(libs(mic), ts);
    }

    method GetSessionHours(mic: Mic, on: int) returns (h: SessionHours)
      ensures h == Hours(libs(mic), overrides, mic, on)
      ensures h.session == Standing(libs(mic), overrides, mic, on)
    {
      h := Hours(libs(mic), overrides, mic, on);
    }

    // The least standing close at or after ts, if one falls on the 20 dates walked.
    method NextSessionClose(mic: Mic, ts: int) returns (r: Result<int, CalendarError>)
      requires Regular(libs(mic))
      ensures r.Ok? <==> exists d :: libs(mic).localDate(ts) <= d < libs(mic).localDate(ts) + 20
                                     && ClosesFrom(libs(mic), overrides, mic, d, ts)
      ensures r.Ok? ==> ts <= r.value
                        && (exists d :: && ClosesFrom(libs(mic), overrides, mic, d, ts)
                                         && libs(mic).sessions[d].close == r.value)
                        && (forall d :: ClosesFrom(libs(mic), overrides, mic, d, ts) ==>
                              r.value <= libs(mic).sessions[d].close)
    {
      var lib := libs(mic);
      var candidate := lib.localDate(ts);
      for k := 0 to 20
        invariant candidate == lib.localDate(ts) + k
        invariant forall d :: lib.localDate(ts) <= d < candidate ==> !ClosesFrom(lib, overrides, mic, d, ts)
      {
        var hours := GetSessionHours(mic, candidate);
        if hours.session.Some? && hours.session.value.close >= ts {
          forall d | ClosesFrom(lib, overrides, mic, d, ts) ensures hours.session.value.close <= lib.sessions[d].close {
            CloseOrder(lib, ts, candidate, d);
          }
          assert ClosesFrom(lib, overrides, mic, candidate, ts);
          return Ok(hours.session.value.close);
        }
        candidate := candidate + 1;
      }
      return Err(NoUpcomingClose);
    }

    // A broker reported the market closed.
    method RecordUnexpectedClosed(mic: Mic, on: int, reason: string)
      modifies this`overrides
      ensures overrides == old(overrides)[(mic, on) := Override(false, reason)]
    {
      overrides := overrides[(mic, on) := Override(false, reason)];
    }
  }

  ghost predicate ClosesFrom(lib: Library, overrides: Overrides, mic: Mic, d: int, ts: int) {
    var s := Standing(lib, overrides, mic, d); s.Some? && ts <= s.value.close
  }

  // A close at or after ts is on the local date of ts or later, and closes are
  // ordered as their dates.
  lemma CloseOrder(lib: Library, ts: int, c: int, d: int)
    requires Regular(lib) && c in lib.sessions && d in lib.sessions && ts <= lib.sessions[d].close
    ensures lib.localDate(ts) <= d
    ensures c <= d ==> lib.sessions[c].close <= lib.sessions[d].close
  {
    assert lib.localDate(lib.sessions[d].close) == d && lib.localDate(lib.sessions[c].close) == c;
    assert lib.localDate(ts) <= lib.localDate(lib.sessions[d].close);
    assert lib.sessions[d].close < lib.sessions[c].close ==>
        lib.localDate(lib.sessions[d].close) <= lib.localDate(lib.sessions[c].close);
  }

  function RecordAll(overrides: Overrides, reports: seq<(Mic, int)>): Overrides {
    if reports == [] then overrides
    else RecordAll(overrides, reports[..|reports| - 1])[reports[|reports| - 1] := Override(false, "")]
  }

  // After any sequence of closed-market reports exactly the reported days are
  // lost: every other standing session is as before.
  lemma {:induction false} ReportsCloseExactlyTheirDays(lib: Library, overrides: Overrides, reports: seq<(Mic, int)>,
                                                        mic: Mic, on: int)
    ensures Standing(lib, RecordAll(overrides, reports), mic, on)
         == if (mic, on) in reports then None else Standing(lib, overrides, mic, on)
    decreases |reports|
  {
    if reports != [] {
      var rest, last := reports[..|reports| - 1], reports[|reports| - 1];
      ReportsCloseExactlyTheirDays(lib, overrides, rest, mic, on);
      assert reports == rest + [last];
    }
  }
}
