/**
 * The statistics tool (pysk/tools/stats.py): the flights of one plane, in departure order,
 * are grouped into entries (same pilot in command, route and day) and days, with landing
 * counts and flight-time sums per entry, per day and in total. Printing is modelled as a
 * list of events; times are whole seconds and `strftime`/`strptime` are parameters.
 */
module PlaneStats {
  import opened Wrappers
  import opened Strs
  import opened Flights

  // ---------------------------------------------------------------------------------------------
  // `flightTimeStr`

  /** Hours and minutes of a duration in seconds, by Python's floor division. */
  function HoursMinutes(s: int): (r: (int, int))
    ensures 0 <= r.1 < 60
    ensures r.0 * 3600 + r.1 * 60 <= s < r.0 * 3600 + r.1 * 60 + 60
  {
    var hrs := s / 3600;
    (hrs, (s - hrs * 3600) / 60)
  }

  /** `flightTimeStr(dt)`: "HH:MM", each part zero-padded to two digits. */
  function FlightTimeStr(s: int): (r: string)
    ensures r == Pad2(HoursMinutes(s).0) + ":" + Pad2(HoursMinutes(s).1)
  {
    var hrs := s / 3600;
    Pad2(hrs) + ":" + Pad2((s - hrs * 3600) / 60)
  }

  /** A padded number reads back as itself; below 100 it is two digits. */
  lemma Pad2Digits(n: nat)
    ensures IsDigits(Pad2(n)) && DigitsValue(Pad2(n)) == n
    ensures n < 100 ==> |Pad2(n)| == 2
  {
    DigitsOfNat(n);
    if n < 10 {
      var r := Pad2(n);
      assert r[..1] == "0";
    } else if n < 100 {
      assert NatToString(n) == NatToString(n / 10) + [DigitChar(n % 10)];
    }
  }

  /** The split of a non-negative time: whole hours, then whole minutes of the rest. */
  lemma HoursMinutesOfNat(s: int)
    requires s >= 0
    ensures HoursMinutes(s) == (s / 3600, (s % 3600) / 60) && s / 3600 >= 0
  {
  }

  /** For a non-negative time the text is the hours in decimal, a colon, and exactly two minute
      digits, and both read back to the whole hours and minutes of the time. */
  lemma FlightTimeText(s: int)
    requires s >= 0
    ensures var r := FlightTimeStr(s);
      && |r| >= 5 && r[|r| - 3] == ':'
      && IsDigits(r[..|r| - 3]) && DigitsValue(r[..|r| - 3]) == s / 3600
      && IsDigits(r[|r| - 2..]) && DigitsValue(r[|r| - 2..]) == (s % 3600) / 60
  {
    HoursMinutesOfNat(s);
    var (h, m) := HoursMinutes(s);
    Pad2Digits(h);
    Pad2Digits(m);
    ColonParts(Pad2(h), Pad2(m));
  }

  lemma ColonParts(hs: string, ms: string)
    requires |hs| >= 2 && |ms| == 2
    ensures var r := hs + ":" + ms;
      |r| >= 5 && r[|r| - 3] == ':' && r[..|r| - 3] == hs && r[|r| - 2..] == ms
  {
  }

  // ---------------------------------------------------------------------------------------------
  // `hasErrors`

  const MandatoryFields: seq<string> := ["departure_time", "landing_time", "departure_location", "landing_location"]

  /** `getattr(flight, field)` is truthy: a time is present, a location present and non-empty.
      Only the mandatory fields are asked for. */
  predicate FieldSet(f: Flight, field: string) {
    if field == "departure_time" then f.departureTime.Some?
    else if field == "landing_time" then f.landingTime.Some?
    else if field == "departure_location" then Truthy(f.departureLocation)
    else Truthy(f.landingLocation)
  }

  /** The messages for the fields in `fields` the flight lacks, in order. */
  function MissingFields(f: Flight, fields: seq<string>): (r: seq<string>)
    ensures |r| <= |fields|
    decreases |fields|
  {
    if fields == [] then []
    else
      var last := fields[|fields| - 1];
      MissingFields(f, fields[..|fields| - 1]) + if FieldSet(f, last) then [] else ["missing " + last]
  }

  /** Each message names a field the flight lacks, and each field it lacks has its message. */
  lemma {:induction false} MissingFieldsSpec(f: Flight, fields: seq<string>)
    ensures forall m :: m in MissingFields(f, fields) <==>
      exists k :: 0 <= k < |fields| && !FieldSet(f, fields[k]) && m == "missing " + fields[k]
    ensures MissingFields(f, fields) == [] <==> forall k :: 0 <= k < |fields| ==> FieldSet(f, fields[k])
    decreases |fields|
  {
    if fields != [] {
      var init := fields[..|fields| - 1];
      MissingFieldsSpec(f, init);
      assert forall k :: 0 <= k < |init| ==> init[k] == fields[k];
    }
  }

  /** A complete flight has no errors; a flight without any of the four gets all four messages. */
  lemma HasErrorsExamples(f: Flight)
    ensures f.departureTime.Some? && f.landingTime.Some? && Truthy(f.departureLocation) && Truthy(f.landingLocation)
      ==> MissingFields(f, MandatoryFields) == []
    ensures f.departureTime.None? && f.landingTime.None? && f.departureLocation.None? && f.landingLocation.None?
      ==> MissingFields(f, MandatoryFields) ==
          ["missing " + "departure_time", "missing " + "landing_time",
           "missing " + "departure_location", "missing " + "landing_location"]
  {
    var fs := MandatoryFields;
    assert fs[..3] == ["departure_time", "landing_time", "departure_location"];
    assert fs[..3][..2] == ["departure_time", "landing_time"];
    assert fs[..3][..2][..1] == ["departure_time"];
    assert fs[..3][..2][..1][..0] == [];
    var m1 := MissingFields(f, ["departure_time"]);
    var m2 := MissingFields(f, ["departure_time", "landing_time"]);
    var m3 := MissingFields(f, fs[..3]);
    assert m1 == if f.departureTime.Some? then [] else ["missing " + "departure_time"];
    assert m2 == m1 + if f.landingTime.Some? then [] else ["missing " + "landing_time"];
    assert m3 == m2 + if Truthy(f.departureLocation) then [] else ["missing " + "departure_location"];
    assert MissingFields(f, fs) == m3 + if Truthy(f.landingLocation) then [] else ["missing " + "landing_location"];
  }

  /** `date(flight)`: the departure date as text; `strftime` of a missing time raises TypeError. */
  function Date(f: Flight, date: int -> string): (r: Result<string>)
    ensures r.Ok? <==> f.departureTime.Some?
    ensures r.Ok? ==> r.value == date(f.departureTime.value)
    ensures r.Err? ==> r.error == TypeError
  {
    match f.departureTime
    case None => Err(TypeError)
    case Some(t) => Ok(date(t))
  }

  /** The seat count label of a flight: "2" with a copilot, "1" otherwise. */
  function Seat(f: Flight): (r: string)
    ensures r == "2" <==> TruthyId(f.copilotId)
    ensures r == "1" <==> !TruthyId(f.copilotId)
  {
    if TruthyId(f.copilotId) then "2" else "1"
  }

  /** The flight time of a flight whose times are present. */
  function Seconds(f: Flight): int {
    if Duration(f).Ok? then Duration(f).value else 0
  }

  function TotalSeconds(fs: seq<Flight>): int
    decreases |fs|
  {
    if fs == [] then 0 else TotalSeconds(fs[..|fs| - 1]) + Seconds(fs[|fs| - 1])
  }

  /** Both times of each flight are present. */
  predicate AllTimed(fs: seq<Flight>) {
    forall k :: 0 <= k < |fs| ==> Duration(fs[k]).Ok?
  }

  // ---------------------------------------------------------------------------------------------
  // `timeConstraints`

  /** `timedelta(days=1)` in seconds. */
  const Day := 86400

  /** `datetime.strptime(text, DATE_FORMAT)`; `None` stands for the ValueError it raises. */
  function ParseDate(text: string, parse: string -> Option<int>): (r: Result<int>)
    ensures r.Ok? <==> parse(text).Some?
    ensures r.Ok? ==> r.value == parse(text).value
    ensures r.Err? ==> r.error == ValueError
  {
    match parse(text)
    case None => Err(ValueError)
    case Some(t) => Ok(t)
  }

  /** The bounds after one time argument `t`: a single date covers that day, "a:b" replaces
      only the bounds that are given, more colons raise RuntimeError with `invalid`. */
  function BoundsStep(bounds: (Option<int>, Option<int>), t: string, parse: string -> Option<int>, invalid: string)
    : (r: Result<(Option<int>, Option<int>)>)
  {
    var tmp := Split(t, ':');
    if |tmp| == 1 then
      var begin :- ParseDate(tmp[0], parse);
      Ok((Some(begin), Some(begin + Day)))
    else if |tmp| == 2 then
      var begin :- if tmp[0] != "" then var b :- ParseDate(tmp[0], parse); Ok(Some(b)) else Ok(bounds.0);
      var end :- if tmp[1] != "" then var e :- ParseDate(tmp[1], parse); Ok(Some(e)) else Ok(bounds.1);
      Ok((begin, end))
    else Err(RuntimeError(invalid))
  }

  /** The bounds `timeConstraints` derives from `config.time`, starting from none. */
  function TimeBounds(time: Option<string>, parse: string -> Option<int>): (r: Result<(Option<int>, Option<int>)>)
  {
    if !Truthy(time) then Ok((None, None))
    else BoundsStep((None, None), time.value, parse, "Invalid time string '" + time.value + "'")
  }

  /** One argument: a single date is the day from that date on, "a:b" replaces exactly the
      bounds whose side is non-empty, and more than one colon raises RuntimeError. */
  lemma BoundsStepCases(bounds: (Option<int>, Option<int>), t: string, parse: string -> Option<int>, invalid: string)
    ensures Count(t, ':') == 0 && parse(t).Some? ==>
      BoundsStep(bounds, t, parse, invalid) == Ok((Some(parse(t).value), Some(parse(t).value + Day)))
    ensures Count(t, ':') == 0 && parse(t).None? ==> BoundsStep(bounds, t, parse, invalid) == Err(ValueError)
    ensures Count(t, ':') >= 2 ==> BoundsStep(bounds, t, parse, invalid) == Err(RuntimeError(invalid))
  {
    SplitCount(t, ':');
    if Count(t, ':') == 0 {
      SplitNoSep(t, ':');
    }
  }

  /** "a:b" keeps the earlier bound on each empty side and takes the parsed date on the other. */
  lemma BoundsStepRange(bounds: (Option<int>, Option<int>), a: string, b: string, parse: string -> Option<int>,
                        invalid: string)
    requires Count(a, ':') == 0 && Count(b, ':') == 0
    requires a != "" ==> parse(a).Some?
    requires b != "" ==> parse(b).Some?
    ensures BoundsStep(bounds, a + [':'] + b, parse, invalid) ==
      Ok((if a != "" then Some(parse(a).value) else bounds.0, if b != "" then Some(parse(b).value) else bounds.1))
  {
    SplitAround(a, b, ':');
  }

  /** The SQL condition on `departure_time` for the bounds, joined by " AND ". */
  function BoundsFilter(bounds: (Option<int>, Option<int>), format: int -> string): string {
    var parts :=
      (if bounds.0.Some? then ["(departure_time >= '" + format(bounds.0.value) + "')"] else []) +
      (if bounds.1.Some? then ["(departure_time < '" + format(bounds.1.value) + "')"] else []);
    Join(parts, " AND ")
  }

  /** `timeConstraints()`. */
  function TimeConstraints(time: Option<string>, parse: string -> Option<int>, format: int -> string): (r: Result<string>)
    ensures r.Err? <==> TimeBounds(time, parse).Err?
    ensures r.Ok? ==> r.value == BoundsFilter(TimeBounds(time, parse).value, format)
  {
    var bounds :- TimeBounds(time, parse);
    Ok(BoundsFilter(bounds, format))
  }

  /** Without a time there is no condition; otherwise the bounds follow from the time alone,
      so "a:b" sets only the bounds that are given. */
  lemma TimeBoundsCases(time: Option<string>, parse: string -> Option<int>)
    ensures !Truthy(time) ==> TimeBounds(time, parse) == Ok((None, None))
    ensures Truthy(time) && Count(time.value, ':') == 0 && parse(time.value).Some? ==>
      TimeBounds(time, parse) == Ok((Some(parse(time.value).value), Some(parse(time.value).value + Day)))
    ensures Truthy(time) && Count(time.value, ':') >= 2 ==>
      TimeBounds(time, parse) == Err(RuntimeError("Invalid time string '" + time.value + "'"))
  {
    if Truthy(time) {
      BoundsStepCases((None, None), time.value, parse, "Invalid time string '" + time.value + "'");
    }
  }

  /** The condition is empty exactly when there is no bound, and otherwise holds one clause per
      bound. */
  lemma BoundsFilterShape(bounds: (Option<int>, Option<int>), format: int -> string)
    ensures BoundsFilter(bounds, format) == "" <==> bounds.0.None? && bounds.1.None?
    ensures bounds.0.Some? && bounds.1.None? ==>
      BoundsFilter(bounds, format) == "(departure_time >= '" + format(bounds.0.value) + "')"
    ensures bounds.0.None? && bounds.1.Some? ==>
      BoundsFilter(bounds, format) == "(departure_time < '" + format(bounds.1.value) + "')"
    ensures bounds.0.Some? && bounds.1.Some? ==>
      BoundsFilter(bounds, format) ==
        "(departure_time >= '" + format(bounds.0.value) + "')" + " AND " +
        "(departure_time < '" + format(bounds.1.value) + "')"
  {
    if bounds.0.Some? {
      var lower := "(departure_time >= '" + format(bounds.0.value) + "')";
      assert |lower| > 0;
      if bounds.1.Some? {
        var upper := "(departure_time < '" + format(bounds.1.value) + "')";
        assert [lower] + [upper] == [lower, upper];
        assert [lower, upper][1..] == [upper];
        assert Join([lower, upper], " AND ") == lower + " AND " + upper;
      } else {
        assert [lower] + [] == [lower];
      }
    } else if bounds.1.Some? {
      var upper := "(departure_time < '" + format(bounds.1.value) + "')";
      assert |upper| > 0;
      assert [] + [upper] == [upper];
    }
  }

  /** The report of `hasErrors` as printed: one event when some mandatory field is missing. */
  function ErrorEvents(f: Flight): (r: seq<Event>)
    ensures r == [] <==> MissingFields(f, MandatoryFields) == []
    ensures r != [] ==> r == [FlightErrors(MissingFields(f, MandatoryFields))]
  {
    var errors := MissingFields(f, MandatoryFields);
    if errors != [] then [FlightErrors(errors)] else []
  }

  /** `mayAdd` for a flight after `prev`, whose entry is current: same pilot in command,
      route and date. */
  predicate Joins(prev: Flight, f: Flight, date: int -> string) {
    Pic(f) == Pic(prev) && f.departureLocation == prev.departureLocation &&
    f.landingLocation == prev.landingLocation && Date(f, date) == Date(prev, date)
  }

  /** `f` closes the entry `prev` left current and makes `printEntry` print it. */
  predicate Closes(prev: Flight, f: Flight, date: int -> string) {
    TruthyId(Pic(prev)) && !Joins(prev, f, date)
  }

  /** Both locations are set, so `printEntry` can decode them. */
  predicate Located(f: Flight) {
    f.departureLocation.Some? && f.landingLocation.Some?
  }

  /** The entry `f` leaves current can be printed: `db.pilot` finds a pilot for its pilot in
      command, and both locations are set. */
  predicate Prints(f: Flight) {
    TruthyId(Pic(f)) && Located(f)
  }

  /** Every entry a run prints after its first flight can be printed: the ones closed by a
      later flight (which have a pilot in command, or they would not be closed) and the last one. */
  predicate Printable(flights: seq<Flight>, date: int -> string) {
    ClosedLocated(flights, date) && (flights != [] ==> Prints(flights[|flights| - 1]))
  }

  /** Every entry a later flight of the run closes has its locations. */
  predicate ClosedLocated(flights: seq<Flight>, date: int -> string) {
    forall k | 0 < k < |flights| :: Closes(flights[k - 1], flights[k], date) ==> Located(flights[k - 1])
  }

  /** A landing count with its flight time: the `_nLandings*` and `flightTime*` pairs. */
  datatype Tally = Tally(landings: int, seconds: int)

  /** The current entry: `_currentPic`, `_currentFrom`, `_currentTo`, `_seats`, `_firstStart`,
      `_lastLanding`, and the entry's `_nLandings` and `flightTime`. */
  datatype Entry = Entry(pic: Option<int>, from: Option<string>, to: Option<string>, seats: set<string>,
                         firstStart: Option<int>, lastLanding: Option<int>, tally: Tally)

  /** What `printStats` writes, in order. */
  datatype Event =
    | FlightErrors(errors: seq<string>)
    | Header
    | EntryLine(day: Option<string>, entry: Entry, firstOfDay: bool)
    | DailySums(sums: Tally)

  /** The state of the tool between flights: the current entry, `_currentDay` with the day's
      tally, and the total tally. `_seats` starts as the empty set (the source's `None` is never
      added to before `newEntry` sets it). */
  class Stats {
    var entry: Entry
    var currentDay: Option<string>
    var today: Tally
    var total: Tally

    /** An entry lies within a day, and a day within the total. */
    predicate Valid()
      reads this
    {
      && 0 <= entry.tally.landings <= today.landings <= total.landings
      && (TruthyId(entry.pic) ==> currentDay.Some? && entry.firstStart.Some?)
    }

    constructor ()
      ensures Valid()
      ensures entry == Entry(None, None, None, {}, None, None, Tally(0, 0))
      ensures currentDay.None? && today == Tally(0, 0) && total == Tally(0, 0)
    {
      entry := Entry(None, None, None, {}, None, None, Tally(0, 0));
      currentDay := None;
      today := Tally(0, 0);
      total := Tally(0, 0);
    }

    /** `hasErrors(flight)`: the loop over the mandatory fields. */
    method HasErrors(f: Flight) returns (errors: seq<string>)
      ensures errors == MissingFields(f, MandatoryFields)
    {
      errors := [];
      for i := 0 to |MandatoryFields|
        invariant errors == MissingFields(f, MandatoryFields[..i])
      {
        assert MandatoryFields[..i + 1][..i] == MandatoryFields[..i];
        if !FieldSet(f, MandatoryFields[i]) {
          errors := errors + ["missing " + MandatoryFields[i]];
        }
      }
      assert MandatoryFields[..|MandatoryFields|] == MandatoryFields;
    }

    /** `mayAdd(flight)`: the pilot in command, the route and the day are the current entry's.
        The date is only computed when the first three agree. */
    function MayAdd(f: Flight, date: int -> string): (r: Result<bool>)
      reads this
      ensures r.Err? <==> (entry.pic == Pic(f) && entry.from == f.departureLocation &&
                           entry.to == f.landingLocation && f.departureTime.None?)
      ensures r.Err? ==> r.error == TypeError
      ensures r == Ok(true) <==> (entry.pic == Pic(f) && entry.from == f.departureLocation &&
                                  entry.to == f.landingLocation && f.departureTime.Some? &&
                                  currentDay == Some(date(f.departureTime.value)))
    {
      if entry.pic != Pic(f) || entry.from != f.departureLocation || entry.to != f.landingLocation then Ok(false)
      else
        var day :- Date(f, date);
        Ok(currentDay == Some(day))
    }

    /** `addEntry(flight)`: one more landing and the flight time in the entry, the day and the
        total. Without both times `duration()` raises after the landings are counted. */
    method AddEntry(f: Flight) returns (r: Result<()>)
      modifies this
      ensures r.Ok? <==> Duration(f).Ok?
      ensures r.Err? ==> r.error == TypeError
      ensures entry.seats == old(entry.seats) + {Seat(f)} && entry.lastLanding == f.landingTime
      ensures entry.tally == Tally(old(entry.tally.landings) + 1, old(entry.tally.seconds) + Seconds(f))
      ensures today == Tally(old(today.landings) + 1, old(today.seconds) + Seconds(f))
      ensures total == Tally(old(total.landings) + 1, old(total.seconds) + Seconds(f))
      ensures entry.pic == old(entry.pic) && entry.from == old(entry.from) && entry.to == old(entry.to)
      ensures entry.firstStart == old(entry.firstStart) && currentDay == old(currentDay)
    {
      var seat := if TruthyId(f.copilotId) then "2" else "1";
      entry := entry.(seats := entry.seats + {seat}, lastLanding := f.landingTime,
                      tally := entry.tally.(landings := entry.tally.landings + 1));
      today := today.(landings := today.landings + 1);
      total := total.(landings := total.landings + 1);
      var dt := Duration(f);
      if dt.Err? {
        return Err(dt.error);
      }
      entry := entry.(tally := entry.tally.(seconds := entry.tally.seconds + dt.value));
      today := today.(seconds := today.seconds + dt.value);
      total := total.(seconds := total.seconds + dt.value);
      r := Ok(());
    }

    /** `newEntry(flight)`: a new entry for the flight's pilot in command and route, holding just
        this flight. */
    method NewEntry(f: Flight) returns (r: Result<()>)
      modifies this
      ensures r.Ok? <==> Duration(f).Ok?
      ensures r.Err? ==> r.error == TypeError
      ensures entry == Entry(Pic(f), f.departureLocation, f.landingLocation, {Seat(f)},
                             f.departureTime, f.landingTime, Tally(1, Seconds(f)))
      ensures today == Tally(old(today.landings) + 1, old(today.seconds) + Seconds(f))
      ensures total == Tally(old(total.landings) + 1, old(total.seconds) + Seconds(f))
      ensures currentDay == old(currentDay)
    {
      entry := entry.(pic := Pic(f), from := f.departureLocation, to := f.landingLocation, seats := {},
                      firstStart := f.departureTime, tally := Tally(0, 0));
      r := AddEntry(f);
    }

    /** `newDay(flight)`: the day of the flight with its counters at zero; the entry and the
        total are untouched. A flight without a departure time raises TypeError first. */
    method NewDay(f: Flight, date: int -> string) returns (r: Result<()>)
      modifies this
      ensures r == (if f.departureTime.Some? then Ok(()) else Err(TypeError))
      ensures r.Ok? ==> currentDay == Some(date(f.departureTime.value)) && today == Tally(0, 0)
      ensures r.Err? ==> currentDay == old(currentDay) && today == old(today)
      ensures entry == old(entry) && total == old(total)
    {
      var day :- Date(f, date);
      currentDay := Some(day);
      today := Tally(0, 0);
      r := Ok(());
    }

    /** `printEntry()`: the current entry, marked first of the day when it holds all the day's
        landings. `db.pilot` of a falsy pilot in command gives `None`. The format arguments then
        fail in order: slicing a missing day raises TypeError, the missing pilot's `last_name`
        AttributeError, decoding a missing location AttributeError, and `strftime` of a missing
        time TypeError. The name of a found pilot is looked up in the database, which is not part
        of this model. */
    function EntryEvent(): (r: Result<Event>)
      reads this
      ensures r.Ok? <==> currentDay.Some? && TruthyId(entry.pic) && entry.from.Some? && entry.to.Some? &&
                         entry.firstStart.Some? && entry.lastLanding.Some?
      ensures r.Err? ==> r.error == (if currentDay.None? then TypeError
                                     else if !TruthyId(entry.pic) then AttributeError("last_name")
                                     else if entry.from.None? || entry.to.None? then AttributeError("decode")
                                     else TypeError)
      ensures r.Ok? ==> r.value.EntryLine? && r.value.entry == entry && r.value.day == currentDay
      ensures r.Ok? ==> (r.value.firstOfDay <==> entry.tally.landings == today.landings)
    {
      if currentDay.None? then Err(TypeError)
      else if !TruthyId(entry.pic) then Err(AttributeError("last_name"))
      else if entry.from.None? || entry.to.None? then Err(AttributeError("decode"))
      else if entry.firstStart.None? || entry.lastLanding.None? then Err(TypeError)
      else Ok(EntryLine(currentDay, entry, entry.tally.landings == today.landings))
    }

    /** The flight will close the current entry and print it. */
    predicate Closing(f: Flight, date: int -> string)
      reads this
    {
      TruthyId(entry.pic) && MayAdd(f, date) == Ok(false)
    }

    /** One pass of the loop of `printStats`: a flight opens the first entry, joins the
        current one, or closes it (and the day, when the flight's date differs) and opens its
        own. Either way it is added to exactly one entry, which then carries its pilot in
        command, its route and its date. */
    method Step(f: Flight, date: int -> string) returns (r: Result<()>, events: seq<Event>)
      requires Valid()
      modifies this
      ensures Valid()
      ensures r.Ok? <==> Duration(f).Ok? && (old(Closing(f, date)) ==> old(EntryEvent()).Ok?)
      ensures r.Err? ==> r.error == (if old(Closing(f, date)) && old(EntryEvent()).Err?
                                     then old(EntryEvent()).error else TypeError)
      ensures r.Err? ==> ErrorEvents(f) <= events
      ensures r.Ok? ==> total == Tally(old(total.landings) + 1, old(total.seconds) + Seconds(f))
      ensures r.Ok? ==> After(f, date)
      ensures r.Ok? ==> today == (if old(!TruthyId(entry.pic)) || old(currentDay) != currentDay
                                  then Tally(1, Seconds(f))
                                  else Tally(old(today.landings) + 1, old(today.seconds) + Seconds(f)))
      ensures r.Ok? && old(TruthyId(entry.pic)) && old(MayAdd(f, date)) == Ok(true) ==>
        entry.tally == Tally(old(entry.tally.landings) + 1, old(entry.tally.seconds) + Seconds(f)) &&
        entry.seats == old(entry.seats) + {Seat(f)} && entry.firstStart == old(entry.firstStart)
      ensures r.Ok? && !(old(TruthyId(entry.pic)) && old(MayAdd(f, date)) == Ok(true)) ==>
        entry == Entry(Pic(f), f.departureLocation, f.landingLocation, {Seat(f)},
                       f.departureTime, f.landingTime, Tally(1, Seconds(f)))
      ensures r.Ok? ==>
        (events ==
           ErrorEvents(f) +
           (if old(Closing(f, date)) then [old(EntryEvent()).value] else []) +
           (if old(!TruthyId(entry.pic)) then [Header]
            else if old(Closing(f, date)) && old(currentDay) != currentDay then [DailySums(old(today)), Header]
            else []))
    {
      var errors := HasErrors(f);
      events := if errors != [] then [FlightErrors(errors)] else [];
      if !TruthyId(entry.pic) {
        r := NewDay(f, date);
        if r.Err? {
          return;
        }
        r := NewEntry(f);
        if r.Ok? {
          events := events + [Header];
        }
        return;
      }
      var may := MayAdd(f, date);
      if may.Err? {
        return Err(may.error), events;
      }
      if may.value {
        r := AddEntry(f);
        return;
      }
      var line := EntryEvent();
      if line.Err? {
        return Err(line.error), events;
      }
      events := events + [line.value];
      var day := Date(f, date);
      if day.Err? {
        return Err(day.error), events;
      }
      if currentDay != Some(day.value) {
        events := events + [DailySums(today)];
        var started := NewDay(f, date);
        events := events + [Header];
      }
      r := NewEntry(f);
    }

    /** `printStats` over the flights of one plane. Every flight is added to exactly one entry,
        so the total grows by one landing and by the flight time per flight. The run fails
        exactly when some flight lacks a time, or an entry it prints cannot be printed: one a
        flight closes (which lacks a location), the last one (which lacks a location or a pilot
        in command), or the entry current before the run when the first flight closes it or
        there are no flights. */
    method PrintStats(flights: seq<Flight>, date: int -> string) returns (r: Result<()>, events: seq<Event>)
      requires Valid()
      modifies this
      ensures Valid()
      ensures r.Ok? <==> AllTimed(flights) && Printable(flights, date) &&
                         (if flights == [] then old(EntryEvent()).Ok?
                          else old(Closing(flights[0], date)) ==> old(EntryEvent()).Ok?)
      ensures r.Err? ==> r.error in {TypeError, AttributeError("last_name"), AttributeError("decode")}
      ensures r.Ok? ==> total == Tally(old(total.landings) + |flights|, old(total.seconds) + TotalSeconds(flights))
      ensures r.Ok? ==> EntryEvent().Ok? && |events| >= 2 &&
                        events[|events| - 2..] == [EntryEvent().value, DailySums(today)]
    {
      r, events := PrintFlights(flights, date);
      if r.Err? {
        return;
      }
      if flights != [] {
        AfterEntry(flights[|flights| - 1], date);
      }
      var line := EntryEvent();
      if line.Err? {
        return Err(line.error), events;
      }
      events := events + [line.value, DailySums(today)];
      assert events[|events| - 2..] == [line.value, DailySums(today)];
      r := Ok(());
    }

    /** The loop of `printStats`: every flight in turn, up to the first that fails. It fails
        exactly when some flight lacks a time, or a flight closes an entry lacking a location,
        the one current before the run included; otherwise the last flight's entry is current. */
    method PrintFlights(flights: seq<Flight>, date: int -> string) returns (r: Result<()>, events: seq<Event>)
      requires Valid()
      modifies this
      ensures Valid()
      ensures r.Ok? <==> AllTimed(flights) && ClosedLocated(flights, date) &&
                         (flights != [] && old(Closing(flights[0], date)) ==> old(EntryEvent()).Ok?)
      ensures r.Err? ==> r.error == TypeError || r.error == AttributeError("decode")
      ensures r.Ok? ==> total == Tally(old(total.landings) + |flights|, old(total.seconds) + TotalSeconds(flights))
      ensures r.Ok? && flights != [] ==> After(flights[|flights| - 1], date)
      ensures flights == [] ==> r.Ok? && entry == old(entry) && currentDay == old(currentDay) && today == old(today)
    {
      events := [];
      if flights == [] {
        return Ok(()), events;
      }
      ghost var closing := old(Closing(flights[0], date));
      ghost var prints := old(EntryEvent()).Ok?;
      ghost var first := closing ==> prints;
      var i := 0;
      while i < |flights|
        invariant 0 <= i <= |flights| && Valid()
        invariant AllTimed(flights[..i])
        invariant total == Tally(old(total.landings) + i, old(total.seconds) + TotalSeconds(flights[..i]))
        invariant i == 0 ==> (closing <==> Closing(flights[0], date)) && (prints <==> EntryEvent().Ok?)
        invariant i > 0 ==> first
        invariant i > 0 ==> After(flights[i - 1], date)
        invariant ClosedLocated(flights[..i], date)
      {
        PrefixSnoc(flights, i, date);
        var step, out := Advance(if i > 0 then Some(flights[i - 1]) else None, i == 0 && !first, flights[i], date);
        events := events + out;
        if step.Err? {
          if Duration(flights[i]).Err? {
            NotTimed(flights, i);
          } else if i > 0 {
            NotPrintable(flights, i, date);
          } else {
            assert !first;
          }
          return step, events;
        }
        i := i + 1;
      }
      assert flights[..|flights|] == flights;
      r := Ok(());
    }
    /** `Step` as the loop of `printStats` sees it, after the flight `prev` or, without one, from
        the state the run started in, where `blocked` says whether the flight closes an entry
        that cannot be printed: the step fails exactly when the flight lacks a time or closes
        an entry that lacks a location. */
    method Advance(ghost prev: Option<Flight>, ghost blocked: bool, f: Flight, date: int -> string)
      returns (r: Result<()>, events: seq<Event>)
      requires Valid()
      requires prev.Some? ==> After(prev.value, date)
      requires prev.None? ==> (blocked <==> Closing(f, date) && EntryEvent().Err?)
      modifies this
      ensures Valid()
      ensures r.Err? <==> Duration(f).Err? ||
                          (prev.Some? && Closes(prev.value, f, date) && !Located(prev.value)) ||
                          (prev.None? && blocked)
      ensures r.Err? ==> r.error == TypeError || r.error == AttributeError("decode")
      ensures r.Ok? ==> After(f, date)
      ensures r.Ok? ==> total == Tally(old(total.landings) + 1, old(total.seconds) + Seconds(f))
    {
      if prev.Some? {
        AfterEntry(prev.value, date);
        if Duration(f).Ok? {
          AfterClosing(prev.value, f, date);
        }
      }
      r, events := Step(f, date);
    }

    /** The state after `prev` was added: its entry is current, with its pilot in command,
        route and date, and a first start and the last landing set. */
    predicate After(prev: Flight, date: int -> string)
      reads this
    {
      && Duration(prev).Ok?
      && entry.pic == Pic(prev) && entry.from == prev.departureLocation && entry.to == prev.landingLocation
      && entry.firstStart.Some? && entry.lastLanding == prev.landingTime && currentDay == Some(date(prev.departureTime.value))
    }

    /** After a flight the current entry prints exactly when the flight had a pilot in command
        and both locations. */
    lemma AfterEntry(prev: Flight, date: int -> string)
      requires After(prev, date)
      ensures EntryEvent().Ok? <==> Prints(prev)
      ensures EntryEvent().Err? ==> EntryEvent().error == (if TruthyId(Pic(prev)) then AttributeError("decode")
                                                           else AttributeError("last_name"))
    {
    }

    /** After a flight, a timed flight closes the entry exactly when it does not join it. */
    lemma AfterClosing(prev: Flight, f: Flight, date: int -> string)
      requires After(prev, date) && Duration(f).Ok?
      ensures Closing(f, date) <==> Closes(prev, f, date)
    {
    }
  }

  /** One flight more in a prefix: its time joins the sum, its times the timed ones, and the
      entry it closes the closed ones. */
  lemma PrefixSnoc(flights: seq<Flight>, i: nat, date: int -> string)
    requires i < |flights|
    ensures TotalSeconds(flights[..i + 1]) == TotalSeconds(flights[..i]) + Seconds(flights[i])
    ensures AllTimed(flights[..i + 1]) <==> AllTimed(flights[..i]) && Duration(flights[i]).Ok?
    ensures ClosedLocated(flights[..i + 1], date) <==>
              ClosedLocated(flights[..i], date) &&
              (0 < i && Closes(flights[i - 1], flights[i], date) ==> Located(flights[i - 1]))
  {
    assert flights[..i + 1][..i] == flights[..i];
  }

  /** An entry closed by a later flight and lacking a location makes the run unprintable. */
  lemma NotPrintable(flights: seq<Flight>, i: nat, date: int -> string)
    requires 0 < i < |flights| && Closes(flights[i - 1], flights[i], date) && !Located(flights[i - 1])
    ensures !ClosedLocated(flights, date) && !Printable(flights, date)
  {
  }

  /** A flight without both times means not all flights are timed. */
  lemma NotTimed(flights: seq<Flight>, i: nat)
    requires i < |flights| && Duration(flights[i]).Err?
    ensures !AllTimed(flights)
  {
  }
}
