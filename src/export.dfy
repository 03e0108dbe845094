/**
 * The CSV export tool (pysk/tools/export.py): the header row, one row per flight record
 * numbered from 1, an extra towflight row after every airtow, and the SQL time filter built
 * from the `--time` arguments. `strftime`/`strptime` with the tool's date and time formats
 * are parameters.
 */
module FlightExport {
  import opened Wrappers
  import opened Strs
  import opened Flights
  import opened Records
  import PlaneStats

  /** A CSV field: `None` becomes an empty field, numbers and text are written as they are. */
  datatype Cell = Null | Text(text: string) | Number(n: int)

  /** A row of the CSV file, one field per column in the order of the header. */
  datatype Row = Row(
    date: Cell, number: Cell, registration: Cell, planeType: Cell, planeClub: Cell,
    pilotLastName: Cell, pilotFirstName: Cell, pilotClub: Cell, pilotVid: Cell,
    copilotLastName: Cell, copilotFirstName: Cell, copilotClub: Cell, copilotVid: Cell,
    flightType: Cell, numLandings: Cell, mode: Cell,
    departureTime: Cell, landingTime: Cell, duration: Cell, launchMethod: Cell,
    towplaneRegistration: Cell, towplaneMode: Cell, towplaneLanding: Cell,
    departureLocation: Cell, landingLocation: Cell, towplaneLandingLocation: Cell,
    comments: Cell, accountingNotes: Cell, dbid: Cell)

  /** The fields of a row in the order the CSV writer emits them. */
  function Cells(r: Row): (cells: seq<Cell>)
    ensures |cells| == 29
    ensures cells[0] == r.date && cells[1] == r.number && cells[28] == r.dbid
  {
    [r.date, r.number, r.registration, r.planeType, r.planeClub,
     r.pilotLastName, r.pilotFirstName, r.pilotClub, r.pilotVid,
     r.copilotLastName, r.copilotFirstName, r.copilotClub, r.copilotVid,
     r.flightType, r.numLandings, r.mode,
     r.departureTime, r.landingTime, r.duration, r.launchMethod,
     r.towplaneRegistration, r.towplaneMode, r.towplaneLanding,
     r.departureLocation, r.landingLocation, r.towplaneLandingLocation,
     r.comments, r.accountingNotes, r.dbid]
  }

  /** `strftime` with DATE_FORMAT ("%Y-%m-%d") and with TIME_FORMAT ("%H:%M"). */
  datatype Formats = Formats(date: int -> string, time: int -> string)

  function OptText(s: Option<string>): Cell {
    match s
    case None => Null
    case Some(t) => Text(t)
  }

  function OptNumber(n: Option<int>): Cell {
    match n
    case None => Null
    case Some(v) => Number(v)
  }

  /** The header row: the German column titles. */
  const Header := Row(
    Text("Datum"), Text("Nummer"), Text("Kennzeichen"), Text("LFZ Typ"), Text("LFZ Verein"),
    Text("Pilot Nachame"), Text("Pilot Vorname"), Text("Pilot Verein"), Text("Pilot VID (leer)"),
    Text("Begleiter Nachname"), Text("Begleiter Vorname"), Text("Begleiter Verein"),
    Text("Begleiter VID (leer)"), Text("Flugtyp"), Text("Anzahl Landungen"), Text("Modus"),
    Text("Startzeit"), Text("Landezeit"), Text("Flugdauer"), Text("Startart"),
    Text("Kennz. Schleppflugzeug (leer)"), Text("Modus Schleppflugzeug (leer)"),
    Text("Landung Schleppflugzeug (leer)"), Text("Startort"), Text("Zielort"),
    Text("Zielort Schleppflugzeug"), Text("Bemerkungen"), Text("Abrechnungshinweis"), Text("DBID"))

  /** `self.flightTypes`: the accounting name of each flight type. */
  const FlightTypes: map<string, string> := map[
    "normal" := "Normalflug",
    "training_1" := "Schulung(1)",
    "training_2" := "Schulung(2)",
    "guest_external" := "Gastflug(E)",
    "guest_private" := "Gastflug"]

  /** `self.flightTypes[rec.flight.type]`: an unknown or missing type raises KeyError. */
  function FlightTypeName(t: Option<string>): (r: Result<string>)
    ensures r.Ok? <==> t.Some? && t.value in FlightTypes
    ensures r.Ok? ==> r.value == FlightTypes[t.value]
    ensures r.Err? ==> r.error == KeyError(if t.Some? then t.value else "None")
  {
    if t.Some? && t.value in FlightTypes then Ok(FlightTypes[t.value])
    else Err(KeyError(if t.Some? then t.value else "None"))
  }

  /** The five known types have distinct names, none of them the towflight's "Schlepp". */
  lemma FlightTypeNamesDistinct(a: Option<string>, b: Option<string>)
    requires FlightTypeName(a).Ok? && FlightTypeName(b).Ok?
    ensures FlightTypeName(a) == FlightTypeName(b) <==> a == b
    ensures FlightTypeName(a).value != "Schlepp"
  {
  }

  /** `flightTimeStr(dt)`: "" for no time span, else the "HH:MM" text the statistics tool prints. */
  function ExportTimeStr(dt: Option<int>): (r: string)
    ensures dt.None? ==> r == ""
    ensures dt.Some? ==> r == PlaneStats.FlightTimeStr(dt.value)
  {
    match dt
    case None => ""
    case Some(s) => PlaneStats.FlightTimeStr(s)
  }

  /** A present non-negative span is written as hours and minutes that read back to it to the minute. */
  lemma ExportTimeStrReadsBack(s: int)
    requires s >= 0
    ensures ExportTimeStr(Some(s)) ==
      Pad2(PlaneStats.HoursMinutes(s).0) + ":" + Pad2(PlaneStats.HoursMinutes(s).1)
    ensures PlaneStats.HoursMinutes(s).0 * 3600 + PlaneStats.HoursMinutes(s).1 * 60 <= s
    ensures s < PlaneStats.HoursMinutes(s).0 * 3600 + PlaneStats.HoursMinutes(s).1 * 60 + 60
    ensures ExportTimeStr(Some(s)) != ExportTimeStr(None)
  {
    assert |ExportTimeStr(Some(s))| > 0 by {
      assert ExportTimeStr(Some(s)) == Pad2(PlaneStats.HoursMinutes(s).0) + ":" +
        Pad2(PlaneStats.HoursMinutes(s).1);
    }
  }

  /** `rec.launch_method.type == 'airtow'`. */
  predicate IsAirtow(rec: Record) {
    rec.launchMethod.kind == Some("airtow")
  }

  /** A record whose flight row can be written: it has a departure time (for `date`), a known
      type and a landing time (for `duration()`). */
  predicate Exportable(rec: Record) {
    rec.flight.departureTime.Some? && FlightTypeName(rec.flight.flightType).Ok? &&
    rec.flight.landingTime.Some?
  }

  /** The flight row of a record with number `count`; the first exception raised while the
      row is built (`date`, then the type name, then `duration()`) aborts it. */
  function FlightRow(rec: Record, count: int, fmt: Formats): (r: Result<Row>)
    ensures r.Ok? <==> Exportable(rec)
    ensures rec.flight.departureTime.None? ==> r == Err(TypeError)
    ensures rec.flight.departureTime.Some? && FlightTypeName(rec.flight.flightType).Err? ==>
      r == Err(FlightTypeName(rec.flight.flightType).error)
    ensures (rec.flight.departureTime.Some? && FlightTypeName(rec.flight.flightType).Ok? &&
             rec.flight.landingTime.None?) ==> r == Err(TypeError)
    ensures r.Ok? ==> r.value.number == Number(count)
    ensures r.Ok? ==> r.value.date == Text(fmt.date(rec.flight.departureTime.value))
    ensures r.Ok? ==> r.value.registration == OptText(rec.plane.registration)
    ensures r.Ok? ==> r.value.pilotLastName == OptText(rec.pilot.lastName)
    ensures r.Ok? ==> r.value.copilotLastName == OptText(rec.copilot.lastName)
    ensures r.Ok? ==> r.value.flightType == Text(FlightTypes[rec.flight.flightType.value])
    ensures r.Ok? ==> r.value.numLandings == OptText(rec.flight.numLandings)
    ensures r.Ok? ==> r.value.departureTime == Text(fmt.time(rec.flight.departureTime.value))
    ensures r.Ok? ==> r.value.landingTime == Text(fmt.time(rec.flight.landingTime.value))
    ensures r.Ok? ==>
      r.value.duration == Text(ExportTimeStr(Some(rec.flight.landingTime.value - rec.flight.departureTime.value)))
    ensures r.Ok? ==> r.value.launchMethod == OptText(rec.launchMethod.logString)
    ensures r.Ok? ==> r.value.departureLocation == OptText(rec.flight.departureLocation)
    ensures r.Ok? ==> r.value.landingLocation == OptText(rec.flight.landingLocation)
    ensures r.Ok? ==> r.value.towplaneRegistration == Null && r.value.towplaneLandingLocation == Null
    ensures r.Ok? ==> r.value.comments == OptText(rec.flight.comments)
    ensures r.Ok? ==> r.value.dbid == OptNumber(rec.flight.id)
  {
    var f := rec.flight;
    var date :- PlaneStats.Date(f, fmt.date);
    var kind :- FlightTypeName(f.flightType);
    var duration :- Duration(f);
    Ok(Row(Text(date), Number(count),
        OptText(rec.plane.registration), OptText(rec.plane.kind), OptText(rec.plane.club),
        OptText(rec.pilot.lastName), OptText(rec.pilot.firstName), OptText(rec.pilot.club), Null,
        OptText(rec.copilot.lastName), OptText(rec.copilot.firstName), OptText(rec.copilot.club), Null,
        Text(kind), OptText(f.numLandings), OptText(f.mode),
        Text(DepartureText(f, fmt.time)), Text(LandingText(f, fmt.time)),
        Text(ExportTimeStr(Some(duration))), OptText(rec.launchMethod.logString),
        Null, Null, Null,
        OptText(f.departureLocation), OptText(f.landingLocation), Null,
        OptText(f.comments), OptText(f.accountingNotes), OptNumber(f.id)))
  }

  /** The towflight's landing time in the time format, "" when it has none. */
  function TowLandingText(f: Flight, strftime: int -> string): (r: string)
    ensures f.towflightLandingTime.None? ==> r == ""
    ensures f.towflightLandingTime.Some? ==> r == strftime(f.towflightLandingTime.value)
  {
    match f.towflightLandingTime
    case None => ""
    case Some(t) => strftime(t)
  }

  /** The towflight's duration: from the common departure to the towplane's landing, `None`
      when either time is missing. */
  function TowDuration(f: Flight): (r: Option<int>)
    ensures r.Some? <==> f.departureTime.Some? && f.towflightLandingTime.Some?
    ensures r.Some? ==> f.departureTime.value + r.value == f.towflightLandingTime.value
  {
    if f.departureTime.Some? && f.towflightLandingTime.Some? then
      Some(f.towflightLandingTime.value - f.departureTime.value)
    else None
  }

  /** The towflight row as written: building it calls `towLandingTime`, which flights do not
      have, so it raises AttributeError once `date` has succeeded. */
  function TowRowAsWritten(rec: Record, count: int, fmt: Formats): (r: Result<Row>)
    ensures rec.flight.departureTime.None? ==> r == Err(TypeError)
    ensures rec.flight.departureTime.Some? ==> r == Err(AttributeError("towLandingTime"))
  {
    var date :- PlaneStats.Date(rec.flight, fmt.date);
    Err(AttributeError("towLandingTime"))
  }

  /** The towflight row as intended: the towplane and its pilot, flight type "Schlepp" with no
      landings, the glider's departure time and place, the towplane's own landing time, place
      and duration, and a comment naming the glider flight. */
  function TowRow(rec: Record, count: int, fmt: Formats): (r: Result<Row>)
    ensures r.Ok? <==> rec.flight.departureTime.Some?
    ensures r.Err? ==> r.error == TypeError
    ensures r.Ok? ==> r.value.number == Number(count)
    ensures r.Ok? ==> r.value.date == Text(fmt.date(rec.flight.departureTime.value))
    ensures r.Ok? ==> r.value.registration == OptText(rec.towplane.registration)
    ensures r.Ok? ==> r.value.pilotLastName == OptText(rec.towpilot.lastName)
    ensures r.Ok? ==> r.value.copilotLastName == Null
    ensures r.Ok? ==> r.value.flightType == Text("Schlepp") && r.value.numLandings == Number(0)
    ensures r.Ok? ==> r.value.mode == OptText(rec.flight.towflightMode)
    ensures r.Ok? ==> r.value.departureTime == Text(fmt.time(rec.flight.departureTime.value))
    ensures r.Ok? ==> r.value.landingTime == Text(TowLandingText(rec.flight, fmt.time))
    ensures r.Ok? ==> r.value.duration == Text(ExportTimeStr(TowDuration(rec.flight)))
    ensures r.Ok? ==> r.value.launchMethod == Text("ES")
    ensures r.Ok? ==> r.value.departureLocation == OptText(rec.flight.departureLocation)
    ensures r.Ok? ==> r.value.landingLocation == OptText(rec.flight.towflightLandingLocation)
    ensures r.Ok? ==> r.value.comments == Text("Schleppflug für Flug Nr. " + IdText(rec.flight.id))
    ensures r.Ok? ==> r.value.dbid == OptNumber(rec.flight.id)
  {
    var f := rec.flight;
    var date :- PlaneStats.Date(f, fmt.date);
    Ok(Row(Text(date), Number(count),
        OptText(rec.towplane.registration), OptText(rec.towplane.kind), OptText(rec.towplane.club),
        OptText(rec.towpilot.lastName), OptText(rec.towpilot.firstName), OptText(rec.towpilot.club),
        Null, Null, Null, Null, Null,
        Text("Schlepp"), Number(0), OptText(f.towflightMode),
        Text(DepartureText(f, fmt.time)), Text(TowLandingText(f, fmt.time)),
        Text(ExportTimeStr(TowDuration(f))), Text("ES"),
        Null, Null, Null,
        OptText(f.departureLocation), OptText(f.towflightLandingLocation), Null,
        Text("Schleppflug für Flug Nr. " + IdText(f.id)), Null, OptNumber(f.id)))
  }

  /** `"{0}".format(id)`. */
  function IdText(id: Option<int>): string {
    match id
    case None => "None"
    case Some(n) => IntToString(n)
  }

  /** The tow row the export uses: the intended one, or the one the code as written builds. */
  function TowRowFor(rec: Record, count: int, fmt: Formats, asWritten: bool): Result<Row> {
    if asWritten then TowRowAsWritten(rec, count, fmt) else TowRow(rec, count, fmt)
  }

  /** The data rows of the export from number `count` on, and the exception that ended it. */
  function Export(records: seq<Record>, count: int, fmt: Formats, asWritten: bool): (seq<Row>, Option<Error>)
    decreases |records|
  {
    if records == [] then ([], None)
    else
      var rec := records[0];
      var row := FlightRow(rec, count, fmt);
      if row.Err? then ([], Some(row.error))
      else if !IsAirtow(rec) then
        var rest := Export(records[1..], count + 1, fmt, asWritten);
        ([row.value] + rest.0, rest.1)
      else
        var tow := TowRowFor(rec, count + 1, fmt, asWritten);
        if tow.Err? then ([row.value], Some(tow.error))
        else
          var rest := Export(records[1..], count + 2, fmt, asWritten);
          ([row.value] + [tow.value] + rest.0, rest.1)
  }

  /** The number of airtow records. */
  function Airtows(records: seq<Record>): nat {
    if records == [] then 0 else (if IsAirtow(records[0]) then 1 else 0) + Airtows(records[1..])
  }

  /** The index of the first record that cannot be exported. */
  function FirstFailing(records: seq<Record>): (r: nat)
    ensures r <= |records|
    ensures forall i :: 0 <= i < r ==> Exportable(records[i])
    ensures r < |records| ==> !Exportable(records[r])
  {
    if records == [] then 0
    else if !Exportable(records[0]) then 0
    else 1 + FirstFailing(records[1..])
  }

  /** The intended export fails exactly when some record cannot be exported, with that first
      record's exception; otherwise it writes one row per record plus one per airtow. */
  lemma {:induction false} ExportComplete(records: seq<Record>, count: int, fmt: Formats)
    ensures Export(records, count, fmt, false).1.None? <==> FirstFailing(records) == |records|
    ensures FirstFailing(records) < |records| ==>
      Export(records, count, fmt, false).1 == Some(FlightRow(records[FirstFailing(records)], 0, fmt).error)
    ensures FirstFailing(records) == |records| ==>
      |Export(records, count, fmt, false).0| == |records| + Airtows(records)
    decreases |records|
  {
    if records != [] && Exportable(records[0]) {
      var step := if IsAirtow(records[0]) then 2 else 1;
      ExportComplete(records[1..], count + step, fmt);
      if FirstFailing(records) < |records| {
        assert records[1..][FirstFailing(records[1..])] == records[FirstFailing(records)];
      }
    }
  }

  /** The rows carry the numbers `start`, `start + 1`, … in order. */
  predicate NumberedFrom(rows: seq<Row>, start: int) {
    forall k :: 0 <= k < |rows| ==> rows[k].number == Number(start + k)
  }

  lemma NumberedCons(row: Row, rest: seq<Row>, start: int)
    requires row.number == Number(start) && NumberedFrom(rest, start + 1)
    ensures NumberedFrom([row] + rest, start)
  {
    forall k | 0 <= k < |[row] + rest|
      ensures ([row] + rest)[k].number == Number(start + k)
    {
      if k > 0 {
        assert ([row] + rest)[k] == rest[k - 1];
      }
    }
  }

  /** The rows are numbered consecutively from `count`, towflight rows included. */
  lemma {:induction false} ExportNumbering(records: seq<Record>, count: int, fmt: Formats, asWritten: bool)
    ensures NumberedFrom(Export(records, count, fmt, asWritten).0, count)
    decreases |records|
  {
    if records != [] && FlightRow(records[0], count, fmt).Ok? {
      if !IsAirtow(records[0]) {
        ExportNumbering(records[1..], count + 1, fmt, asWritten);
      } else {
        ExportNumbering(records[1..], count + 2, fmt, asWritten);
      }
      NumberingStep(records, count, fmt, asWritten);
    }
  }

  /** One record's rows keep the numbering of the rows after them going. */
  lemma NumberingStep(records: seq<Record>, count: int, fmt: Formats, asWritten: bool)
    requires records != [] && FlightRow(records[0], count, fmt).Ok?
    requires !IsAirtow(records[0]) ==> NumberedFrom(Export(records[1..], count + 1, fmt, asWritten).0, count + 1)
    requires IsAirtow(records[0]) ==> NumberedFrom(Export(records[1..], count + 2, fmt, asWritten).0, count + 2)
    ensures NumberedFrom(Export(records, count, fmt, asWritten).0, count)
  {
    ExportStep(records, count, fmt, asWritten);
    var row := FlightRow(records[0], count, fmt).value;
    if !IsAirtow(records[0]) {
      NumberedCons(row, Export(records[1..], count + 1, fmt, asWritten).0, count);
    } else if TowRowFor(records[0], count + 1, fmt, asWritten).Ok? {
      NumberedPair(row, TowRowFor(records[0], count + 1, fmt, asWritten).value,
                   Export(records[1..], count + 2, fmt, asWritten).0, count);
    } else {
      NumberedCons(row, [], count);
    }
  }

  lemma NumberedPair(row: Row, tow: Row, rest: seq<Row>, start: int)
    requires row.number == Number(start) && tow.number == Number(start + 1) && NumberedFrom(rest, start + 2)
    ensures NumberedFrom([row] + [tow] + rest, start)
  {
    NumberedCons(tow, rest, start + 1);
    NumberedCons(row, [tow] + rest, start);
    assert [row] + [tow] + rest == [row] + ([tow] + rest);
  }

  /** An airtow record is written as its flight row followed directly by its towflight row. */
  lemma AirtowRows(rec: Record, rest: seq<Record>, count: int, fmt: Formats)
    requires Exportable(rec) && IsAirtow(rec)
    ensures Export([rec] + rest, count, fmt, false).0 ==
      [FlightRow(rec, count, fmt).value] + [TowRow(rec, count + 1, fmt).value] +
      Export(rest, count + 2, fmt, false).0
    ensures TowRow(rec, count + 1, fmt).value.flightType == Text("Schlepp")
    ensures TowRow(rec, count + 1, fmt).value.departureTime == FlightRow(rec, count, fmt).value.departureTime
    ensures TowRow(rec, count + 1, fmt).value.departureLocation == FlightRow(rec, count, fmt).value.departureLocation
  {
    assert ([rec] + rest)[1..] == rest;
  }

  /** The code as written stops at the first airtow: after that record's flight row it raises
      AttributeError, although every record could be exported; the intended export completes. */
  lemma {:induction false} AirtowAsWrittenFails(records: seq<Record>, count: int, fmt: Formats)
    requires FirstFailing(records) == |records|
    ensures Export(records, count, fmt, false).1 == None
    ensures Export(records, count, fmt, true).1 ==
      (if Airtows(records) > 0 then Some(AttributeError("towLandingTime")) else None)
    decreases |records|
  {
    ExportComplete(records, count, fmt);
    if records != [] {
      assert Exportable(records[0]);
      assert records[1..] == records[1..] && FirstFailing(records[1..]) == |records[1..]|;
      if !IsAirtow(records[0]) {
        AirtowAsWrittenFails(records[1..], count + 1, fmt);
      }
    }
  }

  /** The step the export takes for one record whose flight row can be built, in the shape the
      loop appends rows. */
  lemma ExportStep(records: seq<Record>, count: int, fmt: Formats, asWritten: bool)
    requires records != [] && FlightRow(records[0], count, fmt).Ok?
    ensures !IsAirtow(records[0]) ==>
      Export(records, count, fmt, asWritten) ==
        ([FlightRow(records[0], count, fmt).value] + Export(records[1..], count + 1, fmt, asWritten).0,
         Export(records[1..], count + 1, fmt, asWritten).1)
    ensures (IsAirtow(records[0]) && TowRowFor(records[0], count + 1, fmt, asWritten).Err?) ==>
      Export(records, count, fmt, asWritten) ==
        ([FlightRow(records[0], count, fmt).value], Some(TowRowFor(records[0], count + 1, fmt, asWritten).error))
    ensures (IsAirtow(records[0]) && TowRowFor(records[0], count + 1, fmt, asWritten).Ok?) ==>
      Export(records, count, fmt, asWritten) ==
        ([FlightRow(records[0], count, fmt).value] + [TowRowFor(records[0], count + 1, fmt, asWritten).value] +
         Export(records[1..], count + 2, fmt, asWritten).0,
         Export(records[1..], count + 2, fmt, asWritten).1)
  {
  }

  lemma Regroup<T>(done: seq<T>, a: T, rest: seq<T>)
    ensures done + ([a] + rest) == done + [a] + rest
  {
  }

  lemma Regroup2<T>(done: seq<T>, a: T, b: T, rest: seq<T>)
    ensures done + ([a] + [b] + rest) == done + [a] + [b] + rest
  {
  }

  /** `writeCsv(os)` on the records of the database, the written rows returned: the header,
      then the rows of the export, and the exception that stopped it. With `asWritten` the
      towflight row reads the missing `towLandingTime`, so the first airtow raises
      AttributeError after its flight row; otherwise the intended towflight row is written. */
  method WriteCsv(records: seq<Record>, fmt: Formats, asWritten: bool) returns (r: Result<()>, rows: seq<Row>)
    ensures rows == [Header] + Export(records, 1, fmt, asWritten).0
    ensures r.Err? <==> Export(records, 1, fmt, asWritten).1.Some?
    ensures r.Err? ==> r.error == Export(records, 1, fmt, asWritten).1.value
  {
    rows := [Header];
    var count := 1;
    var i := 0;
    while i < |records|
      invariant 0 <= i <= |records|
      invariant rows + Export(records[i..], count, fmt, asWritten).0 == [Header] + Export(records, 1, fmt, asWritten).0
      invariant Export(records[i..], count, fmt, asWritten).1 == Export(records, 1, fmt, asWritten).1
      decreases |records| - i
    {
      var rec := records[i];
      var row := FlightRow(rec, count, fmt);
      if row.Err? {
        assert Export(records[i..], count, fmt, asWritten) == ([], Some(row.error));
        return Err(row.error), rows;
      }
      ExportStep(records[i..], count, fmt, asWritten);
      assert records[i..][1..] == records[i + 1..];
      if IsAirtow(rec) {
        var tow := TowRowFor(rec, count + 1, fmt, asWritten);
        if tow.Err? {
          return Err(tow.error), rows + [row.value];
        }
        Regroup2(rows, row.value, tow.value, Export(records[i + 1..], count + 2, fmt, asWritten).0);
        rows := rows + [row.value] + [tow.value];
        count := count + 2;
      } else {
        Regroup(rows, row.value, Export(records[i + 1..], count + 1, fmt, asWritten).0);
        rows := rows + [row.value];
        count := count + 1;
      }
      i := i + 1;
    }
    assert records[i..] == [];
    r := Ok(());
  }

  // ---- timeConstraints -------------------------------------------------------------------

  /** Python 2's text of the list of time arguments, `['a', 'b']`. */
  function ListText(times: seq<string>): string {
    "[" + Join(Quoted(times), ", ") + "]"
  }

  function Quoted(times: seq<string>): (r: seq<string>)
    ensures |r| == |times|
  {
    if times == [] then [] else ["'" + times[0] + "'"] + Quoted(times[1..])
  }

  /** The exception text for an argument with more than one colon: it shows the whole list. */
  function InvalidText(times: seq<string>): string {
    "Invalid time string '" + ListText(times) + "'"
  }

  type Bounds = (Option<int>, Option<int>)

  /** The clause one argument adds: its bounds joined by " AND " in parentheses, none without bounds. */
  function Clause(bounds: Bounds, format: int -> string): (r: seq<string>)
    ensures |r| == (if bounds.0.Some? || bounds.1.Some? then 1 else 0)
    ensures r != [] ==> r[0] == "(" + PlaneStats.BoundsFilter(bounds, format) + ")"
  {
    if bounds.0.Some? || bounds.1.Some? then ["(" + PlaneStats.BoundsFilter(bounds, format) + ")"] else []
  }

  /** The clauses of the remaining arguments `times`, the bounds carried over from earlier ones. */
  function Clauses(times: seq<string>, bounds: Bounds, parse: string -> Option<int>, format: int -> string,
                   invalid: string): Result<seq<string>>
    decreases |times|
  {
    if times == [] then Ok([])
    else
      var next :- PlaneStats.BoundsStep(bounds, times[0], parse, invalid);
      var rest :- Clauses(times[1..], next, parse, format, invalid);
      Ok(Clause(next, format) + rest)
  }

  /** `timeConstraints()`: the clauses of all arguments joined by " OR ". */
  function TimeConstraintsSpec(times: seq<string>, parse: string -> Option<int>, format: int -> string)
    : Result<string>
  {
    var clauses :- Clauses(times, (None, None), parse, format, InvalidText(times));
    Ok(Join(clauses, " OR "))
  }

  /** Whether one argument is accepted: at most one colon and every non-empty date parses. */
  predicate ArgOk(t: string, parse: string -> Option<int>) {
    PlaneStats.BoundsStep((None, None), t, parse, "").Ok?
  }

  /** Accepting an argument does not depend on the bounds before it or on the error text. */
  lemma ArgOkAnyBounds(bounds: Bounds, t: string, parse: string -> Option<int>, invalid: string)
    ensures PlaneStats.BoundsStep(bounds, t, parse, invalid).Ok? <==> ArgOk(t, parse)
    ensures (PlaneStats.BoundsStep(bounds, t, parse, invalid).Err? && Count(t, ':') >= 2) ==>
      PlaneStats.BoundsStep(bounds, t, parse, invalid).error == RuntimeError(invalid)
  {
    PlaneStats.BoundsStepCases(bounds, t, parse, invalid);
  }

  /** The arguments are accepted exactly when each one is; then each adds at most one clause,
      and from the first argument with a bound on every argument adds exactly one. */
  lemma {:induction false} ClausesSpec(times: seq<string>, bounds: Bounds, parse: string -> Option<int>,
                                        format: int -> string, invalid: string)
    ensures Clauses(times, bounds, parse, format, invalid).Ok? <==> forall i :: 0 <= i < |times| ==> ArgOk(times[i], parse)
    ensures Clauses(times, bounds, parse, format, invalid).Ok? ==>
      |Clauses(times, bounds, parse, format, invalid).value| <= |times|
    ensures Clauses(times, bounds, parse, format, invalid).Ok? && (bounds.0.Some? || bounds.1.Some?) ==>
      |Clauses(times, bounds, parse, format, invalid).value| == |times|
    decreases |times|
  {
    if times != [] {
      ArgOkAnyBounds(bounds, times[0], parse, invalid);
      var next := PlaneStats.BoundsStep(bounds, times[0], parse, invalid);
      if next.Ok? {
        ClausesSpec(times[1..], next.value, parse, format, invalid);
        BoundsKept(bounds, times[0], parse, invalid);
        forall i | 1 <= i < |times|
          ensures ArgOk(times[i], parse) <==> ArgOk(times[1..][i - 1], parse)
        {
        }
        if Clauses(times, bounds, parse, format, invalid).Ok? {
          assert Clauses(times, bounds, parse, format, invalid).value ==
            Clause(next.value, format) + Clauses(times[1..], next.value, parse, format, invalid).value;
        }
      }
    }
  }

  /** A bound, once set, stays set across later arguments. */
  lemma BoundsKept(bounds: Bounds, t: string, parse: string -> Option<int>, invalid: string)
    requires PlaneStats.BoundsStep(bounds, t, parse, invalid).Ok?
    ensures bounds.0.Some? ==> PlaneStats.BoundsStep(bounds, t, parse, invalid).value.0.Some?
    ensures bounds.1.Some? ==> PlaneStats.BoundsStep(bounds, t, parse, invalid).value.1.Some?
  {
  }

  /** No arguments give no condition; an argument with two colons first raises RuntimeError
      naming the whole argument list. */
  lemma TimeConstraintsCases(times: seq<string>, parse: string -> Option<int>, format: int -> string)
    ensures times == [] ==> TimeConstraintsSpec(times, parse, format) == Ok("")
    ensures times != [] && Count(times[0], ':') >= 2 ==>
      TimeConstraintsSpec(times, parse, format) == Err(RuntimeError(InvalidText(times)))
  {
    if times != [] {
      PlaneStats.BoundsStepCases((None, None), times[0], parse, InvalidText(times));
    }
  }

  /** A later "a:" or ":b" inherits the other bound from the date before it. */
  lemma BoundsInherited(d: string, a: string, b: string, parse: string -> Option<int>, format: int -> string)
    requires Count(d, ':') == 0 && parse(d).Some?
    requires Count(a, ':') == 0 && Count(b, ':') == 0
    requires a != "" ==> parse(a).Some?
    requires b != "" ==> parse(b).Some?
    ensures TimeConstraintsSpec([d, a + [':'] + b], parse, format) ==
      Ok("(" + PlaneStats.BoundsFilter((Some(parse(d).value), Some(parse(d).value + PlaneStats.Day)), format) + ")" +
         " OR " +
         ("(" + PlaneStats.BoundsFilter((if a != "" then Some(parse(a).value) else Some(parse(d).value),
                                         if b != "" then Some(parse(b).value) else Some(parse(d).value + PlaneStats.Day)),
                                        format) + ")"))
  {
    var t2 := a + [':'] + b;
    var invalid := InvalidText([d, t2]);
    var first := (Some(parse(d).value), Some(parse(d).value + PlaneStats.Day));
    PlaneStats.BoundsStepCases((None, None), d, parse, invalid);
    PlaneStats.BoundsStepRange(first, a, b, parse, invalid);
    TwoArguments(d, t2, first, PlaneStats.BoundsStep(first, t2, parse, invalid).value, parse, format);
  }

  /** Two accepted arguments give the clause of the bounds after each, joined by " OR ". */
  lemma TwoArguments(t1: string, t2: string, n1: Bounds, n2: Bounds, parse: string -> Option<int>,
                     format: int -> string)
    requires n1.0.Some? && n2.0.Some?
    requires PlaneStats.BoundsStep((None, None), t1, parse, InvalidText([t1, t2])) == Ok(n1)
    requires PlaneStats.BoundsStep(n1, t2, parse, InvalidText([t1, t2])) == Ok(n2)
    ensures TimeConstraintsSpec([t1, t2], parse, format) ==
      Ok("(" + PlaneStats.BoundsFilter(n1, format) + ")" + " OR " + ("(" + PlaneStats.BoundsFilter(n2, format) + ")"))
  {
    ClausesPair(t1, t2, (None, None), n1, n2, parse, format, InvalidText([t1, t2]));
    assert Clause(n1, format) == ["(" + PlaneStats.BoundsFilter(n1, format) + ")"];
    assert Clause(n2, format) == ["(" + PlaneStats.BoundsFilter(n2, format) + ")"];
    JoinPair("(" + PlaneStats.BoundsFilter(n1, format) + ")", "(" + PlaneStats.BoundsFilter(n2, format) + ")", " OR ");
  }

  /** Two arguments: each adds the clause of the bounds after it. */
  lemma ClausesPair(t1: string, t2: string, bounds: Bounds, n1: Bounds, n2: Bounds, parse: string -> Option<int>,
                    format: int -> string, invalid: string)
    requires PlaneStats.BoundsStep(bounds, t1, parse, invalid) == Ok(n1)
    requires PlaneStats.BoundsStep(n1, t2, parse, invalid) == Ok(n2)
    ensures Clauses([t1, t2], bounds, parse, format, invalid) == Ok(Clause(n1, format) + Clause(n2, format))
  {
    assert [t1, t2][1..] == [t2];
    assert [t2][1..] == [];
    assert Clauses([t2], n1, parse, format, invalid) == Ok(Clause(n2, format) + []);
    assert Clause(n2, format) + [] == Clause(n2, format);
  }

  lemma JoinPair(x: string, y: string, sep: string)
    ensures Join([x] + [y], sep) == x + sep + y
  {
    assert ([x] + [y])[1..] == [y];
  }

  /** The clauses of the arguments before the remaining ones, in front of the remaining ones'. */
  function Prefixed(clauses: seq<string>, rest: Result<seq<string>>): Result<seq<string>> {
    if rest.Ok? then Ok(clauses + rest.value) else rest
  }

  /** The carry in the shape the constraint loop extends its clauses. */
  lemma ClausesStep(times: seq<string>, bounds: Bounds, parse: string -> Option<int>, format: int -> string,
                    invalid: string)
    requires times != [] && PlaneStats.BoundsStep(bounds, times[0], parse, invalid).Ok?
    ensures Clauses(times, bounds, parse, format, invalid) ==
      (var next := PlaneStats.BoundsStep(bounds, times[0], parse, invalid).value;
       var rest := Clauses(times[1..], next, parse, format, invalid);
       if rest.Ok? then Ok(Clause(next, format) + rest.value) else rest)
  {
  }

  /** One accepted argument moves its clause from the remaining arguments to the done ones. */
  lemma ClausesCarry(times: seq<string>, i: nat, bounds: Bounds, next: Bounds, clauses: seq<string>,
                     parse: string -> Option<int>, format: int -> string, invalid: string)
    requires i < |times| && PlaneStats.BoundsStep(bounds, times[i], parse, invalid) == Ok(next)
    ensures Prefixed(clauses, Clauses(times[i..], bounds, parse, format, invalid)) ==
      Prefixed(clauses + Clause(next, format), Clauses(times[i + 1..], next, parse, format, invalid))
  {
    ClausesStep(times[i..], bounds, parse, format, invalid);
    assert times[i..][1..] == times[i + 1..];
    var rest := Clauses(times[i + 1..], next, parse, format, invalid);
    if rest.Ok? {
      assert clauses + (Clause(next, format) + rest.value) == clauses + Clause(next, format) + rest.value;
    }
  }

  /** `timeConstraints()` over `config.time`, with `begin` and `end` carried across arguments. */
  method TimeConstraints(times: seq<string>, parse: string -> Option<int>, format: int -> string)
    returns (r: Result<string>)
    ensures r == TimeConstraintsSpec(times, parse, format)
  {
    var invalid := InvalidText(times);
    var bounds: Bounds := (None, None);
    var clauses: seq<string> := [];
    var i := 0;
    assert times[0..] == times;
    if Clauses(times, (None, None), parse, format, invalid).Ok? {
      assert [] + Clauses(times, (None, None), parse, format, invalid).value ==
        Clauses(times, (None, None), parse, format, invalid).value;
    }
    while i < |times|
      invariant 0 <= i <= |times|
      invariant Clauses(times, (None, None), parse, format, invalid) ==
        Prefixed(clauses, Clauses(times[i..], bounds, parse, format, invalid))
      decreases |times| - i
    {
      var next := PlaneStats.BoundsStep(bounds, times[i], parse, invalid);
      if next.Err? {
        assert times[i..][0] == times[i];
        return Err(next.error);
      }
      ClausesCarry(times, i, bounds, next.value, clauses, parse, format, invalid);
      clauses := clauses + Clause(next.value, format);
      bounds := next.value;
      i := i + 1;
    }
    assert |times[i..]| == 0;
    assert clauses + [] == clauses;
    r := Ok(Join(clauses, " OR "));
  }
}
