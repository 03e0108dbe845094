/**
 * The CSV importer (pysk/db/csv_reader.py): the header names the columns, each
 * data row becomes a record, and separate tow-flight rows are merged into the
 * glider flight they belong to. Rows arrive as already-decoded cells.
 */
module CsvReaders {
  import opened Wrappers
  import opened Strs
  import opened Flights
  import Pilots
  import Airplanes
  import LaunchMethods
  import opened Records

  /** The fields a row must provide. */
  const MandatoryColumns: set<string> := {
    "date", "plane_registration", "pilot_first_name", "copilot_first_name", "copilot_last_name",
    "flight_type", "num_landings", "flight_mode", "departure_time", "landing_time", "launch_method",
    "departure_location", "landing_location", "comments", "accounting_notes"}

  /** The fields a row may lack. */
  const OptionalColumns: set<string> := {
    "towplane_registration", "towflight_mode", "towflight_landing_time", "towflight_landing_location",
    "towflight_pilot"}

  /** Lowercased header text to field name. */
  const ColumnMap: map<string, string> := map[
    "datum" := "date",
    "kennzeichen" := "plane_registration",
    "pilot vorname" := "pilot_first_name",
    "pilot nachname" := "pilot_last_name",
    "begleiter vorname" := "copilot_first_name",
    "begleiter nachname" := "copilot_last_name",
    "flugtyp" := "flight_type",
    "anzahl landungen" := "num_landings",
    "modus" := "flight_mode",
    "startzeit" := "departure_time",
    "landezeit" := "landing_time",
    "startart" := "launch_method",
    "kennzeichen schleppflugzeug" := "towplane_registration",
    "modus schleppflugzeug" := "towflight_mode",
    "landung schleppflugzeug" := "towflight_landing_time",
    "startort" := "departure_location",
    "zielort" := "landing_location",
    "zielort schleppflugzeug" := "towflight_landing_location",
    "bemerkungen" := "comments",
    "abrechnungshinweis" := "accounting_notes",
    "dbid" := "flight_id"]

  const FlightTypeMap: map<string, string> := map[
    "normalflug" := "normal",
    "schulung (1)" := "training_1",
    "schulung (2)" := "training_2",
    "gastflug" := "guest_external",
    "gastflug (e)" := "guest_external",
    "gastflug (p)" := "guest_private",
    "schlepp" := "towflight"]

  const FlightModeMap: map<string, string> := map[
    "lokal" := "local",
    "kommt" := "inbound",
    "geht" := "outbound"]

  /** The column index of each field the header named. */
  type Columns = map<string, nat>

  type Row = seq<string>

  /** Columns only ever hold field names of the column map. */
  predicate KnownColumns(columns: Columns) {
    forall field :: field in columns ==> field in ColumnMap.Values
  }

  /** A header cell names a field when its lowercased text maps to it. */
  predicate NamesField(cell: string, field: string) {
    Lower(cell) in ColumnMap && ColumnMap[Lower(cell)] == field
  }

  /** The columns a header names, each at the position of its last cell. */
  function HeaderColumns(header: seq<string>): Columns
    decreases |header|
  {
    if header == [] then map[]
    else
      var found := HeaderColumns(header[..|header| - 1]);
      var name := Lower(header[|header| - 1]);
      if name in ColumnMap then found[ColumnMap[name] := |header| - 1] else found
  }

  /** A field is found exactly when some cell names it, at the last cell that does; cells
      naming nothing are ignored. */
  lemma HeaderColumnsSpec(header: seq<string>)
    ensures KnownColumns(HeaderColumns(header))
    ensures forall field :: field in HeaderColumns(header) ==>
      HeaderColumns(header)[field] < |header| && NamesField(header[HeaderColumns(header)[field]], field)
      && forall j :: HeaderColumns(header)[field] < j < |header| ==> !NamesField(header[j], field)
    ensures forall i, field :: 0 <= i < |header| && NamesField(header[i], field) ==> field in HeaderColumns(header)
  {
    HeaderColumnsKnown(header);
    HeaderColumnsLast(header);
    HeaderColumnsFound(header);
  }

  lemma {:induction false} HeaderColumnsKnown(header: seq<string>)
    ensures KnownColumns(HeaderColumns(header))
    decreases |header|
  {
    if header != [] {
      HeaderColumnsKnown(header[..|header| - 1]);
    }
  }

  lemma {:induction false} HeaderColumnsLast(header: seq<string>)
    ensures forall field :: field in HeaderColumns(header) ==>
      HeaderColumns(header)[field] < |header| && NamesField(header[HeaderColumns(header)[field]], field)
      && forall j :: HeaderColumns(header)[field] < j < |header| ==> !NamesField(header[j], field)
    decreases |header|
  {
    if header != [] {
      var n := |header| - 1;
      var init := header[..n];
      var name := Lower(header[n]);
      HeaderColumnsLast(init);
      var columns := HeaderColumns(header);
      forall field | field in columns
        ensures columns[field] < |header| && NamesField(header[columns[field]], field)
        ensures forall j :: columns[field] < j < |header| ==> !NamesField(header[j], field)
      {
        if !(name in ColumnMap && ColumnMap[name] == field) {
          var k := HeaderColumns(init)[field];
          assert columns[field] == k;
          assert header[k] == init[k];
          forall j | k < j < |header|
            ensures !NamesField(header[j], field)
          {
            if j < n {
              assert header[j] == init[j];
            }
          }
        }
      }
    }
  }

  lemma {:induction false} HeaderColumnsFound(header: seq<string>)
    ensures forall i, field :: 0 <= i < |header| && NamesField(header[i], field) ==> field in HeaderColumns(header)
    decreases |header|
  {
    if header != [] {
      var init := header[..|header| - 1];
      HeaderColumnsFound(init);
      assert forall j :: 0 <= j < |init| ==> header[j] == init[j];
    }
  }

  /** `get(field)`: the cell of a named column, a KeyError for a mandatory field the header
      did not name, `None` for a missing optional one. */
  function Get(columns: Columns, row: Row, field: string): (r: Result<Option<string>>)
    ensures r.Ok? && r.value.Some? <==> field in columns && columns[field] < |row|
    ensures r.Ok? && r.value.Some? ==> r.value.value == row[columns[field]]
    ensures r == Ok(None) <==> field !in columns && field !in MandatoryColumns
    ensures r.Err? && field !in columns ==> r.error == KeyError("Mandatory field '" + field + "' not found")
    ensures r.Err? && field in columns ==> r.error == IndexError
  {
    if field in columns then
      if columns[field] < |row| then Ok(Some(row[columns[field]])) else Err(IndexError)
    else if field in MandatoryColumns then Err(KeyError("Mandatory field '" + field + "' not found"))
    else Ok(None)
  }

  /** After reading a header, a field reads the cell under the last header cell naming it. */
  lemma GetAfterHeader(header: seq<string>, row: Row, i: nat, field: string)
    requires i < |header| && i < |row| && NamesField(header[i], field)
    requires forall j :: i < j < |header| ==> !NamesField(header[j], field)
    ensures Get(HeaderColumns(header), row, field) == Ok(Some(row[i]))
  {
    HeaderColumnsSpec(header);
    var k := HeaderColumns(header)[field];
    assert !(k > i) && !(k < i);
  }

  /** The `towpilot_*` fields are never named by a header, so they always read as `None`. */
  lemma TowpilotNeverNamed(columns: Columns, row: Row)
    requires KnownColumns(columns)
    ensures Get(columns, row, "towpilot_first_name") == Ok(None)
    ensures Get(columns, row, "towpilot_last_name") == Ok(None)
  {
    assert forall name | name in ColumnMap :: |ColumnMap[name]| != 19 && (|ColumnMap[name]| != 18 || ColumnMap[name][0] != 't');
  }

  /** The lookup of `getFlightType`/`getMode`/`getTowflightMode` on a cell that is there:
      the lowercased text is looked up, an empty one gives `None`; a missing cell fails at
      `.lower()`. */
  function Lookup(vocabulary: map<string, string>, cell: Option<string>): (r: Result<Option<string>>)
    ensures cell.None? ==> r == Err(AttributeError("lower"))
    ensures cell.Some? ==> (r == Ok(None) <==> cell.value == [])
    ensures cell.Some? && r.Ok? && r.value.Some? ==>
      Lower(cell.value) in vocabulary && r.value.value == vocabulary[Lower(cell.value)]
    ensures cell.Some? ==> (r.Err? <==> cell.value != [] && Lower(cell.value) !in vocabulary)
    ensures r.Err? && cell.Some? ==> r.error == KeyError(Lower(cell.value))
  {
    match cell
    case None => Err(AttributeError("lower"))
    case Some(s) =>
      var key := Lower(s);
      if |key| == 0 then Ok(None)
      else if key in vocabulary then Ok(Some(vocabulary[key]))
      else Err(KeyError(key))
  }

  /** Vocabulary lookups ignore case. */
  lemma LookupIgnoresCase(vocabulary: map<string, string>, s: string)
    ensures Lookup(vocabulary, Some(s)) == Lookup(vocabulary, Some(Lower(s)))
  {
    assert Lower(Lower(s)) == Lower(s);
  }

  function GetFlightType(columns: Columns, row: Row): Result<Option<string>> {
    var cell :- Get(columns, row, "flight_type");
    Lookup(FlightTypeMap, cell)
  }

  function GetMode(columns: Columns, row: Row): Result<Option<string>> {
    var cell :- Get(columns, row, "flight_mode");
    Lookup(FlightModeMap, cell)
  }

  /** `getTowflightMode` as written: `.lower()` is applied before the emptiness test. */
  function GetTowflightModeAsWritten(columns: Columns, row: Row): Result<Option<string>> {
    var cell :- Get(columns, row, "towflight_mode");
    Lookup(FlightModeMap, cell)
  }

  /** `getTowflightMode` as intended: a missing optional column gives no mode. */
  function GetTowflightMode(columns: Columns, row: Row): Result<Option<string>> {
    var cell :- Get(columns, row, "towflight_mode");
    if cell.None? then Ok(None) else Lookup(FlightModeMap, cell)
  }

  /** Without a "modus schleppflugzeug" column the source's tow-flight mode fails on every
      row, while the intended one reports no mode; with the column the two agree. */
  lemma TowflightModeColumnMissing(columns: Columns, row: Row)
    ensures "towflight_mode" !in columns ==>
      GetTowflightModeAsWritten(columns, row) == Err(AttributeError("lower"))
      && GetTowflightMode(columns, row) == Ok(None)
    ensures "towflight_mode" in columns ==> GetTowflightModeAsWritten(columns, row) == GetTowflightMode(columns, row)
  {
  }

  /** The plane, towplane and launch-method stubs: only a non-empty identifying cell gives
      an object, holding that cell and nothing else. */
  function AirplaneStub(registration: Option<string>): (r: Option<Airplanes.Airplane>)
    ensures r.Some? <==> Truthy(registration)
    ensures r.Some? ==> r.value.registration == registration && r.value.(registration := None) == Airplanes.NewAirplane()
  {
    if Truthy(registration) then Some(Airplanes.NewAirplane().(registration := registration)) else None
  }

  function LaunchMethodStub(name: Option<string>): (r: Option<LaunchMethods.LaunchMethod>)
    ensures r.Some? <==> Truthy(name)
    ensures r.Some? ==> r.value.name == name && r.value.(name := None) == LaunchMethods.NewLaunchMethod()
  {
    if Truthy(name) then Some(LaunchMethods.NewLaunchMethod().(name := name)) else None
  }

  /** The pilot stubs: either name being non-empty gives a pilot with both cells. */
  function PilotStub(firstName: Option<string>, lastName: Option<string>): (r: Option<Pilots.Pilot>)
    ensures r.Some? <==> Truthy(firstName) || Truthy(lastName)
    ensures r.Some? ==> (r.value.firstName == firstName && r.value.lastName == lastName
      && r.value.(firstName := None, lastName := None) == Pilots.NewPilot())
  {
    if Truthy(firstName) || Truthy(lastName) then Some(Pilots.NewPilot().(firstName := firstName, lastName := lastName))
    else None
  }

  function GetPlane(columns: Columns, row: Row): Result<Option<Airplanes.Airplane>> {
    var registration :- Get(columns, row, "plane_registration");
    Ok(AirplaneStub(registration))
  }

  function GetTowplane(columns: Columns, row: Row): Result<Option<Airplanes.Airplane>> {
    var registration :- Get(columns, row, "towplane_registration");
    Ok(AirplaneStub(registration))
  }

  function GetPilot(columns: Columns, row: Row): Result<Option<Pilots.Pilot>> {
    var firstName :- Get(columns, row, "pilot_first_name");
    var lastName :- Get(columns, row, "pilot_last_name");
    Ok(PilotStub(firstName, lastName))
  }

  function GetCopilot(columns: Columns, row: Row): Result<Option<Pilots.Pilot>> {
    var firstName :- Get(columns, row, "copilot_first_name");
    var lastName :- Get(columns, row, "copilot_last_name");
    Ok(PilotStub(firstName, lastName))
  }

  function GetTowpilot(columns: Columns, row: Row): Result<Option<Pilots.Pilot>> {
    var firstName :- Get(columns, row, "towpilot_first_name");
    var lastName :- Get(columns, row, "towpilot_last_name");
    Ok(PilotStub(firstName, lastName))
  }

  /** No row ever has a towpilot. */
  lemma NoTowpilot(columns: Columns, row: Row)
    requires KnownColumns(columns)
    ensures GetTowpilot(columns, row) == Ok(None)
  {
    TowpilotNeverNamed(columns, row);
  }

  function GetLaunchMethod(columns: Columns, row: Row): Result<Option<LaunchMethods.LaunchMethod>> {
    var name :- Get(columns, row, "launch_method");
    Ok(LaunchMethodStub(name))
  }

  /** `_getTime(date, time)`: no time when either text is missing or empty; otherwise the
      caller's `strptime` on "dateTtime", whose failure is a ValueError. */
  function GetTime(date: Option<string>, time: Option<string>, strptime: string -> Option<int>): (r: Result<Option<int>>)
    ensures r == Ok(None) <==> !Truthy(date) || !Truthy(time)
    ensures r.Ok? && r.value.Some? ==> strptime(date.value + "T" + time.value) == r.value
    ensures r.Err? <==> Truthy(date) && Truthy(time) && strptime(date.value + "T" + time.value).None?
  {
    if date.None? || time.None? || |date.value| == 0 || |time.value| == 0 then Ok(None)
    else match strptime(date.value + "T" + time.value)
      case None => Err(ValueError)
      case Some(t) => Ok(Some(t))
  }

  function GetTimeOf(columns: Columns, row: Row, field: string, strptime: string -> Option<int>): Result<Option<int>> {
    var date :- Get(columns, row, "date");
    var time :- Get(columns, row, field);
    GetTime(date, time, strptime)
  }

  /** The `dbid` cell as the id MySQL stores for it: its decimal value, 0 for any other text.
      The source keeps the text itself in the flight. */
  function ParseId(cell: Option<string>): (r: Option<int>)
    ensures r.None? <==> cell.None?
    ensures cell.Some? && IsDigits(cell.value) ==> r == Some(DigitsValue(cell.value))
    ensures cell.Some? && !IsDigits(cell.value) ==> r == Some(0)
  {
    match cell
    case None => None
    case Some(s) => if IsDigits(s) then Some(DigitsValue(s)) else Some(0)
  }

  /** `getFlight()`: the keyword arguments are evaluated in order, so the first failing
      field is the one reported. */
  function GetFlight(columns: Columns, row: Row, strptime: string -> Option<int>): Result<Flight> {
    var id :- Get(columns, row, "flight_id");
    var flightType :- GetFlightType(columns, row);
    var mode :- GetMode(columns, row);
    var departureLocation :- Get(columns, row, "departure_location");
    var landingLocation :- Get(columns, row, "landing_location");
    var numLandings :- Get(columns, row, "num_landings");
    var departureTime :- GetTimeOf(columns, row, "departure_time", strptime);
    var landingTime :- GetTimeOf(columns, row, "landing_time", strptime);
    var towflightMode :- GetTowflightMode(columns, row);
    var towflightLandingLocation :- Get(columns, row, "towflight_landing_location");
    var towflightLandingTime :- GetTimeOf(columns, row, "towflight_landing_time", strptime);
    var comments :- Get(columns, row, "comments");
    var accountingNotes :- Get(columns, row, "accounting_notes");
    Ok(NewFlight().(id := ParseId(id), flightType := flightType, mode := mode,
                    departureLocation := departureLocation, landingLocation := landingLocation,
                    numLandings := numLandings, departureTime := departureTime, landingTime := landingTime,
                    towflightMode := towflightMode, towflightLandingLocation := towflightLandingLocation,
                    towflightLandingTime := towflightLandingTime, comments := comments,
                    accountingNotes := accountingNotes))
  }

  /** `importRecord(row)`. */
  function ImportRecord(columns: Columns, row: Row, strptime: string -> Option<int>): Result<Record> {
    var flight :- GetFlight(columns, row, strptime);
    var plane :- GetPlane(columns, row);
    var pilot :- GetPilot(columns, row);
    var copilot :- GetCopilot(columns, row);
    var towplane :- GetTowplane(columns, row);
    var towpilot :- GetTowpilot(columns, row);
    var launchMethod :- GetLaunchMethod(columns, row);
    Ok(MakeRecord(Some(flight), plane, pilot, copilot, towplane, towpilot, launchMethod))
  }

  /** The fields of the flight part that must have a column. */
  lemma GetFlightNeedsColumns(columns: Columns, row: Row, strptime: string -> Option<int>)
    requires GetFlight(columns, row, strptime).Ok?
    ensures "date" in columns && "departure_time" in columns && "landing_time" in columns
    ensures "flight_type" in columns && "flight_mode" in columns && "num_landings" in columns
    ensures "departure_location" in columns && "landing_location" in columns
    ensures "comments" in columns && "accounting_notes" in columns
  {
  }

  /** The imported type and modes are canonical values of the vocabularies. */
  lemma GetFlightCanonical(columns: Columns, row: Row, strptime: string -> Option<int>)
    requires GetFlight(columns, row, strptime).Ok?
    ensures var f := GetFlight(columns, row, strptime).value;
      && (f.flightType.Some? ==> f.flightType.value in FlightTypeMap.Values)
      && (f.mode.Some? ==> f.mode.value in FlightModeMap.Values)
      && (f.towflightMode.Some? ==> f.towflightMode.value in FlightModeMap.Values)
  {
  }

  /** Every part of an imported row was read without an exception. */
  lemma ImportRecordParts(columns: Columns, row: Row, strptime: string -> Option<int>)
    requires ImportRecord(columns, row, strptime).Ok?
    ensures GetFlight(columns, row, strptime).Ok?
    ensures ImportRecord(columns, row, strptime).value.flight == GetFlight(columns, row, strptime).value
    ensures GetPlane(columns, row).Ok? && GetPilot(columns, row).Ok? && GetCopilot(columns, row).Ok?
    ensures GetLaunchMethod(columns, row).Ok?
  {
  }

  /** The mandatory fields, one by one. */
  lemma MandatoryPresent(columns: Columns)
    requires "date" in columns && "plane_registration" in columns && "pilot_first_name" in columns
    requires "copilot_first_name" in columns && "copilot_last_name" in columns
    requires "flight_type" in columns && "num_landings" in columns && "flight_mode" in columns
    requires "departure_time" in columns && "landing_time" in columns && "launch_method" in columns
    requires "departure_location" in columns && "landing_location" in columns
    requires "comments" in columns && "accounting_notes" in columns
    ensures MandatoryColumns <= columns.Keys
  {
  }

  /** A row imports only if the header named every mandatory field. */
  lemma ImportNeedsMandatory(columns: Columns, row: Row, strptime: string -> Option<int>)
    requires ImportRecord(columns, row, strptime).Ok?
    ensures MandatoryColumns <= columns.Keys
  {
    ImportRecordParts(columns, row, strptime);
    GetFlightNeedsColumns(columns, row, strptime);
    assert "plane_registration" in columns;
    assert "pilot_first_name" in columns;
    assert "copilot_first_name" in columns && "copilot_last_name" in columns;
    assert "launch_method" in columns;
    MandatoryPresent(columns);
  }

  /** The type and modes a row imports are canonical values of the vocabularies. */
  lemma ImportCanonical(columns: Columns, row: Row, strptime: string -> Option<int>)
    requires ImportRecord(columns, row, strptime).Ok?
    ensures var f := ImportRecord(columns, row, strptime).value.flight;
      && (f.flightType.Some? ==> f.flightType.value in FlightTypeMap.Values)
      && (f.mode.Some? ==> f.mode.value in FlightModeMap.Values)
      && (f.towflightMode.Some? ==> f.towflightMode.value in FlightModeMap.Values)
  {
    ImportRecordParts(columns, row, strptime);
    GetFlightCanonical(columns, row, strptime);
  }

  /** The records of the non-empty rows that import, in row order. */
  function Imported(columns: Columns, rows: seq<Row>, strptime: string -> Option<int>): seq<Record>
    decreases |rows|
  {
    if rows == [] then []
    else
      var init := Imported(columns, rows[..|rows| - 1], strptime);
      var row := rows[|rows| - 1];
      if |row| > 0 && ImportRecord(columns, row, strptime).Ok? then init + [ImportRecord(columns, row, strptime).value]
      else init
  }

  /** The number of non-empty rows that fail to import. */
  function Failures(columns: Columns, rows: seq<Row>, strptime: string -> Option<int>): nat
    decreases |rows|
  {
    if rows == [] then 0
    else
      var row := rows[|rows| - 1];
      Failures(columns, rows[..|rows| - 1], strptime) + if |row| > 0 && ImportRecord(columns, row, strptime).Err? then 1 else 0
  }

  function NonEmpty(rows: seq<Row>): nat
    decreases |rows|
  {
    if rows == [] then 0 else NonEmpty(rows[..|rows| - 1]) + if |rows[|rows| - 1]| > 0 then 1 else 0
  }

  /** Every non-empty row either yields a record or counts as one error; rows are handled
      independently, so a failing row does not affect the rows after it. */
  lemma {:induction false} ImportedSplit(columns: Columns, a: seq<Row>, b: seq<Row>, strptime: string -> Option<int>)
    ensures Imported(columns, a + b, strptime) == Imported(columns, a, strptime) + Imported(columns, b, strptime)
    ensures Failures(columns, a + b, strptime) == Failures(columns, a, strptime) + Failures(columns, b, strptime)
    decreases |b|
  {
    if b == [] {
      assert a + b == a;
    } else {
      var b0 := b[..|b| - 1];
      ImportedSplit(columns, a, b0, strptime);
      assert (a + b)[..|a + b| - 1] == a + b0;
      assert (a + b)[|a + b| - 1] == b[|b| - 1];
    }
  }

  lemma {:induction false} ImportedCount(columns: Columns, rows: seq<Row>, strptime: string -> Option<int>)
    ensures |Imported(columns, rows, strptime)| + Failures(columns, rows, strptime) == NonEmpty(rows)
    decreases |rows|
  {
    if rows != [] {
      ImportedCount(columns, rows[..|rows| - 1], strptime);
    }
  }

  /** `_isTowflight`: a flight without a type fails at `.lower()`. */
  function IsTowflight(f: Flight): (r: Result<bool>)
    ensures r.Err? <==> f.flightType.None?
    ensures r.Ok? ==> (r.value <==> Lower(f.flightType.value) == "towflight")
  {
    match f.flightType
    case None => Err(AttributeError("lower"))
    case Some(t) => Ok(Lower(t) == "towflight")
  }

  predicate Tow(r: Record) {
    r.flight.flightType.Some? && Lower(r.flight.flightType.value) == "towflight"
  }

  function FindFrom(records: seq<Record>, id: int, k: nat): (r: Option<nat>)
    decreases |records| - k
  {
    if k >= |records| then None
    else if records[k].flight.id == Some(id) then Some(k)
    else FindFrom(records, id, k + 1)
  }

  /** `_findRecordById`, as the position of the first record with the flight id. */
  function FindRecordById(records: seq<Record>, id: Option<int>): (r: Option<nat>)
    ensures id.None? ==> r.None?
    ensures r.Some? ==> (r.value < |records| && records[r.value].flight.id == id
      && forall j :: 0 <= j < r.value ==> records[j].flight.id != id)
    ensures r.None? && id.Some? ==> forall j :: 0 <= j < |records| ==> records[j].flight.id != id
  {
    if id.None? then None
    else
      FindFromSpec(records, id.value, 0);
      FindFrom(records, id.value, 0)
  }

  lemma {:induction false} FindFromSpec(records: seq<Record>, id: int, k: nat)
    requires forall j :: 0 <= j < k && j < |records| ==> records[j].flight.id != Some(id)
    ensures var r := FindFrom(records, id, k);
      && (r.Some? ==> (r.value < |records| && records[r.value].flight.id == Some(id)
            && forall j :: 0 <= j < r.value ==> records[j].flight.id != Some(id)))
      && (r.None? ==> forall j :: 0 <= j < |records| ==> records[j].flight.id != Some(id))
    decreases |records| - k
  {
    if k < |records| && records[k].flight.id != Some(id) {
      FindFromSpec(records, id, k + 1);
    }
  }

  /** What a merge writes: the tow flight's mode onto the glider's flight, its landing
      place and time onto the glider's record, and its plane and pilot as the towplane and
      towpilot. */
  function MergeInto(dest: Record, src: Record): Record {
    dest.(flight := dest.flight.(towflightMode := src.flight.mode),
          towflightLandingLocation := src.flight.landingLocation,
          towflightLandingTime := src.flight.landingTime,
          towplane := src.plane, towpilot := src.pilot)
  }

  function Remove(records: seq<Record>, i: nat): seq<Record>
    requires i < |records|
  {
    records[..i] + records[i + 1..]
  }

  /** The merge loop from position `i` on, one step per visited record. */
  function MergeFrom(records: seq<Record>, i: nat): Result<seq<Record>>
    decreases |records| - i
  {
    if i >= |records| then Ok(records)
    else
      var src := records[i];
      match IsTowflight(src.flight)
      case Err(e) => Err(e)
      case Ok(tow) =>
        if !tow then MergeFrom(records, i + 1)
        else match FindRecordById(records, src.flight.id)
          case None => MergeFrom(records, i + 1)
          case Some(j) =>
            if src.flight.departureTime != records[j].flight.departureTime
               || src.flight.departureLocation != records[j].flight.departureLocation
            then MergeFrom(records, i + 1)
            else MergeFrom(Remove(records[j := MergeInto(records[j], src)], i), i)
  }

  function Merged(records: seq<Record>): Result<seq<Record>> {
    MergeFrom(records, 0)
  }

  /** `_mergeTowflights(records)`: the source's while loop, which pops a merged tow flight
      and visits the record that moves into its place. */
  method MergeTowflights(records: seq<Record>) returns (r: Result<seq<Record>>)
    ensures r == Merged(records)
  {
    var recs := records;
    var nRec := |recs|;
    var i := 0;
    while i != nRec
      invariant nRec == |recs| && 0 <= i <= nRec
      invariant MergeFrom(recs, i) == Merged(records)
      decreases nRec - i
    {
      var src := recs[i];
      i := i + 1;
      var tow := IsTowflight(src.flight);
      if tow.Err? {
        return Err(tow.error);
      }
      if tow.value {
        var dest := FindRecordById(recs, src.flight.id);
        if dest.Some? {
          var j := dest.value;
          if src.flight.departureTime == recs[j].flight.departureTime
             && src.flight.departureLocation == recs[j].flight.departureLocation {
            recs := recs[j := MergeInto(recs[j], src)];
            i := i - 1;
            nRec := nRec - 1;
            recs := recs[..i] + recs[i + 1..];
          }
        }
      }
    }
    return Ok(recs);
  }

  /** A record as a merge leaves it apart from the fields a merge writes. */
  function Base(r: Record): Record {
    r.(flight := r.flight.(towflightMode := None), towflightLandingLocation := None,
       towflightLandingTime := None, towplane := Airplanes.NewAirplane(), towpilot := Pilots.NewPilot())
  }

  /** The `base` of each element `drop` rejects, in order. */
  function Kept<T>(s: seq<T>, drop: T -> bool, base: T -> T): seq<T>
    decreases |s|
  {
    if s == [] then [] else (if drop(s[0]) then [] else [base(s[0])]) + Kept(s[1..], drop, base)
  }

  /** The number of elements `drop` rejects. */
  function Dropped<T>(s: seq<T>, drop: T -> bool): nat
    decreases |s|
  {
    if s == [] then 0 else (if drop(s[0]) then 1 else 0) + Dropped(s[1..], drop)
  }

  lemma {:induction false} KeptAppend<T>(a: seq<T>, b: seq<T>, drop: T -> bool, base: T -> T)
    ensures Kept(a + b, drop, base) == Kept(a, drop, base) + Kept(b, drop, base)
    ensures Dropped(a + b, drop) == Dropped(a, drop) + Dropped(b, drop)
    ensures |Kept(a, drop, base)| + Dropped(a, drop) == |a|
    decreases |a|
  {
    if a == [] {
      assert a + b == b;
    } else {
      KeptAppend(a[1..], b, drop, base);
      var x := if drop(a[0]) then [] else [base(a[0])];
      assert (a + b)[0] == a[0] && (a + b)[1..] == a[1..] + b;
      assert Kept(a + b, drop, base) == x + (Kept(a[1..], drop, base) + Kept(b, drop, base));
      assert x + (Kept(a[1..], drop, base) + Kept(b, drop, base)) ==
        (x + Kept(a[1..], drop, base)) + Kept(b, drop, base);
    }
  }

  lemma KeptOne<T>(t: T, drop: T -> bool, base: T -> T)
    ensures Kept([t], drop, base) == (if drop(t) then [] else [base(t)])
    ensures Dropped([t], drop) == if drop(t) then 1 else 0
  {
    assert [t][1..] == [];
  }

  /** Rewriting one element with one of the same kind and base changes nothing kept. */
  lemma KeptUpdate<T>(a: seq<T>, y: T, b: seq<T>, x: T, drop: T -> bool, base: T -> T)
    requires drop(x) == drop(y) && base(x) == base(y)
    ensures Kept(a + [x] + b, drop, base) == Kept(a + [y] + b, drop, base)
    ensures Dropped(a + [x] + b, drop) == Dropped(a + [y] + b, drop)
  {
    assert a + [x] + b == a + ([x] + b) && a + [y] + b == a + ([y] + b);
    KeptOne(x, drop, base);
    KeptOne(y, drop, base);
    KeptAppend(a, [x] + b, drop, base);
    KeptAppend([x], b, drop, base);
    KeptAppend(a, [y] + b, drop, base);
    KeptAppend([y], b, drop, base);
  }

  /** Removing a dropped element changes nothing kept. */
  lemma KeptRemove<T>(a: seq<T>, t: T, b: seq<T>, drop: T -> bool, base: T -> T)
    requires drop(t)
    ensures Kept(a + b, drop, base) == Kept(a + [t] + b, drop, base)
    ensures Dropped(a + b, drop) + 1 == Dropped(a + [t] + b, drop)
  {
    assert a + [t] + b == a + ([t] + b);
    KeptOne(t, drop, base);
    KeptAppend(a, [t] + b, drop, base);
    KeptAppend([t], b, drop, base);
    KeptAppend(a, b, drop, base);
  }

  /** The non-tow-flight records, in order, apart from the fields a merge writes. */
  function Gliders(records: seq<Record>): seq<Record> {
    Kept(records, Tow, Base)
  }

  function CountTow(records: seq<Record>): nat {
    Dropped(records, Tow)
  }

  lemma GlidersAppend(a: seq<Record>, b: seq<Record>)
    ensures Gliders(a + b) == Gliders(a) + Gliders(b)
    ensures CountTow(a + b) == CountTow(a) + CountTow(b)
    ensures |Gliders(a)| + CountTow(a) == |a|
  {
    KeptAppend(a, b, Tow, Base);
  }

  /** One merge step keeps the glider records: the destination changes only in merged
      fields and the removed source is a tow flight. */
  lemma MergeStepKeeps(records: seq<Record>, i: nat, j: nat)
    requires i < |records| && j < |records| && Tow(records[i])
    ensures var next := Remove(records[j := MergeInto(records[j], records[i])], i);
      Gliders(next) == Gliders(records) && CountTow(next) + 1 == CountTow(records)
  {
    var x := MergeInto(records[j], records[i]);
    var u := records[j := x];
    assert Base(x) == Base(records[j]) && Tow(x) == Tow(records[j]);
    assert records == records[..j] + [records[j]] + records[j + 1..];
    assert u == records[..j] + [x] + records[j + 1..];
    KeptUpdate(records[..j], records[j], records[j + 1..], x, Tow, Base);
    assert Tow(u[i]);
    assert u == u[..i] + [u[i]] + u[i + 1..];
    KeptRemove(u[..i], u[i], u[i + 1..], Tow, Base);
  }

  /** Every record from position `i` on has a flight type. */
  predicate TypedFrom(records: seq<Record>, i: nat) {
    forall k :: i <= k < |records| ==> records[k].flight.flightType.Some?
  }

  lemma MergeStepTyped(records: seq<Record>, i: nat, j: nat)
    requires i < |records| && j < |records| && records[i].flight.flightType.Some?
    ensures TypedFrom(Remove(records[j := MergeInto(records[j], records[i])], i), i) <==> TypedFrom(records, i)
  {
    var next := Remove(records[j := MergeInto(records[j], records[i])], i);
    assert forall k :: i <= k < |next| ==> next[k].flight.flightType == records[k + 1].flight.flightType;
    if TypedFrom(next, i) {
      forall k | i <= k < |records|
        ensures records[k].flight.flightType.Some?
      {
        if k > i {
          assert next[k - 1].flight.flightType == records[k].flight.flightType;
        }
      }
    }
  }

  /** The merge loop keeps every glider record in order, never grows the list, and fails
      exactly when some record still to be visited has no flight type. */
  lemma {:induction false} MergeFromKeeps(records: seq<Record>, i: nat)
    ensures MergeFrom(records, i).Err? <==> !TypedFrom(records, i)
    ensures MergeFrom(records, i).Ok? ==>
      Gliders(MergeFrom(records, i).value) == Gliders(records) && |MergeFrom(records, i).value| <= |records|
    decreases |records| - i
  {
    if i < |records| {
      var src := records[i];
      if IsTowflight(src.flight).Ok? {
        if !IsTowflight(src.flight).value {
          MergeFromKeeps(records, i + 1);
        } else {
          match FindRecordById(records, src.flight.id)
          case None => MergeFromKeeps(records, i + 1);
          case Some(j) =>
            if src.flight.departureTime != records[j].flight.departureTime
               || src.flight.departureLocation != records[j].flight.departureLocation {
              MergeFromKeeps(records, i + 1);
            } else {
              var next := Remove(records[j := MergeInto(records[j], src)], i);
              MergeStepKeeps(records, i, j);
              MergeStepTyped(records, i, j);
              MergeFromKeeps(next, i);
            }
        }
      } else {
        assert !TypedFrom(records, i);
      }
    }
  }

  /** `_mergeTowflights` raises, ending the whole import, exactly when some record has no
      flight type. */
  lemma MergedFails(records: seq<Record>)
    ensures Merged(records).Err? <==> exists k :: 0 <= k < |records| && records[k].flight.flightType.None?
  {
    MergeFromKeeps(records, 0);
  }

  /** `_mergeTowflights` keeps the non-tow-flight records in their relative order (apart
      from the merged fields), removes only tow flights, and so the merged count the caller
      reports is the number of tow flights that went away. */
  lemma MergedKeepsGliders(records: seq<Record>)
    requires Merged(records).Ok?
    ensures Gliders(Merged(records).value) == Gliders(records)
    ensures |Merged(records).value| <= |records|
    ensures |records| - |Merged(records).value| == CountTow(records) - CountTow(Merged(records).value)
  {
    MergeFromKeeps(records, 0);
    GlidersAppend(records, []);
    GlidersAppend(Merged(records).value, []);
  }

  /** A reader. `columns` holds the column index of every field a header named: these
      are the attributes `analyseHeader` sets on the reader, the ones `_initColumns` leaves
      `None` are absent. `nErrors` counts the rows of the last read that did not import. */
  class CsvReader {
    var columns: Columns
    var nErrors: nat

    /** Every column the reader knows is an internal field name. */
    predicate Valid()
      reads this
    {
      KnownColumns(columns)
    }

    /** `CsvReader()`: no column is set yet. */
    constructor ()
      ensures columns == map[] && nErrors == 0
      ensures Valid()
    {
      columns := map[];
      nErrors := 0;
    }

    /** `analyseHeader(header)`: the fields the header names are set, the last naming cell
        winning; fields it does not name keep what an earlier header set. */
    method AnalyseHeader(header: seq<string>)
      modifies this
      requires Valid()
      ensures columns == old(columns) + HeaderColumns(header)
      ensures nErrors == old(nErrors)
      ensures Valid()
    {
      var found: Columns := map[];
      for i := 0 to |header|
        invariant found == HeaderColumns(header[..i])
      {
        assert header[..i + 1][..i] == header[..i];
        var name := Lower(header[i]);
        if name in ColumnMap {
          found := found[ColumnMap[name] := i];
        }
      }
      assert header[..|header|] == header;
      HeaderColumnsSpec(header);
      columns := columns + found;
    }

    /** The loop of `__call__` over the data rows: empty rows are skipped, a row that raises
        is counted and dropped, the others are imported in order. */
    method ImportRows(rows: seq<Row>, strptime: string -> Option<int>) returns (records: seq<Record>)
      modifies this
      ensures columns == old(columns)
      ensures records == Imported(columns, rows, strptime)
      ensures nErrors == old(nErrors) + Failures(columns, rows, strptime)
    {
      records := [];
      for i := 0 to |rows|
        invariant columns == old(columns)
        invariant records == Imported(columns, rows[..i], strptime)
        invariant nErrors == old(nErrors) + Failures(columns, rows[..i], strptime)
      {
        assert rows[..i + 1][..i] == rows[..i];
        var row := rows[i];
        if |row| > 0 {
          var rec := ImportRecord(columns, row, strptime);
          if rec.Ok? {
            records := records + [rec.value];
          } else {
            nErrors := nErrors + 1;
          }
        }
      }
      assert rows[..|rows|] == rows;
    }

    /** `__call__(path, ...)` on the rows of the file: the first row is the header, an empty
        file raises at `reader.next()`, and with `mergeTowflights` the tow flights are merged,
        `merged` being the count the source logs. */
    method Read(file: seq<Row>, strptime: string -> Option<int>, mergeTowflights: bool)
      returns (res: Result<seq<Record>>, merged: nat)
      modifies this
      requires Valid()
      ensures file == [] ==> res == Err(StopIteration) && columns == old(columns) && nErrors == old(nErrors)
      ensures file != [] ==> columns == old(columns) + HeaderColumns(file[0])
      ensures file != [] ==> nErrors == Failures(columns, file[1..], strptime)
      ensures file != [] && !mergeTowflights ==> res == Ok(Imported(columns, file[1..], strptime)) && merged == 0
      ensures file != [] && mergeTowflights ==> res == Merged(Imported(columns, file[1..], strptime))
      ensures file != [] && mergeTowflights && res.Ok? ==>
        merged == |Imported(columns, file[1..], strptime)| - |res.value|
      ensures Valid()
    {
      merged := 0;
      if file == [] {
        return Err(StopIteration), 0;
      }
      AnalyseHeader(file[0]);
      nErrors := 0;
      var records := ImportRows(file[1..], strptime);
      if !mergeTowflights {
        return Ok(records), 0;
      }
      res := MergeTowflights(records);
      if res.Ok? {
        MergedKeepsGliders(records);
        merged := |records| - |res.value|;
      }
    }
  }
}
