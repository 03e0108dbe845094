/**
 * The storage operations of pysk/db/database.py that the import relies on. The SQL text and the
 * MySQL server are replaced by their effect: the `flights` table is a map from id to row, the
 * other tables are sequences of rows, and a query is a filter over them.
 */
module Database {
  import opened Wrappers
  import opened Strs
  import opened Flights
  import Pilots
  import Airplanes
  import LaunchMethods

  // ---------------------------------------------------------------------------------------------
  // How MySQL reads the values the queries quote.

  /** A quoted id: `'None'` converts to the number 0. */
  function IdValue(id: Option<int>): int {
    match id
    case Some(v) => v
    case None => 0
  }

  /** `column = '{id}'`: a NULL column matches nothing. */
  predicate ColumnIs(column: Option<int>, id: Option<int>) {
    column == Some(IdValue(id))
  }

  /** The default time format "%Y-%m-%d %H:%M" drops the seconds of a candidate's time. */
  function Minute(t: int): (r: int)
    ensures r <= t < r + 60 && r % 60 == 0
  {
    t - t % 60
  }

  // ---------------------------------------------------------------------------------------------
  // `iterSimultaneousFlights` and `iterSimilarFlights`.

  /**
   * `(landing_time >= '{dep}') AND (departure_time <= '{land}')`. Without a candidate departure
   * the quoted bound is '', the zero date, which every stored landing time passes; without a
   * candidate landing the bound '' is one no stored departure time passes.
   */
  predicate Overlaps(stored: Flight, c: Flight) {
    && stored.landingTime.Some?
    && (c.departureTime.None? || stored.landingTime.value >= Minute(c.departureTime.value))
    && stored.departureTime.Some?
    && c.landingTime.Some?
    && stored.departureTime.value <= Minute(c.landingTime.value)
  }

  /** The crew clause: pilot or copilot is the candidate's pilot, the plane is its plane, or, for a
    * candidate with a copilot, pilot or copilot is that copilot. */
  predicate SharesCrew(stored: Flight, c: Flight) {
    || ColumnIs(stored.pilotId, c.pilotId)
    || ColumnIs(stored.copilotId, c.pilotId)
    || ColumnIs(stored.planeId, c.planeId)
    || (TruthyId(c.copilotId) && (ColumnIs(stored.pilotId, c.copilotId) || ColumnIs(stored.copilotId, c.copilotId)))
  }

  /** The selection of `iterSimilarFlights` without its extra filter. */
  predicate Similar(stored: Flight, c: Flight) {
    stored.mode == Some("local") && Overlaps(stored, c) && SharesCrew(stored, c)
  }

  function OverlapsWith(c: Flight): Flight -> bool {
    s => Overlaps(s, c)
  }

  /** The selection of `iterSimilarFlights(c, filter)`; no filter is `extra` accepting every row. */
  function SimilarTo(c: Flight, extra: Flight -> bool): Flight -> bool {
    s => Similar(s, c) && extra(s)
  }

  // ---------------------------------------------------------------------------------------------
  // Queries over the `flights` table. Rows come back in ascending id order.

  predicate Increasing(ks: seq<int>) {
    forall i, j :: 0 <= i < j < |ks| ==> ks[i] < ks[j]
  }

  predicate IsMin(m: int, s: set<int>) {
    m in s && forall x :: x in s ==> m <= x
  }

  lemma HasElement(s: set<int>)
    requires s != {}
    ensures exists y :: y in s
  {
    if forall y :: y !in s { assert false; }
  }

  lemma {:induction false} MinExists(s: set<int>)
    requires s != {}
    ensures exists m :: IsMin(m, s)
    decreases |s|
  {
    HasElement(s);
    var y :| y in s;
    var t := s - {y};
    if t == {} {
      assert s == {y};
      assert IsMin(y, s);
    } else {
      MinExists(t);
      var m :| IsMin(m, t);
      if y < m {
        forall x | x in s ensures y <= x {
          if x != y { assert x in t; }
        }
        assert IsMin(y, s);
      } else {
        forall x | x in s ensures m <= x {
          if x != y { assert x in t; }
        }
        assert IsMin(m, s);
      }
    }
  }

  function Min(s: set<int>): (m: int)
    requires s != {}
    ensures IsMin(m, s)
  {
    MinExists(s);
    assert forall a, b :: IsMin(a, s) && IsMin(b, s) ==> a == b;
    var m :| IsMin(m, s);
    m
  }

  /** The ids of `s` in ascending order. */
  function SortedIds(s: set<int>): (r: seq<int>)
    ensures |r| == |s|
    ensures forall k :: k in r <==> k in s
    ensures Increasing(r)
    decreases |s|
  {
    if s == {} then []
    else
      var m := Min(s);
      var rest := SortedIds(s - {m});
      var r := [m] + rest;
      assert Increasing(r) by {
        forall i, j | 0 <= i < j < |r| ensures r[i] < r[j] {
          assert r[j] == rest[j - 1] && r[j] in s - {m};
          if i > 0 { assert r[i] == rest[i - 1]; }
        }
      }
      r
  }

  /** The ids of `ks`, in their order, whose rows satisfy `p`. */
  function Matching(m: map<int, Flight>, ks: seq<int>, p: Flight -> bool): (r: seq<int>)
    requires forall i :: 0 <= i < |ks| ==> ks[i] in m
    ensures forall k :: k in r <==> k in ks && p(m[k])
    ensures Increasing(ks) ==> Increasing(r)
  {
    if ks == [] then []
    else
      var rest := Matching(m, ks[1..], p);
      assert forall k :: k in rest ==> k in ks[1..];
      if p(m[ks[0]]) then
        var r := [ks[0]] + rest;
        assert Increasing(ks) ==> Increasing(r) by {
          if Increasing(ks) {
            forall i, j | 0 <= i < j < |r| ensures r[i] < r[j] {
              assert r[j] == rest[j - 1] && r[j] in ks[1..];
              if i > 0 { assert r[i] == rest[i - 1]; }
            }
          }
        }
        r
      else rest
  }

  /** The ids of the rows a query with the selection `p` returns. */
  function QueryIds(m: map<int, Flight>, p: Flight -> bool): (r: seq<int>)
    ensures forall k :: k in r <==> k in m && p(m[k])
    ensures Increasing(r)
  {
    Matching(m, SortedIds(m.Keys), p)
  }

  /** The rows stored under `ids`, in that order. */
  function RowsOf(m: map<int, Flight>, ids: seq<int>): (r: seq<Flight>)
    requires forall i :: 0 <= i < |ids| ==> ids[i] in m
    ensures |r| == |ids|
    ensures forall i :: 0 <= i < |ids| ==> r[i] == m[ids[i]]
  {
    if ids == [] then []
    else
      var rest := RowsOf(m, ids[1..]);
      var r := [m[ids[0]]] + rest;
      assert forall i :: 0 < i < |ids| ==> r[i] == rest[i - 1] && ids[i] == ids[1..][i - 1];
      r
  }

  /** The rows a query with the selection `p` returns. */
  function Query(m: map<int, Flight>, p: Flight -> bool): seq<Flight> {
    RowsOf(m, QueryIds(m, p))
  }

  /** Every similar flight is a simultaneous one, whatever the extra filter. */
  lemma SimilarIsSimultaneous(m: map<int, Flight>, c: Flight, extra: Flight -> bool)
    ensures forall k :: k in QueryIds(m, SimilarTo(c, extra)) ==> k in QueryIds(m, OverlapsWith(c))
  {
  }

  /** A selection no row of `ks` passes selects nothing. */
  lemma {:induction false} MatchingNone(m: map<int, Flight>, ks: seq<int>, p: Flight -> bool)
    requires forall i :: 0 <= i < |ks| ==> ks[i] in m && !p(m[ks[i]])
    ensures Matching(m, ks, p) == []
  {
    if ks != [] {
      MatchingNone(m, ks[1..], p);
    }
  }

  /** Without a landing time the candidate overlaps nothing: both queries come back empty. */
  lemma {:induction false} NoLandingNoOverlap(m: map<int, Flight>, c: Flight, extra: Flight -> bool)
    requires c.landingTime.None?
    ensures QueryIds(m, OverlapsWith(c)) == []
    ensures QueryIds(m, SimilarTo(c, extra)) == []
  {
    var ks := SortedIds(m.Keys);
    MatchingNone(m, ks, OverlapsWith(c));
    MatchingNone(m, ks, SimilarTo(c, extra));
  }

  /**
   * A stored local flight with a pilot and both times on whole minutes, landing no earlier than it
   * departs, is similar to itself.
   */
  lemma SimilarToItself(f: Flight)
    requires f.mode == Some("local") && f.pilotId.Some?
    requires f.departureTime.Some? && f.landingTime.Some?
    requires f.departureTime.value % 60 == 0 && f.landingTime.value % 60 == 0
    requires f.departureTime.value <= f.landingTime.value
    ensures Similar(f, f)
  {
  }

  // ---------------------------------------------------------------------------------------------
  // The `flights` table and `insert` / `deleteById`.

  /** The rows by id, and the next value AUTO_INCREMENT hands out. */
  datatype FlightTable = FlightTable(rows: map<int, Flight>, nextId: int)

  /** Each row is stored under its own id, 0 is never an id, and every id is below `nextId`. */
  predicate ValidTable(t: FlightTable) {
    1 <= t.nextId && forall k :: k in t.rows ==> k != 0 && k < t.nextId && t.rows[k].id == Some(k)
  }

  /** An id of NULL or 0 asks AUTO_INCREMENT for a fresh one. */
  predicate AutoId(f: Flight) {
    f.id.None? || f.id == Some(0)
  }

  /** The key under which `f` lands. */
  function RowKey(t: FlightTable, f: Flight): int {
    if AutoId(f) then t.nextId else f.id.value
  }

  /** One executed `REPLACE INTO` (force) or `INSERT IGNORE INTO` row. */
  function InsertRow(t: FlightTable, f: Flight, force: bool): FlightTable {
    var k := RowKey(t, f);
    if k in t.rows && !force then t
    else FlightTable(t.rows[k := f.(id := Some(k))], if k < t.nextId then t.nextId else k + 1)
  }

  /** `insert(Flight, rows, force)`: one statement per row, in order. */
  function InsertRows(t: FlightTable, rows: seq<Flight>, force: bool): FlightTable
    decreases |rows|
  {
    if rows == [] then t else InsertRows(InsertRow(t, rows[0], force), rows[1..], force)
  }

  /**
   * What one row does: REPLACE overwrites a row with the same key, INSERT IGNORE leaves an
   * existing row as it is, a fresh key is added, and no other row changes.
   */
  lemma InsertRowEffect(t: FlightTable, f: Flight, force: bool)
    requires ValidTable(t)
    ensures ValidTable(InsertRow(t, f, force))
    ensures AutoId(f) ==> RowKey(t, f) !in t.rows
    ensures t.rows.Keys <= InsertRow(t, f, force).rows.Keys
    ensures InsertRow(t, f, force).rows.Keys <= t.rows.Keys + {RowKey(t, f)}
    ensures forall j :: j in t.rows && j != RowKey(t, f) ==> InsertRow(t, f, force).rows[j] == t.rows[j]
    ensures force || RowKey(t, f) !in t.rows ==>
      InsertRow(t, f, force).rows[RowKey(t, f)] == f.(id := Some(RowKey(t, f)))
    ensures !force && RowKey(t, f) in t.rows ==> InsertRow(t, f, force) == t
  {
  }

  /** Inserting keeps the table well formed and never removes a row. */
  lemma {:induction false} InsertRowsValid(t: FlightTable, rows: seq<Flight>, force: bool)
    requires ValidTable(t)
    ensures ValidTable(InsertRows(t, rows, force))
    ensures t.rows.Keys <= InsertRows(t, rows, force).rows.Keys
    decreases |rows|
  {
    if rows != [] {
      InsertRowEffect(t, rows[0], force);
      InsertRowsValid(InsertRow(t, rows[0], force), rows[1..], force);
    }
  }

  /** The WHERE clause of `deleteById`: "id IN (%s,...,%s)". */
  function IdFilter(n: nat): string {
    "id IN (" + Placeholders(n) + ")"
  }

  /** The filter has one "%s" per id, at positions 7, 10, 13, ... */
  lemma IdFilterPlaceholders(n: nat)
    requires n > 0
    ensures |IdFilter(n)| == 3 * n + 7
    ensures forall k :: 0 <= k < n ==> IdFilter(n)[7 + 3 * k] == '%' && IdFilter(n)[8 + 3 * k] == 's'
  {
    PlaceholdersShape(n);
    forall k | 0 <= k < n ensures IdFilter(n)[7 + 3 * k] == '%' && IdFilter(n)[8 + 3 * k] == 's' {
      assert IdFilter(n)[7 + 3 * k] == Placeholders(n)[3 * k];
      assert IdFilter(n)[8 + 3 * k] == Placeholders(n)[3 * k + 1];
    }
  }

  /** The rows `DELETE FROM flights WHERE id IN (...)` leaves. */
  function Without(rows: map<int, Flight>, ids: seq<int>): (r: map<int, Flight>)
    ensures forall k :: k in r <==> k in rows && k !in ids
    ensures forall k :: k in r ==> r[k] == rows[k]
  {
    map k | k in rows && k !in ids :: rows[k]
  }

  /** The connection's view of the `flights` table. */
  class Store {
    var flights: map<int, Flight>
    var nextId: int

    function Contents(): FlightTable
      reads this
    {
      FlightTable(flights, nextId)
    }

    ghost predicate Valid()
      reads this
    {
      ValidTable(Contents())
    }

    constructor(t: FlightTable)
      requires ValidTable(t)
      ensures Valid() && Contents() == t
    {
      flights := t.rows;
      nextId := t.nextId;
    }

    /** `insertFlights(rows, force)`. */
    method Insert(rows: seq<Flight>, force: bool)
      requires Valid()
      modifies this
      ensures Valid()
      ensures Contents() == InsertRows(old(Contents()), rows, force)
    {
      InsertRowsValid(Contents(), rows, force);
      for i := 0 to |rows|
        invariant InsertRows(old(Contents()), rows, force) == InsertRows(Contents(), rows[i..], force)
        invariant ValidTable(Contents())
      {
        InsertRowEffect(Contents(), rows[i], force);
        assert rows[i..][1..] == rows[i + 1..];
        var t := InsertRow(Contents(), rows[i], force);
        flights := t.rows;
        nextId := t.nextId;
      }
    }

    /** `deleteFlights(ids)`: nothing for an empty list, else exactly the listed ids go. */
    method DeleteById(ids: seq<int>)
      requires Valid()
      modifies this
      ensures Valid()
      ensures flights == Without(old(flights), ids) && nextId == old(nextId)
      ensures ids == [] ==> flights == old(flights)
    {
      if ids == [] {
        assert Without(flights, ids) == flights;
        return;
      }
      flights := Without(flights, ids);
    }
  }

  // ---------------------------------------------------------------------------------------------
  // `unique`, `uniqueById` and the lookups built on them. A query result is the sequence of the
  // table's rows its selection accepts, in table order.

  /** The rows of `table` that `p` accepts, in order. */
  function Where<T(!new)>(table: seq<T>, p: T -> bool): (r: seq<T>)
    ensures |r| <= |table|
    ensures forall x :: x in r <==> x in table && p(x)
  {
    if table == [] then []
    else
      var rest := Where(table[1..], p);
      assert forall x :: x in table <==> x == table[0] || x in table[1..];
      if p(table[0]) then [table[0]] + rest else rest
  }

  /**
   * `unique(cls, filter)` over the rows the query returned: the row when there is exactly one,
   * KeyError otherwise. The rows are objects, so `not retval` means "no row yet".
   */
  method Unique<T>(results: seq<T>, filter: string) returns (r: Result<T>)
    ensures r.Ok? <==> |results| == 1
    ensures r.Ok? ==> r.value == results[0]
    ensures |results| == 0 ==> r == Err(KeyError("Found no result matching '" + filter + "'"))
    ensures |results| > 1 ==> r == Err(KeyError("Found more than one result matching '" + filter + "'"))
  {
    var retval: Option<T> := None;
    for i := 0 to |results|
      invariant i <= 1
      invariant retval == if i == 0 then None else Some(results[0])
    {
      if retval.None? {
        retval := Some(results[i]);
      } else {
        return Err(KeyError("Found more than one result matching '" + filter + "'"));
      }
    }
    if retval.None? {
      return Err(KeyError("Found no result matching '" + filter + "'"));
    }
    return Ok(retval.value);
  }

  function HasId<T>(idOf: T -> Option<int>, id: Option<int>): T -> bool {
    x => idOf(x) == id
  }

  /** `uniqueById(cls, id)`: None for a falsy id, without a query; else `unique` on "id={id}". */
  method UniqueById<T(!new)>(table: seq<T>, idOf: T -> Option<int>, id: Option<int>) returns (r: Result<Option<T>>)
    ensures !TruthyId(id) ==> r == Ok(None)
    ensures TruthyId(id) ==> (r.Ok? <==> |Where(table, HasId(idOf, id))| == 1)
    ensures r.Ok? && r.value.Some? ==> r.value.value in table && idOf(r.value.value) == id
    ensures TruthyId(id) && r.Err? ==> r.error.KeyError?
  {
    if !TruthyId(id) {
      return Ok(None);
    }
    var rows := Where(table, HasId(idOf, id));
    var u := Unique(rows, "id=" + IntToString(id.value));
    if u.Err? {
      return Err(u.error);
    }
    assert u.value in rows;
    return Ok(Some(u.value));
  }

  function PilotId(p: Pilots.Pilot): Option<int> { p.id }
  function PlaneId(a: Airplanes.Airplane): Option<int> { a.id }
  function LaunchMethodId(m: LaunchMethods.LaunchMethod): Option<int> { m.id }

  method PilotById(table: seq<Pilots.Pilot>, id: Option<int>) returns (r: Result<Option<Pilots.Pilot>>)
    ensures !TruthyId(id) ==> r == Ok(None)
    ensures TruthyId(id) ==> (r.Ok? <==> |Where(table, HasId(PilotId, id))| == 1)
    ensures r.Ok? && r.value.Some? ==> r.value.value in table && r.value.value.id == id
    ensures TruthyId(id) && r.Err? ==> r.error.KeyError?
  {
    r := UniqueById(table, PilotId, id);
  }

  method PlaneById(table: seq<Airplanes.Airplane>, id: Option<int>) returns (r: Result<Option<Airplanes.Airplane>>)
    ensures !TruthyId(id) ==> r == Ok(None)
    ensures TruthyId(id) ==> (r.Ok? <==> |Where(table, HasId(PlaneId, id))| == 1)
    ensures r.Ok? && r.value.Some? ==> r.value.value in table && r.value.value.id == id
    ensures TruthyId(id) && r.Err? ==> r.error.KeyError?
  {
    r := UniqueById(table, PlaneId, id);
  }

  method LaunchMethodById(table: seq<LaunchMethods.LaunchMethod>, id: Option<int>)
    returns (r: Result<Option<LaunchMethods.LaunchMethod>>)
    ensures !TruthyId(id) ==> r == Ok(None)
    ensures TruthyId(id) ==> (r.Ok? <==> |Where(table, HasId(LaunchMethodId, id))| == 1)
    ensures r.Ok? && r.value.Some? ==> r.value.value in table && r.value.value.id == id
    ensures TruthyId(id) && r.Err? ==> r.error.KeyError?
  {
    r := UniqueById(table, LaunchMethodId, id);
  }

  /** "first_name='{first}' AND last_name='{last}'"; a None name is quoted as 'None'. */
  function NamedPilot(first: Option<string>, last: Option<string>): Pilots.Pilot -> bool {
    (p: Pilots.Pilot) => p.firstName == Some(Show(first)) && p.lastName == Some(Show(last))
  }

  /** `getPilotByName(first, last)`: the single pilot with these names. */
  method PilotByName(table: seq<Pilots.Pilot>, first: Option<string>, last: Option<string>)
    returns (r: Result<Pilots.Pilot>)
    ensures r.Ok? <==> |Where(table, NamedPilot(first, last))| == 1
    ensures r.Ok? ==> r.value in table && r.value.firstName == Some(Show(first)) && r.value.lastName == Some(Show(last))
    ensures r.Ok? ==> r.value == Where(table, NamedPilot(first, last))[0]
    ensures r.Err? ==> r.error.KeyError?
  {
    var rows := Where(table, NamedPilot(first, last));
    r := Unique(rows, "first_name='" + Show(first) + "' AND last_name='" + Show(last) + "'");
    if r.Ok? { assert rows[0] in rows; }
  }

  function Registered(registration: Option<string>): Airplanes.Airplane -> bool {
    (a: Airplanes.Airplane) => a.registration == Some(Show(registration))
  }

  /** `getPlaneByRegistration(registration)`: the single plane with this registration. */
  method PlaneByRegistration(table: seq<Airplanes.Airplane>, registration: Option<string>)
    returns (r: Result<Airplanes.Airplane>)
    ensures r.Ok? <==> |Where(table, Registered(registration))| == 1
    ensures r.Ok? ==> r.value in table && r.value.registration == Some(Show(registration))
    ensures r.Ok? ==> r.value == Where(table, Registered(registration))[0]
    ensures r.Err? ==> r.error.KeyError?
  {
    var rows := Where(table, Registered(registration));
    r := Unique(rows, "registration='" + Show(registration) + "'");
    if r.Ok? { assert rows[0] in rows; }
  }

  /** "name='{name}'", with " OR (short_name='{name}')" when short names are allowed. */
  function NamedMethod(name: Option<string>, allowShortNames: bool): LaunchMethods.LaunchMethod -> bool {
    (m: LaunchMethods.LaunchMethod) => m.name == Some(Show(name)) || (allowShortNames && m.shortName == Some(Show(name)))
  }

  /** `getLaunchMethodByName(name, allowShortNames)`. */
  method LaunchMethodByName(table: seq<LaunchMethods.LaunchMethod>, name: Option<string>, allowShortNames: bool)
    returns (r: Result<LaunchMethods.LaunchMethod>)
    ensures r.Ok? <==> |Where(table, NamedMethod(name, allowShortNames))| == 1
    ensures r.Ok? ==> r.value in table
    ensures r.Ok? ==> r.value.name == Some(Show(name)) || (allowShortNames && r.value.shortName == Some(Show(name)))
    ensures r.Ok? ==> r.value == Where(table, NamedMethod(name, allowShortNames))[0]
    ensures r.Err? ==> r.error.KeyError?
  {
    var rows := Where(table, NamedMethod(name, allowShortNames));
    var selection := "name='" + Show(name) + "'";
    if allowShortNames {
      selection := selection + " OR (short_name='" + Show(name) + "')";
    }
    r := Unique(rows, selection);
    if r.Ok? { assert rows[0] in rows; }
  }

  function TowedBy(registration: string): LaunchMethods.LaunchMethod -> bool {
    (m: LaunchMethods.LaunchMethod) => m.kind == Some("airtow") && m.towplaneRegistration == Some(registration)
  }

  /** `getLaunchMethodByTowplane(registration)`; joining a None registration raises TypeError. */
  method LaunchMethodByTowplane(table: seq<LaunchMethods.LaunchMethod>, registration: Option<string>)
    returns (r: Result<LaunchMethods.LaunchMethod>)
    ensures registration.None? ==> r == Err(TypeError)
    ensures registration.Some? ==> (r.Ok? <==> |Where(table, TowedBy(registration.value))| == 1)
    ensures r.Ok? ==> r.value in table && r.value.kind == Some("airtow") && r.value.towplaneRegistration == registration
    ensures r.Ok? ==> r.value == Where(table, TowedBy(registration.value))[0]
    ensures registration.Some? && r.Err? ==> r.error.KeyError?
  {
    if registration.None? {
      return Err(TypeError);
    }
    var rows := Where(table, TowedBy(registration.value));
    r := Unique(rows, "(type='airtow') AND (towplane_registration = '" + registration.value + "')");
    if r.Ok? { assert rows[0] in rows; }
  }

  // ---------------------------------------------------------------------------------------------
  // `getDictionary(iterable, key)`. The attribute and the tuple-of-attributes forms of `key` are
  // both a function from row to key.

  /** Row `i` is the last of the first `n` rows with key `k`. */
  predicate LastWithKey<K(==), T>(rows: seq<T>, key: T -> K, k: K, i: int, n: int) {
    0 <= i < n <= |rows| && key(rows[i]) == k && forall j :: i < j < n ==> key(rows[j]) != k
  }

  /** One entry per distinct key, holding the last row with that key. */
  method GetDictionary<K(==), T>(rows: seq<T>, key: T -> K) returns (r: map<K, T>)
    ensures forall k :: k in r <==> exists i :: 0 <= i < |rows| && key(rows[i]) == k
    ensures forall k :: k in r ==> exists i :: LastWithKey(rows, key, k, i, |rows|) && r[k] == rows[i]
  {
    r := map[];
    for n := 0 to |rows|
      invariant forall k :: k in r <==> exists i :: 0 <= i < n && key(rows[i]) == k
      invariant forall k :: k in r ==> exists i :: LastWithKey(rows, key, k, i, n) && r[k] == rows[i]
    {
      var r' := r[key(rows[n]) := rows[n]];
      forall k | k in r' ensures exists i :: LastWithKey(rows, key, k, i, n + 1) && r'[k] == rows[i] {
        if k == key(rows[n]) {
          assert LastWithKey(rows, key, k, n, n + 1);
        } else {
          var i :| LastWithKey(rows, key, k, i, n) && r[k] == rows[i];
          assert LastWithKey(rows, key, k, i, n + 1);
        }
      }
      r := r';
    }
  }
}
