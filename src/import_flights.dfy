/**
 * The import tool (pysk/tools/import_flights.py): the alias file that renames pilots,
 * planes and launch methods, the completion of a record's participants from the
 * database, and the loop that hands the admitted records to the conflict handler.
 */
module FlightImport {
  import opened Wrappers
  import opened Strs
  import opened Records
  import opened Database
  import Flights
  import Pilots
  import Airplanes
  import LaunchMethods
  import ConflictHandlers

  // ---------------------------------------------------------------------------------------------
  // The alias file.

  /** A person's name as the alias file writes it: (last name, first name). */
  type Name = (string, string)

  /** `self.aliases`: one dictionary per category. */
  datatype Aliases = Aliases(pilots: map<Name, Name>, launchMethods: map<string, string>, planes: map<string, string>)

  /** The category names of `self.aliases`, in the order of its literal. */
  const Categories: seq<string> := ["pilots", "launch methods", "planes"]

  predicate IsCategory(c: string) {
    c == "pilots" || c == "launch methods" || c == "planes"
  }

  /** A stripped line that is neither blank nor a comment nor a header. */
  predicate IsData(line: string) {
    line != [] && line[0] != '#' && !(line[0] == '[' && line[|line| - 1] == ']')
  }

  /** The category a `[...]` line selects: brackets, then blanks stripped, lower-cased. */
  function HeaderCategory(line: string): string {
    Lower(Strip(LStripSet(RStripSet(line, {']'}), {'['})))
  }

  /** The IOError text for a data line that has no known category. It names the line
      before the offending one. */
  function CategoryMessage(lineNumber: nat, category: string): string {
    "In line " + IntToString(lineNumber - 1) + ": "
    + (if category != "" then "Unknown category '" + category + "'\n" else "Missing category\n")
    + "Use [<cagegory>], where <cagetory> is one of\n"
    + " - " + Categories[0] + "\n" + " - " + Categories[1] + "\n" + " - " + Categories[2] + "\n"
  }

  function ColumnsMessage(lineNumber: nat, n: nat): string {
    "In line " + NatToString(lineNumber) + ": Found " + NatToString(n) + " columns, expected 2"
  }

  /** `part` is "Key" or "Value". */
  function FieldsMessage(part: string, lineNumber: nat, n: nat): string {
    "In line " + NatToString(lineNumber) + ": " + part + " contains " + NatToString(n) + " fields, expected 2"
  }

  /** A data line under a known category: `key: value`, for pilots `last, first: last, first`.
      A later key overwrites an earlier one. */
  function Entry(a: Aliases, category: string, line: string, lineNumber: nat): Result<Aliases> {
    var cols := Split(line, ':');
    if |cols| != 2 then Err(IOError(ColumnsMessage(lineNumber, |cols|)))
    else
      var key := Strip(cols[0]);
      var value := Strip(cols[1]);
      if category == "pilots" then
        var ks := Split(key, ',');
        var vs := Split(value, ',');
        if |ks| != 2 then Err(IOError(FieldsMessage("Key", lineNumber, |ks|)))
        else if |vs| != 2 then Err(IOError(FieldsMessage("Value", lineNumber, |vs|)))
        else Ok(a.(pilots := a.pilots[(Strip(ks[0]), Strip(ks[1])) := (Strip(vs[0]), Strip(vs[1]))]))
      else if category == "planes" then Ok(a.(planes := a.planes[key := value]))
      else Ok(a.(launchMethods := a.launchMethods[key := value]))
  }

  /** One line of `importAliases` as written. `category` is the local variable of the same
      name, `None` while it is unbound: a data line before the first header reaches
      `if category:` and raises NameError. */
  function StepAsWritten(a: Aliases, category: Option<string>, raw: string, lineNumber: nat)
    : Result<(Aliases, Option<string>)>
  {
    var line := Strip(raw);
    if line == [] || line[0] == '#' then Ok((a, category))
    else if line[0] == '[' && line[|line| - 1] == ']' then Ok((a, Some(HeaderCategory(line))))
    else if category.None? then Err(NameError("category"))
    else if !IsCategory(category.value) then Err(IOError(CategoryMessage(lineNumber, category.value)))
    else
      var a' :- Entry(a, category.value, line, lineNumber);
      Ok((a', category))
  }

  /** One line of `importAliases` as its message texts intend: a data line before the first
      header is reported as a missing category. */
  function Step(a: Aliases, category: Option<string>, raw: string, lineNumber: nat)
    : Result<(Aliases, Option<string>)>
  {
    if category.None? && IsData(Strip(raw)) then Err(IOError(CategoryMessage(lineNumber, "")))
    else StepAsWritten(a, category, raw, lineNumber)
  }

  /** The data line before any header raises NameError as written, and the "Missing
      category" IOError after the correction; on every other line the two agree. */
  lemma MissingCategory(a: Aliases, raw: string, lineNumber: nat)
    requires IsData(Strip(raw))
    ensures StepAsWritten(a, None, raw, lineNumber) == Err(NameError("category"))
    ensures Step(a, None, raw, lineNumber) == Err(IOError(CategoryMessage(lineNumber, "")))
  {
  }

  lemma StepAgrees(a: Aliases, category: Option<string>, raw: string, lineNumber: nat)
    requires category.Some? || !IsData(Strip(raw))
    ensures Step(a, category, raw, lineNumber) == StepAsWritten(a, category, raw, lineNumber)
  {
  }

  /** Blank and `#` lines change nothing. */
  lemma SkippedLine(a: Aliases, category: Option<string>, raw: string, lineNumber: nat)
    requires Strip(raw) == [] || Strip(raw)[0] == '#'
    ensures Step(a, category, raw, lineNumber) == Ok((a, category))
  {
  }

  /** A `[cat]` line switches the category and stores nothing. */
  lemma HeaderLine(a: Aliases, category: Option<string>, raw: string, lineNumber: nat)
    requires var line := Strip(raw); line != [] && line[0] == '[' && line[|line| - 1] == ']'
    ensures Step(a, category, raw, lineNumber) == Ok((a, Some(HeaderCategory(Strip(raw)))))
  {
    var line := Strip(raw);
    assert !IsData(line);
    assert StepAsWritten(a, category, raw, lineNumber) == Ok((a, Some(HeaderCategory(line))));
  }

  /** A data line under a category `self.aliases` does not have raises IOError. */
  lemma UnknownCategory(a: Aliases, category: string, raw: string, lineNumber: nat)
    requires IsData(Strip(raw)) && !IsCategory(category)
    ensures Step(a, Some(category), raw, lineNumber) == Err(IOError(CategoryMessage(lineNumber, category)))
  {
  }

  /** A data line under a known category that does not split on ':' into two parts raises
      IOError naming the line and the count. */
  lemma WrongColumns(a: Aliases, category: string, raw: string, lineNumber: nat)
    requires IsData(Strip(raw)) && IsCategory(category) && |Split(Strip(raw), ':')| != 2
    ensures Step(a, Some(category), raw, lineNumber) ==
      Err(IOError(ColumnsMessage(lineNumber, |Split(Strip(raw), ':')|)))
  {
  }

  /** A pilots line whose key or value is not exactly two comma fields raises IOError. */
  lemma PilotLineFields(a: Aliases, raw: string, lineNumber: nat)
    requires IsData(Strip(raw)) && |Split(Strip(raw), ':')| == 2
    ensures var cols := Split(Strip(raw), ':');
      var ks := Split(Strip(cols[0]), ',');
      var vs := Split(Strip(cols[1]), ',');
      var r := Step(a, Some("pilots"), raw, lineNumber);
      && (|ks| != 2 ==> r == Err(IOError(FieldsMessage("Key", lineNumber, |ks|))))
      && (|ks| == 2 && |vs| != 2 ==> r == Err(IOError(FieldsMessage("Value", lineNumber, |vs|))))
  {
  }

  /** A pilots line stores the stripped (last, first) pair under the stripped key pair,
      overwriting an earlier entry for the same key. */
  lemma PilotLine(a: Aliases, raw: string, lineNumber: nat)
    requires IsData(Strip(raw)) && |Split(Strip(raw), ':')| == 2
    requires |Split(Strip(Split(Strip(raw), ':')[0]), ',')| == 2
    requires |Split(Strip(Split(Strip(raw), ':')[1]), ',')| == 2
    ensures var cols := Split(Strip(raw), ':');
      var ks := Split(Strip(cols[0]), ',');
      var vs := Split(Strip(cols[1]), ',');
      Step(a, Some("pilots"), raw, lineNumber) ==
        Ok((a.(pilots := a.pilots[(Strip(ks[0]), Strip(ks[1])) := (Strip(vs[0]), Strip(vs[1]))]), Some("pilots")))
  {
  }

  /** A planes or launch-methods line stores the stripped value under the stripped key in
      its own dictionary and leaves the other two alone. */
  lemma SingleFieldLine(a: Aliases, category: string, raw: string, lineNumber: nat)
    requires IsData(Strip(raw)) && |Split(Strip(raw), ':')| == 2
    requires category == "planes" || category == "launch methods"
    ensures var cols := Split(Strip(raw), ':');
      var r := Step(a, Some(category), raw, lineNumber);
      && r.Ok? && r.value.1 == Some(category) && r.value.0.pilots == a.pilots
      && (category == "planes" ==>
            r.value.0 == a.(planes := a.planes[Strip(cols[0]) := Strip(cols[1])]))
      && (category == "launch methods" ==>
            r.value.0 == a.(launchMethods := a.launchMethods[Strip(cols[0]) := Strip(cols[1])]))
  {
  }

  /** The result of reading one line: the aliases and category after it, or its exception. */
  type LineStep = (Aliases, Option<string>, string, nat) -> Result<(Aliases, Option<string>)>

  /** The loop of `importAliases` over the lines after `lineNumber`, reading each with
      `step`: the aliases and category reached, and the exception that stopped the loop, if
      any. The aliases stored before an exception stay stored. */
  function RunWith(step: LineStep, a: Aliases, category: Option<string>, lines: seq<string>, lineNumber: nat)
    : (Aliases, Option<string>, Option<Error>)
    decreases |lines|
  {
    if lines == [] then (a, category, None)
    else
      match step(a, category, lines[0], lineNumber + 1)
      case Err(e) => (a, category, Some(e))
      case Ok((a', category')) => RunWith(step, a', category', lines[1..], lineNumber + 1)
  }

  /** The line reader as written, or as the message texts intend. */
  function StepFor(asWritten: bool): LineStep {
    if asWritten then StepAsWritten else Step
  }

  /** The file read as the message texts intend. */
  function Run(a: Aliases, category: Option<string>, lines: seq<string>, lineNumber: nat)
    : (Aliases, Option<string>, Option<Error>)
  {
    RunWith(Step, a, category, lines, lineNumber)
  }

  /** Reading two pieces of a file one after the other is reading the whole: the second piece
      starts from where the first left off, and an exception in the first ends the read. */
  lemma {:induction false} RunAppend(step: LineStep, a: Aliases, category: Option<string>, xs: seq<string>,
                                     ys: seq<string>, lineNumber: nat)
    ensures var (a1, c1, e1) := RunWith(step, a, category, xs, lineNumber);
      RunWith(step, a, category, xs + ys, lineNumber) ==
        if e1.Some? then (a1, c1, e1) else RunWith(step, a1, c1, ys, lineNumber + |xs|)
    decreases |xs|
  {
    if xs == [] {
      assert xs + ys == ys;
    } else {
      assert (xs + ys)[0] == xs[0] && (xs + ys)[1..] == xs[1..] + ys;
      match step(a, category, xs[0], lineNumber + 1)
      case Err(e) =>
      case Ok((a', category')) =>
        RunAppend(step, a', category', xs[1..], ys, lineNumber + 1);
    }
  }

  /** `self.aliases` of the tool. */
  class AliasTable {
    var pilots: map<Name, Name>
    var launchMethods: map<string, string>
    var planes: map<string, string>

    function Contents(): Aliases
      reads this
    {
      Aliases(pilots, launchMethods, planes)
    }

    /** The tool's constructor: three empty dictionaries. */
    constructor ()
      ensures Contents() == Aliases(map[], map[], map[])
    {
      pilots := map[];
      launchMethods := map[];
      planes := map[];
    }

    /** `importAliases(path)` on the lines of the file: fills the dictionaries line by line
        and stops at the first exception, keeping what it stored before. With `asWritten`
        a data line before the first header raises NameError; otherwise it is the intended
        "Missing category" IOError. */
    method ImportAliases(lines: seq<string>, asWritten: bool) returns (r: Result<()>)
      modifies this
      ensures var (a, _, e) := RunWith(StepFor(asWritten), old(Contents()), None, lines, 0);
        Contents() == a && r == (if e.None? then Ok(()) else Err(e.value))
    {
      var step := StepFor(asWritten);
      var category: Option<string> := None;
      for i := 0 to |lines|
        invariant RunWith(step, Contents(), category, lines[i..], i) == RunWith(step, old(Contents()), None, lines, 0)
      {
        assert lines[i..][0] == lines[i] && lines[i..][1..] == lines[i + 1..];
        var next := step(Contents(), category, lines[i], i + 1);
        if next.Err? {
          return Err(next.error);
        }
        pilots, launchMethods, planes := next.value.0.pilots, next.value.0.launchMethods, next.value.0.planes;
        category := next.value.1;
      }
      r := Ok(());
    }
  }

  // ---------------------------------------------------------------------------------------------
  // Completing a record from the database.

  /** The rows the database lookups search. */
  datatype Catalog = Catalog(pilots: seq<Pilots.Pilot>, planes: seq<Airplanes.Airplane>,
                             launchMethods: seq<LaunchMethods.LaunchMethod>)

  /** `missing` of `createFlights`: the participants no lookup found, by their key. */
  datatype Missing = Missing(pilots: map<(Option<string>, Option<string>), Pilots.Pilot>,
                             planes: map<Option<string>, Airplanes.Airplane>,
                             launchMethods: map<Option<string>, LaunchMethods.LaunchMethod>)

  /** The pilot after its alias, if the alias file has one for its (last, first) name. An
      alias is a pair and so always truthy. */
  function AliasedPilot(aliases: map<Name, Name>, p: Pilots.Pilot): (r: Pilots.Pilot)
    ensures r.(firstName := p.firstName, lastName := p.lastName) == p
  {
    if p.lastName.Some? && p.firstName.Some? && (p.lastName.value, p.firstName.value) in aliases
    then
      var alias := aliases[(p.lastName.value, p.firstName.value)];
      p.(firstName := Some(alias.1), lastName := Some(alias.0))
    else p
  }

  /** The plane after its alias; an empty alias is falsy and not applied. */
  function AliasedPlane(aliases: map<string, string>, a: Airplanes.Airplane): (r: Airplanes.Airplane)
    ensures r.(registration := a.registration) == a
  {
    if a.registration.Some? && a.registration.value in aliases && aliases[a.registration.value] != ""
    then a.(registration := Some(aliases[a.registration.value]))
    else a
  }

  /** The launch method after its alias; an empty alias is falsy and not applied. */
  function AliasedMethod(aliases: map<string, string>, m: LaunchMethods.LaunchMethod): (r: LaunchMethods.LaunchMethod)
    ensures r.(name := m.name) == m
  {
    if m.name.Some? && m.name.value in aliases && aliases[m.name.value] != ""
    then m.(name := Some(aliases[m.name.value]))
    else m
  }

  /** The pilot and `missing` after `_updatePilot`: nothing happens without a name; otherwise
      the alias is applied, and the pilot becomes the single database row with its name
      (`copyMembers` copies every column), or goes into `missing` under its (last, first) name. */
  function PilotLookup(aliases: map<Name, Name>, db: Catalog, pilot: Pilots.Pilot, missing: Missing)
    : (Pilots.Pilot, Missing)
  {
    if !(Truthy(pilot.lastName) || Truthy(pilot.firstName)) then (pilot, missing)
    else
      var named := AliasedPilot(aliases, pilot);
      var rows := Where(db.pilots, NamedPilot(named.firstName, named.lastName));
      if |rows| == 1 then (rows[0], missing)
      else (named, missing.(pilots := missing.pilots[(named.lastName, named.firstName) := named]))
  }

  /** The key `_updatePilot` adds to `missing`: that of a named pilot the database does not hold
      exactly once. */
  function PilotMiss(aliases: map<Name, Name>, db: Catalog, pilot: Pilots.Pilot): set<(Option<string>, Option<string>)> {
    var named := AliasedPilot(aliases, pilot);
    if (Truthy(pilot.lastName) || Truthy(pilot.firstName))
       && |Where(db.pilots, NamedPilot(named.firstName, named.lastName))| != 1
    then {(named.lastName, named.firstName)} else {}
  }

  /** `_updatePilot(pilot, missing)`, proved against PilotLookup. */
  method UpdatePilot(aliases: map<Name, Name>, db: Catalog, pilot: Pilots.Pilot, missing: Missing)
    returns (p: Pilots.Pilot, m: Missing)
    ensures (p, m) == PilotLookup(aliases, db, pilot, missing)
    ensures !(Truthy(pilot.lastName) || Truthy(pilot.firstName)) ==> p == pilot && m == missing
    ensures (Truthy(pilot.lastName) || Truthy(pilot.firstName)) ==>
      var named := AliasedPilot(aliases, pilot);
      if |Where(db.pilots, NamedPilot(named.firstName, named.lastName))| == 1 then
        && p in db.pilots && p.firstName == Some(Show(named.firstName)) && p.lastName == Some(Show(named.lastName))
        && m == missing
      else
        p == named && m == missing.(pilots := missing.pilots[(named.lastName, named.firstName) := named])
  {
    if !(Truthy(pilot.lastName) || Truthy(pilot.firstName)) {
      return pilot, missing;
    }
    p := AliasedPilot(aliases, pilot);
    var found := PilotByName(db.pilots, p.firstName, p.lastName);
    if found.Ok? {
      return found.value, missing;
    }
    m := missing.(pilots := missing.pilots[(p.lastName, p.firstName) := p]);
  }

  /** The plane and `missing` after `_updatePlane`: nothing happens without a registration;
      otherwise the alias is applied, and the plane becomes the single database row with its
      registration, or goes into `missing` under its registration. */
  function PlaneLookup(aliases: map<string, string>, db: Catalog, plane: Airplanes.Airplane, missing: Missing)
    : (Airplanes.Airplane, Missing)
  {
    if !Truthy(plane.registration) then (plane, missing)
    else
      var named := AliasedPlane(aliases, plane);
      var rows := Where(db.planes, Registered(named.registration));
      if |rows| == 1 then (rows[0], missing)
      else (named, missing.(planes := missing.planes[named.registration := named]))
  }

  /** The key `_updatePlane` adds to `missing`. */
  function PlaneMiss(aliases: map<string, string>, db: Catalog, plane: Airplanes.Airplane): set<Option<string>> {
    var named := AliasedPlane(aliases, plane);
    if Truthy(plane.registration) && |Where(db.planes, Registered(named.registration))| != 1
    then {named.registration} else {}
  }

  /** `_updatePlane(plane, missing)`, proved against PlaneLookup. */
  method UpdatePlane(aliases: map<string, string>, db: Catalog, plane: Airplanes.Airplane, missing: Missing)
    returns (a: Airplanes.Airplane, m: Missing)
    ensures (a, m) == PlaneLookup(aliases, db, plane, missing)
    ensures !Truthy(plane.registration) ==> a == plane && m == missing
    ensures Truthy(plane.registration) ==>
      var named := AliasedPlane(aliases, plane);
      if |Where(db.planes, Registered(named.registration))| == 1 then
        a in db.planes && a.registration == Some(Show(named.registration)) && m == missing
      else
        a == named && m == missing.(planes := missing.planes[named.registration := named])
  {
    if !Truthy(plane.registration) {
      return plane, missing;
    }
    a := AliasedPlane(aliases, plane);
    var found := PlaneByRegistration(db.planes, a.registration);
    if found.Ok? {
      return found.value, missing;
    }
    m := missing.(planes := missing.planes[a.registration := a]);
  }

  /** A launch method the lookups found by this name or short name. */
  predicate NamedAs(m: LaunchMethods.LaunchMethod, name: Option<string>) {
    m.name == Some(Show(name)) || m.shortName == Some(Show(name))
  }

  /** The single row a selection returns, if there is exactly one. */
  function Single<T>(rows: seq<T>): Option<T> {
    if |rows| == 1 then Some(rows[0]) else None
  }

  /** The launch method and `missing` after `_updateLaunchMethod`: after the alias, the first
      lookup that finds a single row wins: by name or short name; for an airtow by the
      towplane registration, then "Airtow (other)"; for a self launch "Self launch". Without a
      match the method goes into `missing` under its name. An airtow without a towplane
      registration fails the towplane lookup with TypeError, which `except KeyError` does not
      catch. */
  function MethodLookup(aliases: map<string, string>, db: Catalog, launch: LaunchMethods.LaunchMethod,
                        missing: Missing): Result<(LaunchMethods.LaunchMethod, Missing)>
  {
    var m := AliasedMethod(aliases, launch);
    var t := db.launchMethods;
    var notFound := Ok((m, missing.(launchMethods := missing.launchMethods[m.name := m])));
    var byName := Single(Where(t, NamedMethod(m.name, true)));
    if byName.Some? then Ok((byName.value, missing))
    else if m.kind == Some("airtow") then
      if m.towplaneRegistration.None? then Err(TypeError)
      else
        var byTowplane := Single(Where(t, TowedBy(m.towplaneRegistration.value)));
        var other := Single(Where(t, NamedMethod(Some("Airtow (other)"), true)));
        if byTowplane.Some? then Ok((byTowplane.value, missing))
        else if other.Some? then Ok((other.value, missing))
        else notFound
    else if m.kind == Some("self") then
      var selfLaunch := Single(Where(t, NamedMethod(Some("Self launch"), true)));
      if selfLaunch.Some? then Ok((selfLaunch.value, missing)) else notFound
    else notFound
  }

  /** `_updateLaunchMethod(method, missing)`, proved against MethodLookup; the ensures below it
      spell out which lookup wins. */
  method UpdateLaunchMethod(aliases: map<string, string>, db: Catalog, launch: LaunchMethods.LaunchMethod,
                            missing: Missing)
    returns (r: Result<(LaunchMethods.LaunchMethod, Missing)>)
    ensures r == MethodLookup(aliases, db, launch, missing)
    ensures r.Err? ==> r == Err(TypeError)
    ensures var named := AliasedMethod(aliases, launch);
      var t := db.launchMethods;
      var byName := |Where(t, NamedMethod(named.name, true))| == 1;
      var airtow := named.kind == Some("airtow");
      var byTowplane := named.towplaneRegistration.Some? &&
        |Where(t, TowedBy(named.towplaneRegistration.value))| == 1;
      var other := |Where(t, NamedMethod(Some("Airtow (other)"), true))| == 1;
      var selfLaunch := named.kind == Some("self") && |Where(t, NamedMethod(Some("Self launch"), true))| == 1;
      && (byName ==> r.Ok? && r.value.0 in t && NamedAs(r.value.0, named.name) && r.value.1 == missing)
      && (!byName && airtow && named.towplaneRegistration.None? ==> r == Err(TypeError))
      && (!byName && airtow && byTowplane ==>
            r.Ok? && r.value.0 in t && r.value.0.kind == Some("airtow")
            && r.value.0.towplaneRegistration == named.towplaneRegistration && r.value.1 == missing)
      && (!byName && airtow && named.towplaneRegistration.Some? && !byTowplane && other ==>
            r.Ok? && r.value.0 in t && NamedAs(r.value.0, Some("Airtow (other)")) && r.value.1 == missing)
      && (!byName && selfLaunch ==>
            r.Ok? && r.value.0 in t && NamedAs(r.value.0, Some("Self launch")) && r.value.1 == missing)
      && (!byName && ((airtow && named.towplaneRegistration.Some? && !byTowplane && !other)
                      || (!airtow && !selfLaunch)) ==>
            r == Ok((named, missing.(launchMethods := missing.launchMethods[named.name := named]))))
  {
    var m := AliasedMethod(aliases, launch);
    var found := LaunchMethodByName(db.launchMethods, m.name, true);
    if found.Ok? {
      return Ok((found.value, missing));
    }
    if m.kind == Some("airtow") {
      found := LaunchMethodByTowplane(db.launchMethods, m.towplaneRegistration);
      if found.Ok? {
        return Ok((found.value, missing));
      }
      if !found.error.KeyError? {
        return Err(found.error);
      }
      found := LaunchMethodByName(db.launchMethods, Some("Airtow (other)"), true);
      if found.Ok? {
        return Ok((found.value, missing));
      }
    } else if m.kind == Some("self") {
      found := LaunchMethodByName(db.launchMethods, Some("Self launch"), true);
      if found.Ok? {
        return Ok((found.value, missing));
      }
    }
    r := Ok((m, missing.(launchMethods := missing.launchMethods[m.name := m])));
  }

  /** The six lookups of `createFlights` for one record, in the source's order: plane,
      towplane, pilot, copilot, towpilot, launch method. */
  function Completed(aliases: Aliases, db: Catalog, rec: Record, missing: Missing): Result<(Record, Missing)> {
    var (plane, m1) := PlaneLookup(aliases.planes, db, rec.plane, missing);
    var (towplane, m2) := PlaneLookup(aliases.planes, db, rec.towplane, m1);
    var (pilot, m3) := PilotLookup(aliases.pilots, db, rec.pilot, m2);
    var (copilot, m4) := PilotLookup(aliases.pilots, db, rec.copilot, m3);
    var (towpilot, m5) := PilotLookup(aliases.pilots, db, rec.towpilot, m4);
    match MethodLookup(aliases.launchMethods, db, rec.launchMethod, m5)
    case Err(e) => Err(e)
    case Ok((launch, m6)) =>
      Ok((rec.(plane := plane, towplane := towplane, pilot := pilot, copilot := copilot, towpilot := towpilot,
               launchMethod := launch), m6))
  }

  /** `_updatePilot` changes only the pilots of `missing`, which gain exactly the key of a pilot
      not found; the pilot it leaves does not depend on `missing`. */
  lemma PilotLookupMissing(aliases: map<Name, Name>, db: Catalog, pilot: Pilots.Pilot, missing: Missing, other: Missing)
    ensures PilotLookup(aliases, db, pilot, missing).0 == PilotLookup(aliases, db, pilot, other).0
    ensures var m := PilotLookup(aliases, db, pilot, missing).1;
      && m.planes == missing.planes && m.launchMethods == missing.launchMethods
      && m.pilots.Keys == missing.pilots.Keys + PilotMiss(aliases, db, pilot)
  {
  }

  /** `_updatePlane` changes only the planes of `missing`, which gain exactly the key of a plane
      not found; the plane it leaves does not depend on `missing`. */
  lemma PlaneLookupMissing(aliases: map<string, string>, db: Catalog, plane: Airplanes.Airplane, missing: Missing,
                           other: Missing)
    ensures PlaneLookup(aliases, db, plane, missing).0 == PlaneLookup(aliases, db, plane, other).0
    ensures var m := PlaneLookup(aliases, db, plane, missing).1;
      && m.pilots == missing.pilots && m.launchMethods == missing.launchMethods
      && m.planes.Keys == missing.planes.Keys + PlaneMiss(aliases, db, plane)
  {
  }

  /** Whether `_updateLaunchMethod` fails, and the method it leaves, do not depend on `missing`;
      it changes only the launch methods of `missing`. */
  lemma MethodLookupMissing(aliases: map<string, string>, db: Catalog, launch: LaunchMethods.LaunchMethod,
                            missing: Missing, other: Missing)
    ensures MethodLookup(aliases, db, launch, missing).Err? == MethodLookup(aliases, db, launch, other).Err?
    ensures MethodLookup(aliases, db, launch, missing).Err? ==> MethodLookup(aliases, db, launch, missing) == Err(TypeError)
    ensures MethodLookup(aliases, db, launch, missing).Ok? ==>
      && MethodLookup(aliases, db, launch, missing).value.0 == MethodLookup(aliases, db, launch, other).value.0
      && MethodLookup(aliases, db, launch, missing).value.1.pilots == missing.pilots
      && MethodLookup(aliases, db, launch, missing).value.1.planes == missing.planes
  {
  }

  /** The intermediate `missing` values of Completed. */
  function MissingChain(aliases: Aliases, db: Catalog, rec: Record, missing: Missing): seq<Missing> {
    var m1 := PlaneLookup(aliases.planes, db, rec.plane, missing).1;
    var m2 := PlaneLookup(aliases.planes, db, rec.towplane, m1).1;
    var m3 := PilotLookup(aliases.pilots, db, rec.pilot, m2).1;
    var m4 := PilotLookup(aliases.pilots, db, rec.copilot, m3).1;
    var m5 := PilotLookup(aliases.pilots, db, rec.towpilot, m4).1;
    [missing, m1, m2, m3, m4, m5]
  }

  /** Completed fails exactly when the launch-method lookup does, with its TypeError; otherwise
      each participant is the one its own lookup gives, whatever the others found, and nothing
      but the participants changes. */
  lemma CompletedSpec(aliases: Aliases, db: Catalog, rec: Record, missing: Missing)
    ensures var r := Completed(aliases, db, rec, missing);
      && (r.Err? <==> MethodLookup(aliases.launchMethods, db, rec.launchMethod, missing).Err?)
      && (r.Err? ==> r == Err(TypeError))
    ensures var r := Completed(aliases, db, rec, missing);
      r.Ok? ==>
        var c := r.value.0;
        && c.plane == PlaneLookup(aliases.planes, db, rec.plane, missing).0
        && c.towplane == PlaneLookup(aliases.planes, db, rec.towplane, missing).0
        && c.pilot == PilotLookup(aliases.pilots, db, rec.pilot, missing).0
        && c.copilot == PilotLookup(aliases.pilots, db, rec.copilot, missing).0
        && c.towpilot == PilotLookup(aliases.pilots, db, rec.towpilot, missing).0
        && c.launchMethod == MethodLookup(aliases.launchMethods, db, rec.launchMethod, missing).value.0
        && c.(plane := rec.plane, towplane := rec.towplane, pilot := rec.pilot, copilot := rec.copilot,
              towpilot := rec.towpilot, launchMethod := rec.launchMethod) == rec
  {
    var ms := MissingChain(aliases, db, rec, missing);
    PlaneLookupMissing(aliases.planes, db, rec.towplane, ms[1], missing);
    PilotLookupMissing(aliases.pilots, db, rec.pilot, ms[2], missing);
    PilotLookupMissing(aliases.pilots, db, rec.copilot, ms[3], missing);
    PilotLookupMissing(aliases.pilots, db, rec.towpilot, ms[4], missing);
    MethodLookupMissing(aliases.launchMethods, db, rec.launchMethod, ms[5], missing);
  }

  /** After Completed, `missing` holds exactly its old keys and those of the participants no
      lookup found. */
  lemma CompletedMissing(aliases: Aliases, db: Catalog, rec: Record, missing: Missing)
    requires Completed(aliases, db, rec, missing).Ok?
    ensures var m := Completed(aliases, db, rec, missing).value.1;
      && m.planes.Keys == missing.planes.Keys + PlaneMiss(aliases.planes, db, rec.plane)
                          + PlaneMiss(aliases.planes, db, rec.towplane)
      && m.pilots.Keys == missing.pilots.Keys + PilotMiss(aliases.pilots, db, rec.pilot)
                          + PilotMiss(aliases.pilots, db, rec.copilot) + PilotMiss(aliases.pilots, db, rec.towpilot)
  {
    var ms := MissingChain(aliases, db, rec, missing);
    PlaneLookupMissing(aliases.planes, db, rec.plane, ms[0], ms[0]);
    PlaneLookupMissing(aliases.planes, db, rec.towplane, ms[1], ms[1]);
    PilotLookupMissing(aliases.pilots, db, rec.pilot, ms[2], ms[2]);
    PilotLookupMissing(aliases.pilots, db, rec.copilot, ms[3], ms[3]);
    PilotLookupMissing(aliases.pilots, db, rec.towpilot, ms[4], ms[4]);
    MethodLookupMissing(aliases.launchMethods, db, rec.launchMethod, ms[5], ms[5]);
  }

  /** The completed record does not depend on what earlier records left in `missing`. */
  lemma CompletedIgnoresMissing(aliases: Aliases, db: Catalog, rec: Record, m1: Missing, m2: Missing)
    ensures Completed(aliases, db, rec, m1).Ok? == Completed(aliases, db, rec, m2).Ok?
    ensures Completed(aliases, db, rec, m1).Err? ==> Completed(aliases, db, rec, m1) == Completed(aliases, db, rec, m2)
    ensures Completed(aliases, db, rec, m1).Ok? ==>
      Completed(aliases, db, rec, m1).value.0 == Completed(aliases, db, rec, m2).value.0
  {
    CompletedSpec(aliases, db, rec, m1);
    CompletedSpec(aliases, db, rec, m2);
  }

  /** The lookups of `createFlights` for one record, proved against Completed. */
  method Resolve(aliases: Aliases, db: Catalog, rec: Record, missing: Missing) returns (r: Result<(Record, Missing)>)
    ensures r == Completed(aliases, db, rec, missing)
  {
    var plane, m1 := UpdatePlane(aliases.planes, db, rec.plane, missing);
    var towplane, m2 := UpdatePlane(aliases.planes, db, rec.towplane, m1);
    var pilot, m3 := UpdatePilot(aliases.pilots, db, rec.pilot, m2);
    var copilot, m4 := UpdatePilot(aliases.pilots, db, rec.copilot, m3);
    var towpilot, m5 := UpdatePilot(aliases.pilots, db, rec.towpilot, m4);
    var launch :- UpdateLaunchMethod(aliases.launchMethods, db, rec.launchMethod, m5);
    r := Ok((rec.(plane := plane, towplane := towplane, pilot := pilot, copilot := copilot, towpilot := towpilot,
                  launchMethod := launch.0), launch.1));
  }

  /** `modeNumbers[self.config.mode]`. The "replace" setting selects REJECT_ON_CONFLICT, which
      keeps the stored flights and skips a conflicting candidate. */
  function ModeNumber(mode: string): (r: Result<int>)
    ensures mode == "ignore" ==> r == Ok(ConflictHandlers.IGNORE_ALL_CONFLICTS)
    ensures mode == "interactive" ==> r == Ok(ConflictHandlers.INTERACTIVE)
    ensures mode == "replace" ==> r == Ok(ConflictHandlers.REJECT_ON_CONFLICT)
    ensures r.Err? <==> mode != "ignore" && mode != "interactive" && mode != "replace"
    ensures r.Err? ==> r == Err(KeyError(mode))
  {
    var modeNumbers := map["ignore" := ConflictHandlers.IGNORE_ALL_CONFLICTS,
                           "interactive" := ConflictHandlers.INTERACTIVE,
                           "replace" := ConflictHandlers.REJECT_ON_CONFLICT];
    if mode in modeNumbers then Ok(modeNumbers[mode]) else Err(KeyError(mode))
  }

  /** A participant's club differs from the (lower-cased) club of the filter. */
  predicate OtherClub(club: string, participantClub: Option<string>) {
    !Truthy(participantClub) || club != Lower(participantClub.value)
  }

  /** The club filter of `createFlights`: without a configured club every record passes;
      with one, a record passes when its pilot's, copilot's or plane's club matches it
      ignoring case. */
  predicate ClubMatches(club: Option<string>, rec: Record) {
    var c := if Truthy(club) then Some(Lower(club.value)) else None;
    !(c.Some? && OtherClub(c.value, rec.pilot.club) && OtherClub(c.value, rec.copilot.club)
      && OtherClub(c.value, rec.plane.club))
  }

  lemma LowerTwice(s: string)
    ensures Lower(Lower(s)) == Lower(s)
  {
    assert forall i :: 0 <= i < |s| ==> Lower(Lower(s))[i] == Lower(s)[i];
  }

  /** The filter ignores the case of the configured club. */
  lemma ClubIgnoresCase(club: string, rec: Record)
    ensures ClubMatches(Some(club), rec) == ClubMatches(Some(Lower(club)), rec)
  {
    LowerTwice(club);
  }

  /** A record passes a configured club exactly when one of its three clubs, lower-cased,
      equals the club lower-cased. */
  lemma ClubMatchesSpec(club: string, rec: Record)
    requires club != ""
    ensures ClubMatches(Some(club), rec) <==>
      (Truthy(rec.pilot.club) && Lower(rec.pilot.club.value) == Lower(club))
      || (Truthy(rec.copilot.club) && Lower(rec.copilot.club.value) == Lower(club))
      || (Truthy(rec.plane.club) && Lower(rec.plane.club.value) == Lower(club))
  {
  }

  /** What `createFlights` does with a completed record: a record of another club and one
      whose `updateFlight` raises RecordError are skipped (`None`); any other exception
      ends the import; otherwise the updated record and its warnings go on. */
  function Admit(club: Option<string>, rec: Record): Result<Option<(Record, seq<string>)>> {
    if !ClubMatches(club, rec) then Ok(None)
    else
      match Updated(rec)
      case Ok(u) => Ok(Some(u))
      case Err(e) => if e.RecordError? then Ok(None) else Err(e)
  }

  /** Only records of the club whose update succeeded reach the handler, their flight has its
      flags recomputed and their participants are unchanged; the only exception that ends
      the import here is the AttributeError of a flight without mode. */
  lemma AdmitSpec(club: Option<string>, rec: Record)
    ensures Admit(club, rec).Ok? && Admit(club, rec).value.Some? ==>
      var u := Admit(club, rec).value.value.0;
      && ClubMatches(club, rec) && Updated(rec).Ok? && Updated(rec).value.0 == u
      && ClubMatches(club, u) && u.flight == Flights.Update(u.flight)
    ensures Admit(club, rec).Err? <==> ClubMatches(club, rec) && rec.flight.mode.None?
    ensures Admit(club, rec).Err? ==> Admit(club, rec) == Err(AttributeError("lower"))
  {
    UpdatedFails(rec);
    if Updated(rec).Ok? {
      UpdatedFrame(rec);
    }
  }

  /** One pass of the loop in `createFlights` up to the handler: the record completed from the
      database, filtered and updated. The first part is the record handed to the handler,
      `None` for a skipped one, or the exception that ends the import; the second is `missing`. */
  function Pass(aliases: Aliases, db: Catalog, club: Option<string>, rec: Record, missing: Missing)
    : (Result<Option<Record>>, Missing)
  {
    match Completed(aliases, db, rec, missing)
    case Err(e) => (Err(e), missing)
    case Ok((completed, m)) =>
      match Admit(club, completed)
      case Err(e) => (Err(e), m)
      case Ok(None) => (Ok(None), m)
      case Ok(Some((u, _))) => (Ok(Some(u)), m)
  }

  /** What a pass hands on does not depend on `missing`. */
  lemma PassIgnoresMissing(aliases: Aliases, db: Catalog, club: Option<string>, rec: Record, m1: Missing, m2: Missing)
    ensures Pass(aliases, db, club, rec, m1).0 == Pass(aliases, db, club, rec, m2).0
  {
    CompletedIgnoresMissing(aliases, db, rec, m1, m2);
  }

  const NoMissing := Missing(map[], map[], map[])

  /** The records the loop hands to the handler when no exception stops it: each record's
      completion as Admit passes it, in the order of the records. */
  function Handed(aliases: Aliases, db: Catalog, club: Option<string>, records: seq<Record>): seq<Record>
    decreases |records|
  {
    if records == [] then []
    else
      var p := Pass(aliases, db, club, records[0], NoMissing).0;
      (if p.Ok? && p.value.Some? then [p.value.value] else []) + Handed(aliases, db, club, records[1..])
  }

  /** Every handed record is of the club and has passed `updateFlight`, which recomputed its flags. */
  lemma {:induction false} HandedAdmitted(aliases: Aliases, db: Catalog, club: Option<string>, records: seq<Record>)
    ensures forall k :: 0 <= k < |Handed(aliases, db, club, records)| ==>
      var u := Handed(aliases, db, club, records)[k];
      ClubMatches(club, u) && u.flight == Flights.Update(u.flight)
    decreases |records|
  {
    if records != [] {
      HandedAdmitted(aliases, db, club, records[1..]);
      var c := Completed(aliases, db, records[0], NoMissing);
      if c.Ok? {
        AdmitSpec(club, c.value.0);
      }
    }
  }

  /** The whole loop of `createFlights` from store table `t`, the handler in mode `mode` with
      warning mask `enabled`, the operator answering the dialogs for record k with `replies[k]`:
      the result, the table after it, `missing`, and the records handed to the handler. Each
      handed record's flight settles its conflicts with the handler's outcome, computed from the
      table before it; an abort ends the loop after its record. */
  function Imported(aliases: Aliases, db: Catalog, club: Option<string>, mode: int, enabled: ConflictHandlers.Mask,
                    t: FlightTable, records: seq<Record>, replies: seq<(ConflictHandlers.Reply, ConflictHandlers.Reply)>,
                    missing: Missing): (Result<()>, FlightTable, Missing, seq<Record>)
    requires |replies| == |records|
    decreases |records|
  {
    if records == [] then (Ok(()), t, missing, [])
    else
      var (p, m) := Pass(aliases, db, club, records[0], missing);
      if p.Err? then (Err(p.error), t, m, [])
      else if p.value.None? then Imported(aliases, db, club, mode, enabled, t, records[1..], replies[1..], m)
      else
        var f := p.value.value.flight;
        var o := ConflictHandlers.CallOutcome(mode, enabled, t.rows, f, replies[0].0, replies[0].1);
        var t' := ConflictHandlers.Effect(o, t, f, ConflictHandlers.Conflicts(t.rows, f));
        if o == ConflictHandlers.Aborted then (Err(RuntimeError("Program aborted by user.")), t', m, [p.value.value])
        else
          var rest := Imported(aliases, db, club, mode, enabled, t', records[1..], replies[1..], m);
          (rest.0, rest.1, rest.2, [p.value.value] + rest.3)
  }

  /** A pass fails only with the launch-method TypeError or the AttributeError of a flight
      without mode; a RecordError skips the record. */
  lemma PassErrors(aliases: Aliases, db: Catalog, club: Option<string>, rec: Record, missing: Missing)
    ensures var p := Pass(aliases, db, club, rec, missing).0;
      p.Err? ==> p.error in {TypeError, AttributeError("lower")}
  {
    var c := Completed(aliases, db, rec, missing);
    CompletedSpec(aliases, db, rec, missing);
    if c.Ok? {
      AdmitSpec(club, c.value.0);
    }
  }

  /** Handed peels off the first record, whatever `missing` is. */
  lemma HandedCons(aliases: Aliases, db: Catalog, club: Option<string>, records: seq<Record>, missing: Missing)
    requires records != []
    ensures var p := Pass(aliases, db, club, records[0], missing).0;
      Handed(aliases, db, club, records) ==
        (if p.Ok? && p.value.Some? then [p.value.value] else []) + Handed(aliases, db, club, records[1..])
  {
    PassIgnoresMissing(aliases, db, club, records[0], missing, NoMissing);
  }

  /** The handed records of a run are a prefix of Handed, and all of them when the run succeeds. */
  lemma {:induction false} ImportedHanded(aliases: Aliases, db: Catalog, club: Option<string>, mode: int,
                                          enabled: ConflictHandlers.Mask, t: FlightTable, records: seq<Record>,
                                          replies: seq<(ConflictHandlers.Reply, ConflictHandlers.Reply)>, missing: Missing)
    requires |replies| == |records|
    ensures var res := Imported(aliases, db, club, mode, enabled, t, records, replies, missing);
      && res.3 <= Handed(aliases, db, club, records)
      && (res.0.Ok? ==> res.3 == Handed(aliases, db, club, records))
    decreases |records|
  {
    if records != [] {
      HandedCons(aliases, db, club, records, missing);
      var (p, m) := Pass(aliases, db, club, records[0], missing);
      var res := Imported(aliases, db, club, mode, enabled, t, records, replies, missing);
      var later := Handed(aliases, db, club, records[1..]);
      if p.Err? {
        assert res.3 == [];
      } else if p.value.None? {
        assert Handed(aliases, db, club, records) == [] + later == later;
        ImportedHanded(aliases, db, club, mode, enabled, t, records[1..], replies[1..], m);
      } else {
        var u := p.value.value;
        assert Handed(aliases, db, club, records) == [u] + later;
        var o := ConflictHandlers.CallOutcome(mode, enabled, t.rows, u.flight, replies[0].0, replies[0].1);
        var t' := ConflictHandlers.Effect(o, t, u.flight, ConflictHandlers.Conflicts(t.rows, u.flight));
        if o == ConflictHandlers.Aborted {
          assert res.3 == [u];
        } else {
          var rest := Imported(aliases, db, club, mode, enabled, t', records[1..], replies[1..], m);
          assert res == (rest.0, rest.1, rest.2, [u] + rest.3);
          ImportedHanded(aliases, db, club, mode, enabled, t', records[1..], replies[1..], m);
        }
      }
    }
  }

  /** A run fails only with the launch-method TypeError, the AttributeError of a flight without
      mode or the operator's abort, never with a RecordError. */
  lemma {:induction false} ImportedErrors(aliases: Aliases, db: Catalog, club: Option<string>, mode: int,
                                          enabled: ConflictHandlers.Mask, t: FlightTable, records: seq<Record>,
                                          replies: seq<(ConflictHandlers.Reply, ConflictHandlers.Reply)>, missing: Missing)
    requires |replies| == |records|
    ensures var res := Imported(aliases, db, club, mode, enabled, t, records, replies, missing);
      res.0.Err? ==> res.0.error in {TypeError, AttributeError("lower"), RuntimeError("Program aborted by user.")}
    decreases |records|
  {
    if records != [] {
      PassErrors(aliases, db, club, records[0], missing);
      var (p, m) := Pass(aliases, db, club, records[0], missing);
      if p.Ok? && p.value.None? {
        ImportedErrors(aliases, db, club, mode, enabled, t, records[1..], replies[1..], m);
      } else if p.Ok? {
        var f := p.value.value.flight;
        var o := ConflictHandlers.CallOutcome(mode, enabled, t.rows, f, replies[0].0, replies[0].1);
        var t' := ConflictHandlers.Effect(o, t, f, ConflictHandlers.Conflicts(t.rows, f));
        ImportedErrors(aliases, db, club, mode, enabled, t', records[1..], replies[1..], m);
      }
    }
  }

  /** A run's result with `admitted` handed on before it. */
  function Prefixed(admitted: seq<Record>, res: (Result<()>, FlightTable, Missing, seq<Record>))
    : (Result<()>, FlightTable, Missing, seq<Record>)
  {
    (res.0, res.1, res.2, admitted + res.3)
  }

  /** One pass of the loop in `createFlights` from store table `t`, as Imported takes it: Pass,
      then, for a record it hands on, the handler's outcome computed from `t`. `r`, `handed`,
      `t'` and `missing'` are the result, the record handed on, the table and `missing` after it. */
  predicate Stepped(aliases: Aliases, db: Catalog, club: Option<string>, mode: int, enabled: ConflictHandlers.Mask,
                    t: FlightTable, rec: Record, reply: (ConflictHandlers.Reply, ConflictHandlers.Reply),
                    missing: Missing, r: Result<()>, handed: Option<Record>, t': FlightTable, missing': Missing)
  {
    var (p, m) := Pass(aliases, db, club, rec, missing);
    && missing' == m
    && (p.Err? ==> r == Err(p.error) && handed.None? && t' == t)
    && (p.Ok? ==> handed == p.value)
    && (p.Ok? && p.value.None? ==> r == Ok(()) && t' == t)
    && (p.Ok? && p.value.Some? ==>
          var f := p.value.value.flight;
          var o := ConflictHandlers.CallOutcome(mode, enabled, t.rows, f, reply.0, reply.1);
          && (r.Err? <==> o == ConflictHandlers.Aborted)
          && (r.Err? ==> r == Err(RuntimeError("Program aborted by user.")))
          && t' == ConflictHandlers.Effect(o, t, f, ConflictHandlers.Conflicts(t.rows, f)))
  }

  /** One step of Imported: an exception ends the run with the records handed on so far, and
      otherwise the run goes on from the table and `missing` the step left. */
  lemma ImportedStep(aliases: Aliases, db: Catalog, club: Option<string>, mode: int, enabled: ConflictHandlers.Mask,
                     t: FlightTable, records: seq<Record>, replies: seq<(ConflictHandlers.Reply, ConflictHandlers.Reply)>,
                     missing: Missing, admitted: seq<Record>, r: Result<()>, handed: Option<Record>, t': FlightTable,
                     missing': Missing)
    requires records != [] && |replies| == |records|
    requires Stepped(aliases, db, club, mode, enabled, t, records[0], replies[0], missing, r, handed, t', missing')
    ensures var admitted' := admitted + (if handed.Some? then [handed.value] else []);
      var res := Prefixed(admitted, Imported(aliases, db, club, mode, enabled, t, records, replies, missing));
      && (r.Err? ==> res == (r, t', missing', admitted'))
      && (r.Ok? ==> res == Prefixed(admitted', Imported(aliases, db, club, mode, enabled, t', records[1..], replies[1..], missing')))
  {
    var p := Pass(aliases, db, club, records[0], missing).0;
    if p.Err? {
      StepFails(aliases, db, club, mode, enabled, t, records, replies, missing, admitted, r, handed, t', missing');
      assert admitted + [] == admitted;
    } else if p.value.None? {
      StepSkips(aliases, db, club, mode, enabled, t, records, replies, missing, admitted, r, handed, t', missing');
      assert admitted + [] == admitted;
    } else {
      StepHands(aliases, db, club, mode, enabled, t, records, replies, missing, admitted, r, handed, t', missing');
    }
  }

  lemma StepFails(aliases: Aliases, db: Catalog, club: Option<string>, mode: int, enabled: ConflictHandlers.Mask,
                     t: FlightTable, records: seq<Record>, replies: seq<(ConflictHandlers.Reply, ConflictHandlers.Reply)>,
                     missing: Missing, admitted: seq<Record>, r: Result<()>, handed: Option<Record>, t': FlightTable,
                     missing': Missing)
    requires records != [] && |replies| == |records|
    requires Stepped(aliases, db, club, mode, enabled, t, records[0], replies[0], missing, r, handed, t', missing')
    requires Pass(aliases, db, club, records[0], missing).0.Err?
    ensures handed.None? && r.Err?
    ensures Prefixed(admitted, Imported(aliases, db, club, mode, enabled, t, records, replies, missing)) ==
      (r, t', missing', admitted)
  {
    assert admitted + [] == admitted;
  }

  lemma StepSkips(aliases: Aliases, db: Catalog, club: Option<string>, mode: int, enabled: ConflictHandlers.Mask,
                     t: FlightTable, records: seq<Record>, replies: seq<(ConflictHandlers.Reply, ConflictHandlers.Reply)>,
                     missing: Missing, admitted: seq<Record>, r: Result<()>, handed: Option<Record>, t': FlightTable,
                     missing': Missing)
    requires records != [] && |replies| == |records|
    requires Stepped(aliases, db, club, mode, enabled, t, records[0], replies[0], missing, r, handed, t', missing')
    requires Pass(aliases, db, club, records[0], missing).0 == Ok(None)
    ensures handed.None? && r.Ok?
    ensures Prefixed(admitted, Imported(aliases, db, club, mode, enabled, t, records, replies, missing)) ==
      Prefixed(admitted, Imported(aliases, db, club, mode, enabled, t', records[1..], replies[1..], missing'))
  {
  }

  lemma StepHands(aliases: Aliases, db: Catalog, club: Option<string>, mode: int, enabled: ConflictHandlers.Mask,
                     t: FlightTable, records: seq<Record>, replies: seq<(ConflictHandlers.Reply, ConflictHandlers.Reply)>,
                     missing: Missing, admitted: seq<Record>, r: Result<()>, handed: Option<Record>, t': FlightTable,
                     missing': Missing)
    requires records != [] && |replies| == |records|
    requires Stepped(aliases, db, club, mode, enabled, t, records[0], replies[0], missing, r, handed, t', missing')
    requires Pass(aliases, db, club, records[0], missing).0.Ok? && handed.Some?
    requires Pass(aliases, db, club, records[0], missing).0.value == handed
    ensures var admitted' := admitted + (if handed.Some? then [handed.value] else []);
      var res := Prefixed(admitted, Imported(aliases, db, club, mode, enabled, t, records, replies, missing));
      && (r.Err? ==> res == (r, t', missing', admitted'))
      && (r.Ok? ==> res == Prefixed(admitted', Imported(aliases, db, club, mode, enabled, t', records[1..], replies[1..], missing')))
  {
    var u := handed.value;
    var rest := Imported(aliases, db, club, mode, enabled, t', records[1..], replies[1..], missing').3;
    assert admitted + ([u] + rest) == (admitted + [u]) + rest;
    assert (admitted + [u]) + [] == admitted + [u];
  }

  lemma PrefixedNothing(res: (Result<()>, FlightTable, Missing, seq<Record>))
    ensures Prefixed([], res) == res
  {
    assert [] + res.3 == res.3;
  }

  /** A run over no records succeeds and changes nothing. */
  lemma ImportedDone(aliases: Aliases, db: Catalog, club: Option<string>, mode: int, enabled: ConflictHandlers.Mask,
                     t: FlightTable, missing: Missing, admitted: seq<Record>)
    ensures Prefixed(admitted, Imported(aliases, db, club, mode, enabled, t, [], [], missing)) == (Ok(()), t, missing, admitted)
  {
    assert admitted + [] == admitted;
  }

  /** One pass of the loop in `createFlights`: Pass, then the handler for the record it hands on,
      whose outcome is computed from the handler's state before the call. */
  method CreateFlight(handler: ConflictHandlers.ConflictHandler, aliases: Aliases, db: Catalog, club: Option<string>,
                      rec: Record, missing: Missing, reply: (ConflictHandlers.Reply, ConflictHandlers.Reply))
    returns (r: Result<()>, handed: Option<Record>, missing': Missing)
    requires handler.db.Valid() && reply.0 != ConflictHandlers.Replace
    modifies handler, handler.db
    ensures handler.db.Valid() && handler.enabled == old(handler.enabled)
    ensures Stepped(aliases, db, club, handler.mode, old(handler.enabled), old(handler.db.Contents()), rec, reply, missing,
                    r, handed, handler.db.Contents(), missing')
  {
    missing' := missing;
    handed := None;
    var resolved := Resolve(aliases, db, rec, missing);
    if resolved.Err? {
      return Err(resolved.error), None, missing';
    }
    var completed := resolved.value.0;
    missing' := resolved.value.1;
    var admit := Admit(club, completed);
    if admit.Err? {
      return Err(admit.error), None, missing';
    }
    if admit.value.None? {
      return Ok(()), None, missing';
    }
    var u := admit.value.value.0;
    handed := Some(u);
    r := handler.Call(u.flight, reply.0, reply.1);
  }

  /** `createFlights(records)`: a conflict handler in the configured mode, with every warning
      enabled, receives the records of the loop. The result, the store, `missing` and the
      records handed to the handler are exactly those of Imported. */
  method CreateFlights(aliases: Aliases, db: Catalog, store: Store, mode: string, club: Option<string>,
                       records: seq<Record>, replies: seq<(ConflictHandlers.Reply, ConflictHandlers.Reply)>)
    returns (r: Result<()>, missing: Missing, admitted: seq<Record>)
    requires store.Valid()
    requires |replies| == |records| && forall k :: 0 <= k < |replies| ==> replies[k].0 != ConflictHandlers.Replace
    modifies store
    ensures store.Valid()
    ensures ModeNumber(mode).Err? ==> r == Err(KeyError(mode)) && admitted == [] && unchanged(store)
    ensures ModeNumber(mode).Ok? ==>
      (r, store.Contents(), missing, admitted) ==
        Imported(aliases, db, club, ModeNumber(mode).value, ConflictHandlers.ALL, old(store.Contents()), records, replies,
                 NoMissing)
  {
    missing := NoMissing;
    admitted := [];
    var n := ModeNumber(mode);
    if n.Err? {
      return Err(n.error), missing, admitted;
    }
    ghost var total := Imported(aliases, db, club, n.value, ConflictHandlers.ALL, store.Contents(), records, replies,
                                NoMissing);
    var handler := new ConflictHandlers.ConflictHandler(store, n.value);
    assert records[0..] == records && replies[0..] == replies;
    PrefixedNothing(total);
    for i := 0 to |records|
      invariant store.Valid() && handler.db == store && handler.enabled == ConflictHandlers.ALL
      invariant total == Prefixed(admitted, Imported(aliases, db, club, n.value, ConflictHandlers.ALL, store.Contents(),
                                                     records[i..], replies[i..], missing))
    {
      assert records[i..][0] == records[i] && records[i..][1..] == records[i + 1..];
      assert replies[i..][0] == replies[i] && replies[i..][1..] == replies[i + 1..];
      ghost var t := store.Contents();
      ghost var m := missing;
      ghost var before := admitted;
      var step, handed;
      step, handed, missing := CreateFlight(handler, aliases, db, club, records[i], missing, replies[i]);
      ImportedStep(aliases, db, club, n.value, ConflictHandlers.ALL, t, records[i..], replies[i..], m, before, step,
                   handed, store.Contents(), missing);
      if handed.Some? {
        admitted := admitted + [handed.value];
      } else {
        assert before + [] == before;
      }
      assert admitted == before + (if handed.Some? then [handed.value] else []);
      if step.Err? {
        return step, missing, admitted;
      }
    }
    assert records[|records|..] == [] && replies[|records|..] == [];
    ImportedDone(aliases, db, club, n.value, ConflictHandlers.ALL, store.Contents(), missing, admitted);
    r := Ok(());
    assert total == (r, store.Contents(), missing, admitted);
  }
}
