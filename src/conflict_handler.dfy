/**
 * pysk/db/conflict_handler.py: checks an imported flight for missing data and for similar
 * flights already stored, then keeps, skips or replaces according to the mode and the
 * operator's replies. The replies are parameters; the log output is not modelled.
 */
module ConflictHandlers {
  import opened Wrappers
  import opened Flights
  import opened Database

  // ---------------------------------------------------------------------------------------------
  // Warning flags and modes.

  /** A warning mask, written as the set of its bit positions: 0x0001 is {0}, 0x0004 is {2}. */
  type Mask = set<nat>

  const NONE: Mask := {}
  const ALL: Mask := set i: nat | i < 16
  const MISSING_DEPARTURE_TIME: Mask := {0}
  const MISSING_LANDING_TIME: Mask := {1}
  const MISSING_DEPARTURE_LOCATION: Mask := {2}
  const MISSING_LANDING_LOCATION: Mask := {3}
  const MISSING_LAUNCH_METHOD: Mask := {4}
  const MISSING_PILOT: Mask := {5}
  const MISSING_PLANE: Mask := {6}

  /** `WARNINGS`, listed in ascending flag order. */
  const WarningTable: seq<(Mask, string)> := [
    (MISSING_DEPARTURE_TIME, "missing departure time"),
    (MISSING_LANDING_TIME, "missing landing time"),
    (MISSING_DEPARTURE_LOCATION, "missing departure location"),
    (MISSING_LANDING_LOCATION, "missing landing location"),
    (MISSING_LAUNCH_METHOD, "missing launch method"),
    (MISSING_PILOT, "missing pilot"),
    (MISSING_PLANE, "missing plane")]

  const INTERACTIVE := 1
  const IGNORE_ALL_CONFLICTS := 2
  const REJECT_ON_CONFLICT := 3

  /** The operator's answer: 'a', 'r', 's' or 'i'. */
  datatype Reply = Abort | Replace | Skip | Ignore

  // ---------------------------------------------------------------------------------------------
  // `warnings()`.

  /** The messages of the rows of `table` whose flag is in `active`, in table order. */
  function MessagesOf(table: seq<(Mask, string)>, active: Mask): seq<string> {
    if table == [] then []
    else
      var rest := MessagesOf(table[1..], active);
      if table[0].0 * active != {} then [table[0].1] + rest else rest
  }

  /** Every active row's message is yielded, and every message yielded is an active row's. */
  lemma {:induction false} MessagesMembers(table: seq<(Mask, string)>, active: Mask)
    ensures forall i :: 0 <= i < |table| && table[i].0 * active != {} ==> table[i].1 in MessagesOf(table, active)
    ensures forall m :: m in MessagesOf(table, active) ==>
      exists i :: 0 <= i < |table| && table[i].0 * active != {} && table[i].1 == m
  {
    if table != [] {
      var rest := MessagesOf(table[1..], active);
      MessagesMembers(table[1..], active);
      assert forall i :: 1 <= i < |table| ==> table[i] == table[1..][i - 1];
      forall m | m in rest ensures exists i :: 0 <= i < |table| && table[i].0 * active != {} && table[i].1 == m {
        var j :| 0 <= j < |table| - 1 && table[1..][j].0 * active != {} && table[1..][j].1 == m;
        assert table[j + 1] == table[1..][j];
      }
    }
  }

  /** The messages `warnings()` yields for the active flags `active`. */
  function Messages(active: Mask): seq<string> {
    MessagesOf(WarningTable, active)
  }

  /** Turning an enabled flag off and on again gives the enabled mask back. */
  lemma ReEnable(enabled: Mask, flag: Mask)
    requires flag <= enabled
    ensures (enabled - flag) + flag == enabled
  {
  }

  /** Disabling and re-enabling a flag leaves `warnings()` as it was. */
  lemma DisableThenEnable(raised: Mask, enabled: Mask, flag: Mask)
    requires flag <= enabled
    ensures Messages(raised * ((enabled - flag) + flag)) == Messages(raised * enabled)
  {
    ReEnable(enabled, flag);
  }

  /** The table's suffixes, as `MessagesOf` recurses through them. */
  lemma Suffixes()
    ensures WarningTable[0..][1..] == WarningTable[1..]
    ensures WarningTable[1..][1..] == WarningTable[2..]
    ensures WarningTable[2..][1..] == WarningTable[3..]
    ensures WarningTable[3..][1..] == WarningTable[4..]
    ensures WarningTable[4..][1..] == WarningTable[5..]
    ensures WarningTable[5..][1..] == WarningTable[6..]
    ensures WarningTable[6..][1..] == WarningTable[7..]
    ensures WarningTable[0..] == WarningTable && WarningTable[7..] == []
  {
  }

  /** `warnings()` for a given active mask, one row at a time. */
  lemma MessagesChain(active: Mask)
    ensures MessagesOf(WarningTable[0..], active) == (if WarningTable[0].0 * active != {} then [WarningTable[0].1] else []) + MessagesOf(WarningTable[1..], active)
    ensures MessagesOf(WarningTable[1..], active) == (if WarningTable[1].0 * active != {} then [WarningTable[1].1] else []) + MessagesOf(WarningTable[2..], active)
    ensures MessagesOf(WarningTable[2..], active) == (if WarningTable[2].0 * active != {} then [WarningTable[2].1] else []) + MessagesOf(WarningTable[3..], active)
    ensures MessagesOf(WarningTable[3..], active) == (if WarningTable[3].0 * active != {} then [WarningTable[3].1] else []) + MessagesOf(WarningTable[4..], active)
    ensures MessagesOf(WarningTable[4..], active) == (if WarningTable[4].0 * active != {} then [WarningTable[4].1] else []) + MessagesOf(WarningTable[5..], active)
    ensures MessagesOf(WarningTable[5..], active) == (if WarningTable[5].0 * active != {} then [WarningTable[5].1] else []) + MessagesOf(WarningTable[6..], active)
    ensures MessagesOf(WarningTable[6..], active) == (if WarningTable[6].0 * active != {} then [WarningTable[6].1] else []) + MessagesOf(WarningTable[7..], active)
  {
    Suffixes();
  }

  /** The enable/disable round in the handler's unit test: flags 2 and 4 raised, 4 switched off. */
  lemma WarningsExample()
    ensures Messages(ALL * NONE) == []
    ensures Messages(ALL * (MISSING_LANDING_TIME + MISSING_DEPARTURE_LOCATION)) == ["missing landing time", "missing departure location"]
    ensures Messages((ALL - MISSING_DEPARTURE_LOCATION) * (MISSING_LANDING_TIME + MISSING_DEPARTURE_LOCATION)) == ["missing landing time"]
  {
    Suffixes();
    MessagesChain(ALL * NONE);
    MessagesChain(ALL * (MISSING_LANDING_TIME + MISSING_DEPARTURE_LOCATION));
    MessagesChain((ALL - MISSING_DEPARTURE_LOCATION) * (MISSING_LANDING_TIME + MISSING_DEPARTURE_LOCATION));
  }

  // ---------------------------------------------------------------------------------------------
  // `isValid` and `isDuplicate`.

  /** `flag` when `c` holds, no flag otherwise. */
  function FlagIf(c: bool, flag: Mask): Mask {
    if c then flag else NONE
  }

  /** The four checks of `isValid`. */
  predicate MissesDepartureLocation(f: Flight) { !Truthy(f.departureLocation) }
  predicate MissesLandingLocation(f: Flight) { !Truthy(f.landingLocation) }
  predicate MissesDepartureTime(f: Flight) { f.mode != Some("inbound") && f.departureTime.None? }
  predicate MissesLandingTime(f: Flight) { f.mode != Some("outbound") && f.landingTime.None? }

  /** The flags `isValid` raises for a flight. */
  function Raised(f: Flight): (r: Mask)
    ensures r <= MISSING_DEPARTURE_TIME + MISSING_LANDING_TIME + MISSING_DEPARTURE_LOCATION + MISSING_LANDING_LOCATION
  {
    FlagIf(MissesDepartureLocation(f), MISSING_DEPARTURE_LOCATION)
    + FlagIf(MissesLandingLocation(f), MISSING_LANDING_LOCATION)
    + FlagIf(MissesDepartureTime(f), MISSING_DEPARTURE_TIME)
    + FlagIf(MissesLandingTime(f), MISSING_LANDING_TIME)
  }

  /**
   * Both locations are always checked, the departure time unless the flight is inbound and the
   * landing time unless it is outbound; launch method, pilot and plane are never flagged.
   */
  lemma RaisedFlags(f: Flight)
    ensures MISSING_DEPARTURE_LOCATION <= Raised(f) <==> !Truthy(f.departureLocation)
    ensures MISSING_LANDING_LOCATION <= Raised(f) <==> !Truthy(f.landingLocation)
    ensures MISSING_DEPARTURE_TIME <= Raised(f) <==> f.mode != Some("inbound") && f.departureTime.None?
    ensures MISSING_LANDING_TIME <= Raised(f) <==> f.mode != Some("outbound") && f.landingTime.None?
    ensures Raised(f) * (MISSING_LAUNCH_METHOD + MISSING_PILOT + MISSING_PLANE) == {}
  {
  }

  /** `isDuplicate(flight, other)`. */
  predicate IsDuplicate(f: Flight, other: Flight) {
    && f.planeId == other.planeId
    && f.pilotId == other.pilotId
    && f.copilotId == other.copilotId
    && f.mode == other.mode
    && f.flightType == other.flightType
    && f.launchMethodId == other.launchMethodId
    && (f.mode == Some("inbound") || (f.departureTime == other.departureTime && f.departureLocation == other.departureLocation))
    && (f.mode == Some("outbound") || (f.landingTime == other.landingTime && f.landingLocation == other.landingLocation))
  }

  /** Being a duplicate is reflexive and symmetric, and ignores the id and the comments. */
  lemma DuplicateIsEquivalence(f: Flight, g: Flight, id: Option<int>, comments: Option<string>)
    ensures IsDuplicate(f, f)
    ensures IsDuplicate(f, g) <==> IsDuplicate(g, f)
    ensures IsDuplicate(f, g) <==> IsDuplicate(f.(id := id, comments := comments), g)
  {
  }

  /** The loop over the conflicts that looks for an exact duplicate. */
  method AnyDuplicate(f: Flight, conflicts: seq<Flight>) returns (found: bool)
    ensures found <==> exists i :: 0 <= i < |conflicts| && IsDuplicate(f, conflicts[i])
  {
    for i := 0 to |conflicts|
      invariant forall j :: 0 <= j < i ==> !IsDuplicate(f, conflicts[j])
    {
      if IsDuplicate(f, conflicts[i]) {
        return true;
      }
    }
    return false;
  }

  predicate HasDuplicate(f: Flight, conflicts: seq<Flight>) {
    exists i :: 0 <= i < |conflicts| && IsDuplicate(f, conflicts[i])
  }

  // ---------------------------------------------------------------------------------------------
  // What a call decides and what it does to the `flights` table.

  /** `filter="id > '{id}'"`: a candidate without an id ('None', read as 0) sees every positive id. */
  function AboveId(id: Option<int>): Flight -> bool {
    (s: Flight) => s.id.Some? && s.id.value > IdValue(id)
  }

  /** The conflicts of a candidate: the similar flights with a larger id, in id order. */
  function Conflicts(rows: map<int, Flight>, f: Flight): seq<Flight> {
    Query(rows, SimilarTo(f, AboveId(f.id)))
  }

  /** The conflicts' `id` attributes. */
  function IdsOf(cs: seq<Flight>): (r: seq<int>)
    ensures |r| == |cs|
    ensures forall i :: 0 <= i < |cs| ==> r[i] == IdValue(cs[i].id)
  {
    if cs == [] then []
    else
      var rest := IdsOf(cs[1..]);
      var r := [IdValue(cs[0].id)] + rest;
      assert forall i :: 0 < i < |cs| ==> r[i] == rest[i - 1] && cs[i] == cs[1..][i - 1];
      r
  }

  /** How a call ends for the candidate. */
  datatype Outcome = Aborted | Skipped | Kept | Replaced

  /** The answer to a candidate with active warnings, or None to go on to the conflicts. */
  function WarningStep(mode: int, reply: Reply): Option<Outcome> {
    if mode == INTERACTIVE then
      match reply
      case Abort => Some(Aborted)
      case Skip => Some(Skipped)
      case _ => None
    else if mode == REJECT_ON_CONFLICT then Some(Skipped)
    else None
  }

  /** `handleConflicts`: nothing to do without conflicts, a duplicate is always skipped. */
  function ConflictStep(mode: int, f: Flight, cs: seq<Flight>, reply: Reply): Outcome {
    if cs == [] then Kept
    else if HasDuplicate(f, cs) then Skipped
    else if mode == INTERACTIVE then
      match reply
      case Abort => Aborted
      case Replace => Replaced
      case Skip => Skipped
      case Ignore => Kept
    else if mode == REJECT_ON_CONFLICT then Skipped
    else Kept
  }

  /** Whether a candidate gets past its warnings (`clean`: no enabled flag raised) to the conflicts. */
  predicate ReachesConflicts(mode: int, clean: bool, warningReply: Reply) {
    clean || WarningStep(mode, warningReply).None?
  }

  /** The outcome of `handler(rec)` for a flight with conflicts `cs`. */
  function Decide(mode: int, clean: bool, f: Flight, cs: seq<Flight>, warningReply: Reply, conflictReply: Reply): Outcome {
    if !ReachesConflicts(mode, clean, warningReply) then WarningStep(mode, warningReply).value
    else ConflictStep(mode, f, cs, conflictReply)
  }

  /** The outcome of `handler(rec)` from the state before the call: the conflicts it searches
      are those of the table at that moment. */
  function CallOutcome(mode: int, enabled: Mask, rows: map<int, Flight>, f: Flight, warningReply: Reply,
                       conflictReply: Reply): Outcome {
    Decide(mode, Raised(f) * enabled == {}, f, Conflicts(rows, f), warningReply, conflictReply)
  }

  /** The candidate after `replaceConflicts`: one without an id takes the first conflict's. */
  function Replacement(f: Flight, cs: seq<Flight>): Flight {
    if TruthyId(f.id) || cs == [] then f else f.(id := cs[0].id)
  }

  /** The conflicts `replaceConflicts` deletes: all of them, or all but the first it reuses. */
  function Doomed(f: Flight, cs: seq<Flight>): seq<int> {
    if TruthyId(f.id) || cs == [] then IdsOf(cs) else IdsOf(cs[1..])
  }

  /** The table after `skipCandidate`. */
  function SkipRows(t: FlightTable, f: Flight): FlightTable {
    if TruthyId(f.id) then FlightTable(Without(t.rows, [f.id.value]), t.nextId) else t
  }

  /** The candidate left at the end. */
  function CandidateAfter(o: Outcome, f: Flight, cs: seq<Flight>): Option<Flight> {
    match o
    case Aborted => None
    case Skipped => None
    case Kept => Some(f)
    case Replaced => Some(Replacement(f, cs))
  }

  /** What `nInserted` grows by. */
  function InsertedBy(o: Outcome, f: Flight): int {
    if o == Replaced && !TruthyId(f.id) then 1 else 0
  }

  /** What `nDeleted` grows by. */
  function DeletedBy(o: Outcome, f: Flight, cs: seq<Flight>): int {
    match o
    case Replaced => |cs|
    case Skipped => if TruthyId(f.id) then 1 else 0
    case _ => 0
  }

  /** The table once the conflicts are settled, before the candidate is inserted. */
  function Settled(o: Outcome, t: FlightTable, f: Flight, cs: seq<Flight>): FlightTable {
    match o
    case Replaced => FlightTable(Without(t.rows, Doomed(f, cs)), t.nextId)
    case Skipped => SkipRows(t, f)
    case _ => t
  }

  /** The table after a call: a candidate still live is force-upserted once. */
  function Effect(o: Outcome, t: FlightTable, f: Flight, cs: seq<Flight>): FlightTable {
    var s := Settled(o, t, f, cs);
    match CandidateAfter(o, f, cs)
    case Some(c) => InsertRow(s, c, true)
    case None => s
  }

  /** A skipped or aborted candidate is never inserted: at most its own row goes, nothing is added. */
  lemma SkipNeverInserts(o: Outcome, t: FlightTable, f: Flight, cs: seq<Flight>)
    requires o == Skipped || o == Aborted
    ensures Effect(o, t, f, cs).rows.Keys <= t.rows.Keys
    ensures forall k :: k in Effect(o, t, f, cs).rows ==> Effect(o, t, f, cs).rows[k] == t.rows[k]
    ensures Effect(o, t, f, cs).nextId == t.nextId
    ensures o == Aborted || !TruthyId(f.id) ==> Effect(o, t, f, cs) == t
  {
  }

  /** A kept candidate is upserted under its own id, or under a fresh one, and nothing else changes. */
  lemma KeptIsUpserted(t: FlightTable, f: Flight, cs: seq<Flight>)
    requires ValidTable(t)
    ensures ValidTable(Effect(Kept, t, f, cs))
    ensures Effect(Kept, t, f, cs).rows[RowKey(t, f)] == f.(id := Some(RowKey(t, f)))
    ensures forall k :: k in t.rows && k != RowKey(t, f) ==> Effect(Kept, t, f, cs).rows[k] == t.rows[k]
  {
    InsertRowEffect(t, f, true);
  }

  /** Rows read back from a valid table carry the ids they were read under. */
  lemma IdsOfRows(t: FlightTable, ids: seq<int>)
    requires ValidTable(t) && forall i :: 0 <= i < |ids| ==> ids[i] in t.rows
    ensures IdsOf(RowsOf(t.rows, ids)) == ids
  {
    var rs := RowsOf(t.rows, ids);
    forall i | 0 <= i < |ids| ensures IdsOf(rs)[i] == ids[i] {
      assert rs[i] == t.rows[ids[i]];
    }
  }

  /** The conflicts are rows of the table, under their own ids, in ascending id order. */
  lemma ConflictIds(t: FlightTable, f: Flight)
    requires ValidTable(t)
    ensures IdsOf(Conflicts(t.rows, f)) == QueryIds(t.rows, SimilarTo(f, AboveId(f.id)))
  {
    var ids := QueryIds(t.rows, SimilarTo(f, AboveId(f.id)));
    assert forall i :: 0 <= i < |ids| ==> ids[i] in ids;
    IdsOfRows(t, ids);
  }

  /** Every conflict is a similar stored flight with an id above the candidate's. */
  lemma ConflictsAreSimilar(t: FlightTable, f: Flight)
    requires ValidTable(t)
    ensures forall k :: k in IdsOf(Conflicts(t.rows, f)) ==> k in t.rows && k > IdValue(f.id) && Similar(t.rows[k], f)
  {
    ConflictIds(t, f);
  }

  /** `cs` are rows of `t`, each under its own id. */
  predicate Stored(t: FlightTable, cs: seq<Flight>) {
    forall i :: 0 <= i < |cs| ==> cs[i].id.Some? && cs[i].id.value in t.rows && t.rows[cs[i].id.value] == cs[i]
  }

  /** Rows read from a valid table are stored rows. */
  lemma RowsStored(t: FlightTable, ids: seq<int>)
    requires ValidTable(t) && forall i :: 0 <= i < |ids| ==> ids[i] in t.rows
    ensures Stored(t, RowsOf(t.rows, ids))
  {
    var rs := RowsOf(t.rows, ids);
    forall i | 0 <= i < |rs| ensures rs[i].id.Some? && rs[i].id.value in t.rows && t.rows[rs[i].id.value] == rs[i] {
      var k := ids[i];
      assert rs[i] == t.rows[k] && t.rows[k].id == Some(k);
    }
  }

  /** The conflicts are stored rows. */
  lemma ConflictsStored(t: FlightTable, f: Flight)
    requires ValidTable(t)
    ensures Stored(t, Conflicts(t.rows, f))
  {
    var ids := QueryIds(t.rows, SimilarTo(f, AboveId(f.id)));
    assert forall i :: 0 <= i < |ids| ==> ids[i] in ids;
    RowsStored(t, ids);
  }

  /**
   * After a replacement no conflict is left in the table except the one reused for a candidate
   * without an id, which now holds the candidate.
   */
  lemma ReplaceLeavesNoConflict(t: FlightTable, f: Flight, cs: seq<Flight>)
    requires ValidTable(t) && Stored(t, cs) && cs != []
    ensures ValidTable(Effect(Replaced, t, f, cs))
    ensures forall k :: k in IdsOf(cs) && k != RowKey(t, Replacement(f, cs)) ==> k !in Effect(Replaced, t, f, cs).rows
    ensures var c := Replacement(f, cs);
      RowKey(t, c) in Effect(Replaced, t, f, cs).rows
      && Effect(Replaced, t, f, cs).rows[RowKey(t, c)] == c.(id := Some(RowKey(t, c)))
  {
    var c := Replacement(f, cs);
    var t' := Settled(Replaced, t, f, cs);
    assert ValidTable(t');
    assert RowKey(t', c) == RowKey(t, c);
    InsertRowEffect(t', c, true);
    if !TruthyId(f.id) {
      forall k | k in IdsOf(cs) && k != RowKey(t, c) ensures k in Doomed(f, cs) {
        var i :| 0 <= i < |IdsOf(cs)| && IdsOf(cs)[i] == k;
        assert i > 0 && IdsOf(cs[1..])[i - 1] == k;
      }
    }
  }

  /** Whoever asks, a candidate that duplicates one of its conflicts is skipped. */
  lemma DuplicateIsSkipped(mode: int, clean: bool, f: Flight, cs: seq<Flight>, w: Reply, c: Reply)
    requires ReachesConflicts(mode, clean, w) && HasDuplicate(f, cs)
    ensures Decide(mode, clean, f, cs, w, c) == Skipped
  {
  }

  /** REJECT_ON_CONFLICT keeps exactly the candidates without active warnings and without conflicts. */
  lemma RejectKeepsOnlyClean(clean: bool, f: Flight, cs: seq<Flight>, w: Reply, c: Reply)
    ensures Decide(REJECT_ON_CONFLICT, clean, f, cs, w, c) in {Kept, Skipped}
    ensures Decide(REJECT_ON_CONFLICT, clean, f, cs, w, c) == Kept <==> clean && cs == []
  {
  }

  /** IGNORE_ALL_CONFLICTS imports every candidate that is not a duplicate, and skips the rest. */
  lemma IgnoreKeepsAll(clean: bool, f: Flight, cs: seq<Flight>, w: Reply, c: Reply)
    ensures Decide(IGNORE_ALL_CONFLICTS, clean, f, cs, w, c) == (if HasDuplicate(f, cs) then Skipped else Kept)
  {
  }

  /** Without active warnings and without conflicts a candidate is imported in every mode. */
  lemma CleanIsKept(mode: int, f: Flight, w: Reply, c: Reply)
    ensures Decide(mode, true, f, [], w, c) == Kept
  {
  }

  /** Only an interactive abort ends a call with an error. */
  lemma OnlyInteractiveAborts(mode: int, clean: bool, f: Flight, cs: seq<Flight>, w: Reply, c: Reply)
    ensures Decide(mode, clean, f, cs, w, c) == Aborted ==> mode == INTERACTIVE && (w == Abort || c == Abort)
    ensures Decide(mode, clean, f, cs, w, c) == Replaced ==> mode == INTERACTIVE && c == Replace && cs != []
  {
  }

  // ---------------------------------------------------------------------------------------------
  // The handler.

  class ConflictHandler {
    const mode: int
    const db: Store
    var enabled: Mask
    var warnings: Mask
    var nInserted: int
    var nDeleted: int
    var candidate: Option<Flight>
    var conflicts: seq<Flight>

    /** A fresh handler: every warning enabled, none raised, no counts, no candidate. */
    constructor(db: Store, mode: int)
      ensures this.db == db && this.mode == mode
      ensures enabled == ALL && warnings == NONE && nInserted == 0 && nDeleted == 0
      ensures candidate.None? && conflicts == []
    {
      this.db := db;
      this.mode := mode;
      enabled := ALL;
      warnings := NONE;
      nInserted := 0;
      nDeleted := 0;
      candidate := None;
      conflicts := [];
    }

    /** `addWarning`: ORs a flag into the raised mask. */
    method AddWarning(warning: Mask)
      modifies this
      ensures warnings == old(warnings) + warning
      ensures enabled == old(enabled) && nInserted == old(nInserted) && nDeleted == old(nDeleted)
      ensures candidate == old(candidate) && conflicts == old(conflicts)
    {
      warnings := warnings + warning;
    }

    /** `enableWarning`: changes only the enabled mask. */
    method EnableWarning(warning: Mask)
      modifies this
      ensures enabled == old(enabled) + warning
      ensures warnings == old(warnings) && nInserted == old(nInserted) && nDeleted == old(nDeleted)
      ensures candidate == old(candidate) && conflicts == old(conflicts)
    {
      enabled := enabled + warning;
    }

    /** `disableWarning`: changes only the enabled mask. */
    method DisableWarning(warning: Mask)
      modifies this
      ensures enabled == old(enabled) - warning
      ensures warnings == old(warnings) && nInserted == old(nInserted) && nDeleted == old(nDeleted)
      ensures candidate == old(candidate) && conflicts == old(conflicts)
    {
      enabled := enabled - warning;
    }

    /** `hasWarnings`: some raised flag is enabled. */
    predicate HasWarnings()
      reads this
    {
      warnings * enabled != {}
    }

    /** `warnings()`. */
    function ActiveWarnings(): seq<string>
      reads this
    {
      Messages(enabled * warnings)
    }

    /** `isValid(flight)`: raises the flags of what is missing, true iff none is enabled. */
    method IsValid(f: Flight) returns (valid: bool)
      modifies this
      ensures warnings == old(warnings) + Raised(f)
      ensures valid <==> !HasWarnings()
      ensures enabled == old(enabled) && nInserted == old(nInserted) && nDeleted == old(nDeleted)
      ensures candidate == old(candidate) && conflicts == old(conflicts)
    {
      if MissesDepartureLocation(f) {
        AddWarning(MISSING_DEPARTURE_LOCATION);
      }
      if MissesLandingLocation(f) {
        AddWarning(MISSING_LANDING_LOCATION);
      }
      if MissesDepartureTime(f) {
        AddWarning(MISSING_DEPARTURE_TIME);
      }
      if MissesLandingTime(f) {
        AddWarning(MISSING_LANDING_TIME);
      }
      return !HasWarnings();
    }

    /** `abort`: drops the candidate and raises. */
    method Abort() returns (r: Result<()>)
      modifies this
      ensures r == Err(RuntimeError("Program aborted by user."))
      ensures candidate.None?
      ensures enabled == old(enabled) && warnings == old(warnings)
      ensures nInserted == old(nInserted) && nDeleted == old(nDeleted) && conflicts == old(conflicts)
    {
      candidate := None;
      return Err(RuntimeError("Program aborted by user."));
    }

    /** `skipCandidate`: deletes a candidate with an id and counts it; no candidate afterwards. */
    method SkipCandidate()
      requires db.Valid()
      modifies this, db
      ensures db.Valid()
      ensures candidate.None?
      ensures old(candidate).Some? ==> db.Contents() == SkipRows(old(db.Contents()), old(candidate).value)
      ensures old(candidate).None? ==> db.Contents() == old(db.Contents())
      ensures nDeleted == old(nDeleted) + (if old(candidate).Some? && TruthyId(old(candidate).value.id) then 1 else 0)
      ensures enabled == old(enabled) && warnings == old(warnings)
      ensures nInserted == old(nInserted) && conflicts == old(conflicts)
    {
      if candidate.Some? && TruthyId(candidate.value.id) {
        db.DeleteById([candidate.value.id.value]);
        nDeleted := nDeleted + 1;
      }
      candidate := None;
    }

    /**
     * `replaceConflicts` as intended: a candidate without an id takes the first conflict's id,
     * counts as inserted and keeps that row; every other conflict is deleted, and `nDeleted`
     * grows by the number of conflicts either way.
     */
    method ReplaceConflicts()
      requires db.Valid() && candidate.Some? && conflicts != []
      modifies this, db
      ensures db.Valid()
      ensures candidate == Some(Replacement(old(candidate).value, conflicts))
      ensures db.Contents() == Settled(Replaced, old(db.Contents()), old(candidate).value, conflicts)
      ensures nInserted == old(nInserted) + InsertedBy(Replaced, old(candidate).value)
      ensures nDeleted == old(nDeleted) + |conflicts|
      ensures enabled == old(enabled) && warnings == old(warnings) && conflicts == old(conflicts)
    {
      var i0 := 0;
      if !TruthyId(candidate.value.id) {
        candidate := Some(candidate.value.(id := conflicts[0].id));
        nInserted := nInserted + 1;
        i0 := 1;
      }
      assert conflicts[0..] == conflicts;
      db.DeleteById(IdsOf(conflicts[i0..]));
      nDeleted := nDeleted + |conflicts|;
    }

    /**
     * `replaceConflicts` as written: for a candidate without an id, line 260 reads the attributes
     * `self.candidate` and `self.conflicts`, which do not exist, and raises AttributeError before
     * anything changes.
     */
    method ReplaceConflictsAsWritten() returns (r: Result<()>)
      requires db.Valid() && candidate.Some? && conflicts != []
      modifies this, db
      ensures db.Valid()
      ensures !TruthyId(old(candidate).value.id) <==> r == Err(AttributeError("candidate"))
      ensures r.Err? ==> db.Contents() == old(db.Contents()) && candidate == old(candidate) && nInserted == old(nInserted)
      ensures r.Ok? ==> db.flights == Without(old(db.flights), IdsOf(conflicts)) && nDeleted == old(nDeleted) + |conflicts|
      ensures r.Ok? ==> candidate == old(candidate) && nInserted == old(nInserted)
    {
      if !TruthyId(candidate.value.id) {
        return Err(AttributeError("candidate"));
      }
      db.DeleteById(IdsOf(conflicts));
      nDeleted := nDeleted + |conflicts|;
      return Ok(());
    }

    /** The effect of the operator's reply to a conflict (`self._actions[reply]()`). */
    method Act(f: Flight, reply: Reply) returns (r: Result<()>)
      requires db.Valid() && candidate == Some(f) && conflicts != [] && !HasDuplicate(f, conflicts)
      modifies this, db
      ensures db.Valid()
      ensures var o := ConflictStep(INTERACTIVE, f, conflicts, reply);
        && (r.Err? <==> o == Aborted)
        && (r.Err? ==> r == Err(RuntimeError("Program aborted by user.")))
        && db.Contents() == Settled(o, old(db.Contents()), f, conflicts)
        && candidate == CandidateAfter(o, f, conflicts)
        && nInserted == old(nInserted) + InsertedBy(o, f)
        && nDeleted == old(nDeleted) + DeletedBy(o, f, conflicts)
      ensures enabled == old(enabled) && warnings == old(warnings) && conflicts == old(conflicts)
    {
      match reply
      case Abort => r := Abort();
      case Replace => ReplaceConflicts(); r := Ok(());
      case Skip => SkipCandidate(); r := Ok(());
      case Ignore => r := Ok(());
    }

    /** What `handleConflicts` does once the conflicts are known. */
    method Resolve(f: Flight, reply: Reply) returns (r: Result<()>)
      requires db.Valid() && candidate == Some(f)
      modifies this, db
      ensures db.Valid()
      ensures var o := ConflictStep(mode, f, conflicts, reply);
        && (r.Err? <==> o == Aborted)
        && (r.Err? ==> r == Err(RuntimeError("Program aborted by user.")))
        && db.Contents() == Settled(o, old(db.Contents()), f, conflicts)
        && candidate == CandidateAfter(o, f, conflicts)
        && nInserted == old(nInserted) + InsertedBy(o, f)
        && nDeleted == old(nDeleted) + DeletedBy(o, f, conflicts)
      ensures enabled == old(enabled) && warnings == old(warnings) && conflicts == old(conflicts)
    {
      if conflicts == [] {
        return Ok(());
      }
      var duplicate := AnyDuplicate(f, conflicts);
      if duplicate {
        SkipCandidate();
        return Ok(());
      }
      if mode == INTERACTIVE {
        r := Act(f, reply);
      } else if mode == REJECT_ON_CONFLICT {
        SkipCandidate();
        r := Ok(());
      } else {
        r := Ok(());
      }
    }

    /** `handleConflicts(flight)` for the current candidate's flight. */
    method HandleConflicts(f: Flight, reply: Reply) returns (r: Result<()>)
      requires db.Valid() && candidate == Some(f)
      modifies this, db
      ensures db.Valid()
      ensures conflicts == Conflicts(old(db.flights), f)
      ensures var o := ConflictStep(mode, f, conflicts, reply);
        && (r.Err? <==> o == Aborted)
        && (r.Err? ==> r == Err(RuntimeError("Program aborted by user.")))
        && db.Contents() == Settled(o, old(db.Contents()), f, conflicts)
        && candidate == CandidateAfter(o, f, conflicts)
        && nInserted == old(nInserted) + InsertedBy(o, f)
        && nDeleted == old(nDeleted) + DeletedBy(o, f, conflicts)
      ensures enabled == old(enabled) && warnings == old(warnings)
    {
      conflicts := Conflicts(db.flights, f);
      r := Resolve(f, reply);
    }

    /** The warning part of `handler(rec)`: what happens to a candidate that is not valid. */
    method CheckCandidate(f: Flight, reply: Reply) returns (r: Result<()>)
      requires db.Valid() && reply != Replace
      modifies this, db
      ensures db.Valid()
      ensures warnings == Raised(f) && enabled == old(enabled) && conflicts == old(conflicts)
      ensures var clean := Raised(f) * enabled == {};
        if ReachesConflicts(mode, clean, reply) then
          r.Ok? && candidate == Some(f) && db.Contents() == old(db.Contents())
          && nInserted == old(nInserted) && nDeleted == old(nDeleted)
        else
          var o := WarningStep(mode, reply).value;
          && (r.Err? <==> o == Aborted)
          && (r.Err? ==> r == Err(RuntimeError("Program aborted by user.")))
          && candidate.None?
          && db.Contents() == Settled(o, old(db.Contents()), f, [])
          && nInserted == old(nInserted) && nDeleted == old(nDeleted) + DeletedBy(o, f, [])
    {
      candidate := Some(f);
      warnings := NONE;
      var valid := IsValid(f);
      assert warnings == Raised(f);
      r := Ok(());
      if !valid {
        if mode == INTERACTIVE {
          match reply
          case Abort => r := Abort();
          case Skip => SkipCandidate();
          case Ignore =>
        } else if mode == REJECT_ON_CONFLICT {
          SkipCandidate();
        }
      }
    }

    /** The rest of `handler(rec)` for a candidate past its warnings: conflicts, then the upsert. */
    method Proceed(f: Flight, reply: Reply) returns (r: Result<()>)
      requires db.Valid() && candidate == Some(f)
      modifies this, db
      ensures db.Valid()
      ensures conflicts == Conflicts(old(db.flights), f)
      ensures var o := ConflictStep(mode, f, conflicts, reply);
        && (r.Err? <==> o == Aborted)
        && (r.Err? ==> r == Err(RuntimeError("Program aborted by user.")))
        && db.Contents() == Effect(o, old(db.Contents()), f, conflicts)
        && candidate == CandidateAfter(o, f, conflicts)
        && nInserted == old(nInserted) + InsertedBy(o, f)
        && nDeleted == old(nDeleted) + DeletedBy(o, f, conflicts)
      ensures enabled == old(enabled) && warnings == old(warnings)
    {
      r := HandleConflicts(f, reply);
      if candidate.Some? {
        ghost var settled := db.Contents();
        db.Insert([candidate.value], true);
        assert [candidate.value][1..] == [];
        assert db.Contents() == InsertRow(settled, candidate.value, true);
      }
    }

    /**
     * `handler(rec)` for the record's flight `f`: resets the raised flags, checks the flight,
     * settles its conflicts and force-upserts the candidate that is still live. When the
     * warnings end the call, the conflicts are not searched and the outcome does not depend on them.
     */
    method Call(f: Flight, warningReply: Reply, conflictReply: Reply) returns (r: Result<()>)
      requires db.Valid() && warningReply != Replace
      modifies this, db
      ensures db.Valid()
      ensures warnings == Raised(f) && enabled == old(enabled)
      ensures var clean := Raised(f) * enabled == {};
        if ReachesConflicts(mode, clean, warningReply) then conflicts == Conflicts(old(db.flights), f)
        else conflicts == old(conflicts)
      ensures var o := Decide(mode, Raised(f) * enabled == {}, f, conflicts, warningReply, conflictReply);
        && (r.Err? <==> o == Aborted)
        && (r.Err? ==> r == Err(RuntimeError("Program aborted by user.")))
        && db.Contents() == Effect(o, old(db.Contents()), f, conflicts)
        && candidate == CandidateAfter(o, f, conflicts)
        && nInserted == old(nInserted) + InsertedBy(o, f)
        && nDeleted == old(nDeleted) + DeletedBy(o, f, conflicts)
      ensures var o := CallOutcome(mode, old(enabled), old(db.flights), f, warningReply, conflictReply);
        && (r.Err? <==> o == Aborted)
        && db.Contents() == Effect(o, old(db.Contents()), f, Conflicts(old(db.flights), f))
    {
      r := CheckCandidate(f, warningReply);
      if candidate.None? {
        return;
      }
      r := Proceed(f, conflictReply);
    }
  }
}
