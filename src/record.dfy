/**
 * One imported flight with its participants (pysk/db/record.py): the flight row
 * and the plane, pilot, copilot, towplane, towpilot and launch-method objects it
 * refers to, and the step that copies the resolved ids into the flight.
 */
module Records {
  import opened Wrappers
  import opened Strs
  import opened Flights
  import Pilots
  import Airplanes
  import LaunchMethods

  /** A record. `copilotId`, `towflightLandingLocation` and `towflightLandingTime` are
      the attributes the source sets on the record object itself (not on its flight);
      `None` stands for an attribute that was never set. */
  datatype Record = Record(
    flight: Flight,
    plane: Airplanes.Airplane,
    pilot: Pilots.Pilot,
    copilot: Pilots.Pilot,
    towplane: Airplanes.Airplane,
    towpilot: Pilots.Pilot,
    launchMethod: LaunchMethods.LaunchMethod,
    copilotId: Option<int>,
    towflightLandingLocation: Option<string>,
    towflightLandingTime: Option<int>)

  /** The trigger of the airtow inference: a towplane registration, both towpilot names,
      or a towplane registration on the launch method. */
  predicate TowEvidence(towplane: Airplanes.Airplane, towpilot: Pilots.Pilot, m: LaunchMethods.LaunchMethod) {
    Truthy(towplane.registration) || (Truthy(towpilot.firstName) && Truthy(towpilot.lastName))
    || Truthy(m.towplaneRegistration)
  }

  /** The launch method after the constructor's two adjustments. */
  function AdjustLaunchMethod(m: LaunchMethods.LaunchMethod, towplane: Airplanes.Airplane, towpilot: Pilots.Pilot)
    : LaunchMethods.LaunchMethod
  {
    var typed := if !Truthy(m.kind) && TowEvidence(towplane, towpilot, m) then m.(kind := Some("airtow")) else m;
    if typed.kind == Some("airtow") && !Truthy(typed.towplaneRegistration)
    then typed.(towplaneRegistration := towplane.registration)
    else typed
  }

  /** `Record(...)`: a missing participant becomes an empty stub, an untyped launch method
      with evidence of a towplane becomes "airtow", and an airtow method without its own
      towplane registration takes the towplane's. */
  function MakeRecord(flight: Option<Flight>, plane: Option<Airplanes.Airplane>, pilot: Option<Pilots.Pilot>,
                      copilot: Option<Pilots.Pilot>, towplane: Option<Airplanes.Airplane>,
                      towpilot: Option<Pilots.Pilot>, launchMethod: Option<LaunchMethods.LaunchMethod>): (r: Record)
    ensures r.flight == flight.GetOr(NewFlight()) && r.plane == plane.GetOr(Airplanes.NewAirplane())
    ensures r.pilot == pilot.GetOr(Pilots.NewPilot()) && r.copilot == copilot.GetOr(Pilots.NewPilot())
    ensures r.towplane == towplane.GetOr(Airplanes.NewAirplane()) && r.towpilot == towpilot.GetOr(Pilots.NewPilot())
    ensures r.copilotId.None? && r.towflightLandingLocation.None? && r.towflightLandingTime.None?
    ensures var m := launchMethod.GetOr(LaunchMethods.NewLaunchMethod());
      && (r.launchMethod.kind == Some("airtow") <==>
            m.kind == Some("airtow") || (!Truthy(m.kind) && TowEvidence(r.towplane, r.towpilot, m)))
      && (r.launchMethod.kind != Some("airtow") ==> r.launchMethod == m)
      && (r.launchMethod.kind == Some("airtow") ==>
            r.launchMethod.towplaneRegistration ==
              (if Truthy(m.towplaneRegistration) then m.towplaneRegistration else r.towplane.registration))
      && r.launchMethod.(kind := m.kind, towplaneRegistration := m.towplaneRegistration) == m
  {
    var tp := towplane.GetOr(Airplanes.NewAirplane());
    var tpilot := towpilot.GetOr(Pilots.NewPilot());
    Record(flight.GetOr(NewFlight()), plane.GetOr(Airplanes.NewAirplane()), pilot.GetOr(Pilots.NewPilot()),
           copilot.GetOr(Pilots.NewPilot()), tp, tpilot,
           AdjustLaunchMethod(launchMethod.GetOr(LaunchMethods.NewLaunchMethod()), tp, tpilot),
           None, None, None)
  }

  /** Building a record from the parts of a constructed record changes nothing: the
      constructor's adjustments are already in place. */
  lemma MakeRecordStable(flight: Option<Flight>, plane: Option<Airplanes.Airplane>, pilot: Option<Pilots.Pilot>,
                         copilot: Option<Pilots.Pilot>, towplane: Option<Airplanes.Airplane>,
                         towpilot: Option<Pilots.Pilot>, launchMethod: Option<LaunchMethods.LaunchMethod>)
    ensures var r := MakeRecord(flight, plane, pilot, copilot, towplane, towpilot, launchMethod);
      MakeRecord(Some(r.flight), Some(r.plane), Some(r.pilot), Some(r.copilot), Some(r.towplane),
                 Some(r.towpilot), Some(r.launchMethod)) == r
  {
    var r := MakeRecord(flight, plane, pilot, copilot, towplane, towpilot, launchMethod);
    var m := launchMethod.GetOr(LaunchMethods.NewLaunchMethod());
    if !Truthy(r.launchMethod.kind) {
      assert r.launchMethod == m;
    }
  }

  /** The participants `updateFlight` resolves, by their attribute name. */
  datatype Param = PilotParam | PlaneParam | LaunchMethodParam | TowplaneParam | TowpilotParam | CopilotParam

  function ParamName(p: Param): string {
    match p
    case PilotParam => "pilot"
    case PlaneParam => "plane"
    case LaunchMethodParam => "launch_method"
    case TowplaneParam => "towplane"
    case TowpilotParam => "towpilot"
    case CopilotParam => "copilot"
  }

  /** `s.replace("_", " ")`. */
  function Spaced(s: string): (r: string)
    ensures |r| == |s| && forall i :: 0 <= i < |s| ==> r[i] == (if s[i] == '_' then ' ' else s[i])
  {
    seq(|s|, i requires 0 <= i < |s| => if s[i] == '_' then ' ' else s[i])
  }

  /** `getattr(self, param).id`. */
  function ParamId(r: Record, p: Param): Option<int> {
    match p
    case PilotParam => r.pilot.id
    case PlaneParam => r.plane.id
    case LaunchMethodParam => r.launchMethod.id
    case TowplaneParam => r.towplane.id
    case TowpilotParam => r.towpilot.id
    case CopilotParam => r.copilot.id
  }

  /** `str(getattr(self, param))`. */
  function ParamText(r: Record, p: Param): string {
    match p
    case PilotParam => Pilots.Str(r.pilot)
    case PlaneParam => Airplanes.Str(r.plane)
    case LaunchMethodParam => LaunchMethods.Str(r.launchMethod)
    case TowplaneParam => Airplanes.Str(r.towplane)
    case TowpilotParam => Pilots.Str(r.towpilot)
    case CopilotParam => Pilots.Str(r.copilot)
  }

  /** The participant as the messages name it: its attribute name with `_` spaced. */
  function Label(p: Param): (r: string)
    ensures r == Spaced(ParamName(p))
  {
    match p
    case PilotParam => "pilot"
    case PlaneParam => "plane"
    case LaunchMethodParam => assert Spaced("launch_method") == "launch method"; "launch method"
    case TowplaneParam => "towplane"
    case TowpilotParam => "towpilot"
    case CopilotParam => "copilot"
  }

  /** The message of `_setFlightParameter` for a participant without an id. */
  function UnknownMessage(r: Record, p: Param): string {
    "Unknown " + Label(p) + ": '" + ParamText(r, p) + "'"
  }

  /** The six id columns of a flight that `updateFlight` writes. */
  datatype Ids = Ids(pilot: Option<int>, plane: Option<int>, launchMethod: Option<int>,
                     towplane: Option<int>, towpilot: Option<int>, copilot: Option<int>)

  function IdsOf(f: Flight): Ids {
    Ids(f.pilotId, f.planeId, f.launchMethodId, f.towplaneId, f.towpilotId, f.copilotId)
  }

  /** The flight with its id columns replaced. */
  function WithIds(f: Flight, ids: Ids): (r: Flight)
    ensures IdsOf(r) == ids
    ensures r.(pilotId := f.pilotId, planeId := f.planeId, launchMethodId := f.launchMethodId,
               towplaneId := f.towplaneId, towpilotId := f.towpilotId, copilotId := f.copilotId) == f
  {
    f.(pilotId := ids.pilot, planeId := ids.plane, launchMethodId := ids.launchMethod,
       towplaneId := ids.towplane, towpilotId := ids.towpilot, copilotId := ids.copilot)
  }

  /** The id column `updateFlight` writes for a participant. */
  function Column(ids: Ids, p: Param): Option<int> {
    match p
    case PilotParam => ids.pilot
    case PlaneParam => ids.plane
    case LaunchMethodParam => ids.launchMethod
    case TowplaneParam => ids.towplane
    case TowpilotParam => ids.towpilot
    case CopilotParam => ids.copilot
  }

  /** `setattr(self.flight, param + '_id', id)`. */
  function SetId(ids: Ids, p: Param, id: Option<int>): Ids {
    match p
    case PilotParam => ids.(pilot := id)
    case PlaneParam => ids.(plane := id)
    case LaunchMethodParam => ids.(launchMethod := id)
    case TowplaneParam => ids.(towplane := id)
    case TowpilotParam => ids.(towpilot := id)
    case CopilotParam => ids.(copilot := id)
  }

  predicate Resolved(r: Record, p: Param) {
    TruthyId(ParamId(r, p))
  }

  /** The column of `q` once `_setFlightParameter` has handled the listed participants. */
  function Pick(ids: Ids, r: Record, ps: seq<Param>, q: Param): Option<int> {
    if q in ps && Resolved(r, q) then ParamId(r, q) else Column(ids, q)
  }

  /** `_setFlightParameter` over a list: the id column of every listed participant that has
      an id holds that id; every other column keeps its value. */
  function Fill(ids: Ids, r: Record, ps: seq<Param>): Ids {
    Ids(Pick(ids, r, ps, PilotParam), Pick(ids, r, ps, PlaneParam), Pick(ids, r, ps, LaunchMethodParam),
        Pick(ids, r, ps, TowplaneParam), Pick(ids, r, ps, TowpilotParam), Pick(ids, r, ps, CopilotParam))
  }

  /** The first participant of the list without an id: the one a critical check reports. */
  function FirstUnresolved(r: Record, ps: seq<Param>): Option<Param>
    decreases |ps|
  {
    if ps == [] then None
    else if !Resolved(r, ps[0]) then Some(ps[0])
    else FirstUnresolved(r, ps[1..])
  }

  /** The first unresolved participant is listed and unresolved, and there is none exactly
      when every listed participant is resolved. */
  lemma {:induction false} FirstUnresolvedSpec(r: Record, ps: seq<Param>)
    ensures FirstUnresolved(r, ps).None? <==> forall i :: 0 <= i < |ps| ==> Resolved(r, ps[i])
    ensures FirstUnresolved(r, ps).Some? ==> FirstUnresolved(r, ps).value in ps && !Resolved(r, FirstUnresolved(r, ps).value)
    decreases |ps|
  {
    if ps != [] {
      FirstUnresolvedSpec(r, ps[1..]);
      if Resolved(r, ps[0]) {
        assert forall i :: 1 <= i < |ps| ==> ps[i] == ps[1..][i - 1];
      }
    }
  }

  /** The warnings of the non-critical participants, in list order. */
  function Warnings(r: Record, ps: seq<Param>): seq<string>
    decreases |ps|
  {
    if ps == [] then []
    else
      var last := ps[|ps| - 1];
      Warnings(r, ps[..|ps| - 1]) + if Resolved(r, last) then [] else [UnknownMessage(r, last)]
  }

  predicate Inbound(mode: string) {
    Lower(mode) == "inbound"
  }

  predicate Airtow(r: Record) {
    r.launchMethod.kind == Some("airtow")
  }

  predicate CopilotNamed(r: Record) {
    Truthy(r.copilot.firstName) && Truthy(r.copilot.lastName)
  }

  function CriticalParams(inbound: bool): seq<Param> {
    if inbound then [PilotParam, PlaneParam] else [PilotParam, PlaneParam, LaunchMethodParam]
  }

  function TowParams(r: Record): seq<Param> {
    if Airtow(r) then [TowplaneParam, TowpilotParam] else []
  }

  function OtherParams(r: Record): seq<Param> {
    TowParams(r) + if CopilotNamed(r) then [CopilotParam] else []
  }

  /** The assignments `updateFlight` makes before resolving anything: no launch method
      for an inbound flight, no towplane or towpilot without an airtow, and a copilot id
      of 0 on the record itself when the copilot is not fully named. */
  function Prepare(r: Record, inbound: bool): Record {
    var f1 := if inbound then r.flight.(launchMethodId := Some(0)) else r.flight;
    var f2 := if Airtow(r) then f1 else f1.(towplaneId := Some(0), towpilotId := Some(0));
    r.(flight := f2, copilotId := if CopilotNamed(r) then r.copilotId else Some(0))
  }

  /** What `updateFlight` leaves behind: the updated record and its warnings, or the
      exception it raises. A `None` mode fails at `mode.lower()`. */
  function Updated(r: Record): Result<(Record, seq<string>)> {
    if r.flight.mode.None? then Err(AttributeError("lower"))
    else
      var inbound := Inbound(r.flight.mode.value);
      var p := Prepare(r, inbound);
      var crit := CriticalParams(inbound);
      match FirstUnresolved(p, crit)
      case Some(q) => Err(RecordError(UnknownMessage(p, q)))
      case None =>
        var others := OtherParams(p);
        var ids := Fill(Fill(IdsOf(p.flight), p, crit), p, others);
        Ok((p.(flight := Update(WithIds(p.flight, ids))), Warnings(p, others)))
  }

  /** One more participant copied. */
  lemma FillStep(f: Ids, r: Record, ps: seq<Param>, q: Param)
    ensures Fill(f, r, ps + [q]) ==
      if Resolved(r, q) then SetId(Fill(f, r, ps), q, ParamId(r, q)) else Fill(f, r, ps)
  {
    assert forall x :: x in ps + [q] <==> x in ps || x == q;
  }

  /** The loop of `updateFlight` over the critical participants: it stops with a
      `RecordError` at the first one without an id. */
  method SetCritical(p: Record, crit: seq<Param>, ids: Ids) returns (res: Result<Ids>)
    ensures FirstUnresolved(p, crit).Some? ==>
      res == Err(RecordError(UnknownMessage(p, FirstUnresolved(p, crit).value)))
    ensures FirstUnresolved(p, crit).None? ==> res == Ok(Fill(ids, p, crit))
  {
    var f := ids;
    for i := 0 to |crit|
      invariant f == Fill(ids, p, crit[..i])
      invariant FirstUnresolved(p, crit[i..]) == FirstUnresolved(p, crit)
    {
      assert crit[i..][1..] == crit[i + 1..];
      assert crit[..i + 1] == crit[..i] + [crit[i]];
      FillStep(ids, p, crit[..i], crit[i]);
      var id := ParamId(p, crit[i]);
      if !TruthyId(id) {
        assert FirstUnresolved(p, crit[i..]) == Some(crit[i]);
        return Err(RecordError(UnknownMessage(p, crit[i])));
      }
      f := SetId(f, crit[i], id);
    }
    assert crit[..|crit|] == crit && crit[|crit|..] == [];
    res := Ok(f);
  }

  /** The loop of `updateFlight` over the other participants: one without an id leaves its
      column alone and adds a warning. */
  method SetOthers(p: Record, others: seq<Param>, ids: Ids) returns (out: Ids, warnings: seq<string>)
    ensures out == Fill(ids, p, others) && warnings == Warnings(p, others)
  {
    out := ids;
    warnings := [];
    for i := 0 to |others|
      invariant out == Fill(ids, p, others[..i])
      invariant warnings == Warnings(p, others[..i])
    {
      assert others[..i + 1] == others[..i] + [others[i]];
      assert others[..i + 1][..i] == others[..i];
      FillStep(ids, p, others[..i], others[i]);
      var id := ParamId(p, others[i]);
      if !TruthyId(id) {
        warnings := warnings + [UnknownMessage(p, others[i])];
      } else {
        out := SetId(out, others[i], id);
      }
    }
    assert others[..|others|] == others;
  }

  /** `updateFlight()`. */
  method UpdateFlight(r: Record) returns (res: Result<(Record, seq<string>)>)
    ensures res == Updated(r)
  {
    if r.flight.mode.None? {
      return Err(AttributeError("lower"));
    }
    var inbound := Inbound(r.flight.mode.value);
    var p := Prepare(r, inbound);
    var ids :- SetCritical(p, CriticalParams(inbound), IdsOf(p.flight));
    var out, warnings := SetOthers(p, OtherParams(p), ids);
    res := Ok((p.(flight := Update(WithIds(p.flight, out))), warnings));
  }

  /** The critical check reports pilot, plane and (not inbound) launch method in that order. */
  lemma CriticalFirst(p: Record, inbound: bool)
    ensures FirstUnresolved(p, CriticalParams(inbound)) ==
      if !Resolved(p, PilotParam) then Some(PilotParam)
      else if !Resolved(p, PlaneParam) then Some(PlaneParam)
      else if !inbound && !Resolved(p, LaunchMethodParam) then Some(LaunchMethodParam)
      else None
  {
    var crit := CriticalParams(inbound);
    assert crit[1..][0] == PlaneParam && crit[1..][1..] == crit[2..];
    if inbound {
      assert crit[2..] == [];
    } else {
      assert crit[2..][0] == LaunchMethodParam && crit[2..][1..] == [];
      assert FirstUnresolved(p, crit[2..]) ==
        if !Resolved(p, LaunchMethodParam) then Some(LaunchMethodParam) else FirstUnresolved(p, []);
    }
    assert FirstUnresolved(p, crit[1..]) ==
      if !Resolved(p, PlaneParam) then Some(PlaneParam) else FirstUnresolved(p, crit[2..]);
  }

  /** The critical participants: the update fails exactly when the mode is missing, the
      pilot or plane has no id, or a non-inbound flight's launch method has none; the
      message names the first of pilot, plane, launch method that is missing. */
  lemma UpdatedFails(r: Record)
    ensures r.flight.mode.None? ==> Updated(r) == Err(AttributeError("lower"))
    ensures Updated(r).Err? <==>
      r.flight.mode.None? || !TruthyId(r.pilot.id) || !TruthyId(r.plane.id)
      || (!Inbound(r.flight.mode.value) && !TruthyId(r.launchMethod.id))
    ensures r.flight.mode.Some? && !TruthyId(r.pilot.id) ==>
      Updated(r) == Err(RecordError(UnknownMessage(r, PilotParam)))
    ensures r.flight.mode.Some? && TruthyId(r.pilot.id) && !TruthyId(r.plane.id) ==>
      Updated(r) == Err(RecordError(UnknownMessage(r, PlaneParam)))
    ensures (r.flight.mode.Some? && !Inbound(r.flight.mode.value) && TruthyId(r.pilot.id) && TruthyId(r.plane.id)
             && !TruthyId(r.launchMethod.id)) ==>
      Updated(r) == Err(RecordError(UnknownMessage(r, LaunchMethodParam)))
  {
    if r.flight.mode.Some? {
      var inbound := Inbound(r.flight.mode.value);
      CriticalFirst(Prepare(r, inbound), inbound);
      PreparedMessage(r, inbound, PilotParam);
      PreparedMessage(r, inbound, PlaneParam);
      PreparedMessage(r, inbound, LaunchMethodParam);
    }
  }

  /** Both passes over the id columns when no critical participant is missing: critical
      ids are copied, and a non-critical participant's id is copied when it has one. */
  lemma FillBoth(p: Record, inbound: bool, ids: Ids)
    requires FirstUnresolved(p, CriticalParams(inbound)).None?
    ensures var out := Fill(Fill(ids, p, CriticalParams(inbound)), p, OtherParams(p));
      && out.pilot == p.pilot.id && out.plane == p.plane.id
      && out.launchMethod == (if inbound then ids.launchMethod else p.launchMethod.id)
      && out.towplane == (if Airtow(p) && TruthyId(p.towplane.id) then p.towplane.id else ids.towplane)
      && out.towpilot == (if Airtow(p) && TruthyId(p.towpilot.id) then p.towpilot.id else ids.towpilot)
      && out.copilot == (if CopilotNamed(p) && TruthyId(p.copilot.id) then p.copilot.id else ids.copilot)
  {
    var crit := CriticalParams(inbound);
    FirstUnresolvedSpec(p, crit);
    assert Resolved(p, crit[0]) && Resolved(p, crit[1]);
    assert !inbound ==> Resolved(p, crit[2]);
  }

  /** The ids of a successful update: every critical participant's id is copied, an inbound
      flight gets launch method 0, a flight without airtow gets towplane and towpilot 0, and
      a non-critical participant without an id leaves its flight column as it was. */
  lemma UpdatedIds(r: Record)
    requires Updated(r).Ok?
    ensures var f := Updated(r).value.0.flight; var inbound := Inbound(r.flight.mode.value);
      && f.pilotId == r.pilot.id && f.planeId == r.plane.id
      && f.launchMethodId == (if inbound then Some(0) else r.launchMethod.id)
      && f.towplaneId == (if !Airtow(r) then Some(0) else if TruthyId(r.towplane.id) then r.towplane.id else r.flight.towplaneId)
      && f.towpilotId == (if !Airtow(r) then Some(0) else if TruthyId(r.towpilot.id) then r.towpilot.id else r.flight.towpilotId)
      && f.copilotId == (if CopilotNamed(r) && TruthyId(r.copilot.id) then r.copilot.id else r.flight.copilotId)
  {
    var inbound := Inbound(r.flight.mode.value);
    var p := Prepare(r, inbound);
    FillBoth(p, inbound, IdsOf(p.flight));
  }

  /** The warnings of the other participants, stated on the prepared record. */
  lemma OthersWarnings(p: Record)
    ensures Warnings(p, OtherParams(p)) ==
      (if Airtow(p) && !TruthyId(p.towplane.id) then [UnknownMessage(p, TowplaneParam)] else [])
      + (if Airtow(p) && !TruthyId(p.towpilot.id) then [UnknownMessage(p, TowpilotParam)] else [])
      + (if CopilotNamed(p) && !TruthyId(p.copilot.id) then [UnknownMessage(p, CopilotParam)] else [])
  {
    var others := OtherParams(p);
    if Airtow(p) {
      assert [TowplaneParam][..0] == [];
      assert [TowplaneParam, TowpilotParam][..1] == [TowplaneParam];
      if CopilotNamed(p) {
        assert others == [TowplaneParam, TowpilotParam, CopilotParam];
        assert others[..2] == [TowplaneParam, TowpilotParam];
      } else {
        assert others == [TowplaneParam, TowpilotParam];
      }
    } else if CopilotNamed(p) {
      assert others == [CopilotParam];
      assert others[..0] == [];
    } else {
      assert others == [];
    }
  }

  /** The warnings of a successful update: one "Unknown ..." message per non-critical
      participant without an id, towplane and towpilot (airtow only) before copilot (fully
      named copilot only). */
  lemma UpdatedWarnings(r: Record)
    requires Updated(r).Ok?
    ensures Updated(r).value.1 ==
      (if Airtow(r) && !TruthyId(r.towplane.id) then [UnknownMessage(r, TowplaneParam)] else [])
      + (if Airtow(r) && !TruthyId(r.towpilot.id) then [UnknownMessage(r, TowpilotParam)] else [])
      + (if CopilotNamed(r) && !TruthyId(r.copilot.id) then [UnknownMessage(r, CopilotParam)] else [])
  {
    var p := Prepare(r, Inbound(r.flight.mode.value));
    OthersWarnings(p);
    PreparedMessage(r, Inbound(r.flight.mode.value), TowplaneParam);
    PreparedMessage(r, Inbound(r.flight.mode.value), TowpilotParam);
    PreparedMessage(r, Inbound(r.flight.mode.value), CopilotParam);
  }

  /** Preparing a record leaves its participants, and so their messages, alone. */
  lemma PreparedMessage(r: Record, inbound: bool, q: Param)
    ensures UnknownMessage(Prepare(r, inbound), q) == UnknownMessage(r, q)
  {
    var p := Prepare(r, inbound);
    assert ParamText(p, q) == ParamText(r, q);
  }

  /** What else a successful update changes: the flight's flags are recomputed by
      `Flight.update`, the record's participants stay as they were, and the record's own
      `copilot_id` becomes 0 exactly when the copilot is not fully named. */
  lemma UpdatedFrame(r: Record)
    requires Updated(r).Ok?
    ensures var u := Updated(r).value.0;
      && u.(flight := r.flight, copilotId := r.copilotId) == r
      && u.copilotId == (if CopilotNamed(r) then r.copilotId else Some(0))
      && u.flight == Update(u.flight)
      && u.flight.departureTime == r.flight.departureTime && u.flight.landingTime == r.flight.landingTime
      && u.flight.mode == r.flight.mode && u.flight.flightType == r.flight.flightType
  {
    var inbound := Inbound(r.flight.mode.value);
    var p := Prepare(r, inbound);
    var ids := Fill(Fill(IdsOf(p.flight), p, CriticalParams(inbound)), p, OtherParams(p));
    UpdateIdempotent(WithIds(p.flight, ids));
  }
}
