/** A row of the `flights` table (pysk/db/model/flight.py). */
module Flights {
  import opened Wrappers

  /** Times are seconds on a fixed scale; the ids and strings are the column values, `None` for NULL. */
  datatype Flight = Flight(
    id: Option<int>,
    planeId: Option<int>,
    pilotId: Option<int>,
    copilotId: Option<int>,
    flightType: Option<string>,
    mode: Option<string>,
    departed: Option<int>,
    landed: Option<int>,
    towflightLanded: Option<int>,
    launchMethodId: Option<int>,
    departureLocation: Option<string>,
    landingLocation: Option<string>,
    numLandings: Option<string>,
    departureTime: Option<int>,
    landingTime: Option<int>,
    towplaneId: Option<int>,
    towflightMode: Option<string>,
    towflightLandingLocation: Option<string>,
    towflightLandingTime: Option<int>,
    towpilotId: Option<int>,
    comments: Option<string>,
    accountingNotes: Option<string>)

  /** `Flight()`: every column of a new instance is `None`. */
  function NewFlight(): (f: Flight)
    ensures f.id.None? && f.planeId.None? && f.pilotId.None? && f.copilotId.None?
    ensures f.flightType.None? && f.mode.None? && f.departed.None? && f.landed.None?
    ensures f.towflightLanded.None? && f.launchMethodId.None?
    ensures f.departureLocation.None? && f.landingLocation.None? && f.numLandings.None?
    ensures f.departureTime.None? && f.landingTime.None? && f.towplaneId.None?
    ensures f.towflightMode.None? && f.towflightLandingLocation.None?
    ensures f.towflightLandingTime.None? && f.towpilotId.None?
    ensures f.comments.None? && f.accountingNotes.None?
  {
    Flight(None, None, None, None, None, None, None, None, None, None, None,
           None, None, None, None, None, None, None, None, None, None, None)
  }

  /** `__lt__`: compares departure times as Python 2 compares two optional datetimes. Two `None`s are
    * unordered; a datetime compared with `None`, in either order, raises a TypeError. */
  function Less(a: Flight, b: Flight): (r: Result<bool>)
    ensures r.Err? <==> a.departureTime.Some? != b.departureTime.Some?
    ensures r.Err? ==> r.error == TypeError
    ensures a.departureTime.None? && b.departureTime.None? ==> r == Ok(false)
  {
    match (a.departureTime, b.departureTime)
    case (Some(x), Some(y)) => Ok(x < y)
    case (None, None) => Ok(false)
    case _ => Err(TypeError)
  }

  /** Among flights with departure times, `__lt__` never fails and is a strict total order on those
    * times: flights with equal departure times are unordered and all others are ordered. */
  lemma LessIsStrictOrder(a: Flight, b: Flight, c: Flight)
    requires a.departureTime.Some? && b.departureTime.Some? && c.departureTime.Some?
    ensures Less(a, b).Ok?
    ensures Less(a, a) == Ok(false)
    ensures Less(a, b) == Ok(true) ==> Less(b, a) == Ok(false)
    ensures Less(a, b) == Ok(true) && Less(b, c) == Ok(true) ==> Less(a, c) == Ok(true)
    ensures a.departureTime == b.departureTime ==> Less(a, b) == Ok(false) && Less(b, a) == Ok(false)
    ensures a.departureTime != b.departureTime ==> Less(a, b) == Ok(true) || Less(b, a) == Ok(true)
  {
  }

  /** `pic()`: the pilot in command is the copilot on a two-seated training flight. */
  function Pic(f: Flight): (r: Option<int>)
    ensures f.flightType == Some("training_2") ==> r == f.copilotId
    ensures f.flightType != Some("training_2") ==> r == f.pilotId
  {
    if f.flightType == Some("training_2") then f.copilotId else f.pilotId
  }

  /** `duration()`: subtracting a missing time raises a TypeError. */
  function Duration(f: Flight): (r: Result<int>)
    ensures r.Ok? <==> f.departureTime.Some? && f.landingTime.Some?
    ensures r.Ok? ==> f.departureTime.value + r.value == f.landingTime.value
    ensures r.Err? ==> r.error == TypeError
  {
    if f.departureTime.None? || f.landingTime.None? then Err(TypeError)
    else Ok(f.landingTime.value - f.departureTime.value)
  }

  /** `BOOLEAN[...]`: the integer the database stores for a flag. */
  function Flag(b: bool): int {
    if b then 1 else 0
  }

  /** `update()`: derives the three landed/departed flags from the times; nothing else changes. */
  function Update(f: Flight): (r: Flight)
    ensures r.departed == Some(if f.departureTime.Some? then 1 else 0)
    ensures r.landed == Some(if f.landingTime.Some? then 1 else 0)
    ensures r.towflightLanded == Some(if f.towflightLandingTime.Some? then 1 else 0)
    ensures r.(departed := f.departed, landed := f.landed, towflightLanded := f.towflightLanded) == f
  {
    f.(departed := Some(Flag(f.departureTime.Some?)),
       landed := Some(Flag(f.landingTime.Some?)),
       towflightLanded := Some(Flag(f.towflightLandingTime.Some?)))
  }

  /** Updating twice is updating once, and the flags are 1 exactly when the time is present. */
  lemma UpdateIdempotent(f: Flight)
    ensures Update(Update(f)) == Update(f)
    ensures Update(f).departed == Some(1) <==> f.departureTime.Some?
    ensures Update(f).landed == Some(1) <==> f.landingTime.Some?
    ensures Update(f).towflightLanded == Some(1) <==> f.towflightLandingTime.Some?
  {
  }

  /** `departureTime(format)`: "" without a departure time, else the time in the caller's format. */
  function DepartureText(f: Flight, strftime: int -> string): (r: string)
    ensures f.departureTime.None? ==> r == ""
    ensures f.departureTime.Some? ==> r == strftime(f.departureTime.value)
  {
    match f.departureTime
    case None => ""
    case Some(t) => strftime(t)
  }

  /** `landingTime(format)`: "" without a landing time, else the time in the caller's format. */
  function LandingText(f: Flight, strftime: int -> string): (r: string)
    ensures f.landingTime.None? ==> r == ""
    ensures f.landingTime.Some? ==> r == strftime(f.landingTime.value)
  {
    match f.landingTime
    case None => ""
    case Some(t) => strftime(t)
  }

  /** The four columns `similar` refuses to compare without. */
  predicate Complete(f: Flight) {
    f.landingTime.Some? && f.departureTime.Some? && f.planeId.Some? && f.pilotId.Some?
  }

  /** The guards of `similar`: a RuntimeError names the first incomplete flight. The message in the
    * source is `"{0} is incomplete"` filled with the flight's `str`; here "self" or "other" stands for it. */
  function SimilarGuard(a: Flight, b: Flight): (r: Result<()>)
    ensures r.Ok? <==> Complete(a) && Complete(b)
    ensures r.Err? ==> r.error.RuntimeError?
  {
    if !Complete(a) then Err(RuntimeError("self is incomplete"))
    else if !Complete(b) then Err(RuntimeError("other is incomplete"))
    else Ok(())
  }
}
