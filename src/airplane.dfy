/** A row of the `planes` table (pysk/db/model/airplane.py). */
module Airplanes {
  import opened Wrappers
  import opened Strs

  /** The columns of `planes`; `kind` is the `type` column. */
  datatype Airplane = Airplane(
    id: Option<int>,
    registration: Option<string>,
    club: Option<string>,
    numSeats: Option<int>,
    kind: Option<string>,
    category: Option<string>,
    callsign: Option<string>,
    comments: Option<string>)

  /** `Airplane()`: every column of a new instance is `None`. */
  function NewAirplane(): (a: Airplane)
    ensures a.id.None? && a.registration.None? && a.club.None? && a.numSeats.None?
    ensures a.kind.None? && a.category.None? && a.callsign.None? && a.comments.None?
  {
    Airplane(None, None, None, None, None, None, None, None)
  }

  /** `__eq__`: same registration. */
  predicate Equal(a: Airplane, b: Airplane) {
    a.registration == b.registration
  }

  /** `__lt__`: registrations compared as Python 2 compares them (`None` first). */
  predicate Less(a: Airplane, b: Airplane) {
    OptLess(a.registration, b.registration)
  }

  /** `__hash__`: the registration's hash, for any hash function on registrations. */
  function Hash(a: Airplane, h: Option<string> -> int): int {
    h(a.registration)
  }

  /** `__str__`: the registration, or "None". */
  function Str(a: Airplane): string {
    Show(a.registration)
  }

  /** Equality is exactly "neither is less", `<` is a strict order, and equal airplanes
      hash and print alike. */
  lemma OrderMatchesEquality(a: Airplane, b: Airplane, c: Airplane, h: Option<string> -> int)
    ensures Equal(a, b) <==> !Less(a, b) && !Less(b, a)
    ensures !Less(a, a)
    ensures Less(a, b) && Less(b, c) ==> Less(a, c)
    ensures Equal(a, b) ==> Hash(a, h) == Hash(b, h) && Str(a) == Str(b)
  {
    OptLessStrict(a.registration, b.registration, c.registration);
    OptLessStrict(b.registration, a.registration, c.registration);
  }

  /** Two airplanes with registrations print alike only when they are equal. */
  lemma StrIdentifies(a: Airplane, b: Airplane)
    requires a.registration.Some? && b.registration.Some?
    ensures Str(a) == Str(b) <==> Equal(a, b)
  {
  }
}
