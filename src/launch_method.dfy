/** A row of the `launch_methods` table (pysk/db/model/launch_method.py). */
module LaunchMethods {
  import opened Wrappers
  import opened Strs

  /** The columns of `launch_methods`, in the table's column order; `kind` is the `type` column
      ("airtow", "winch" or "self"). */
  datatype LaunchMethod = LaunchMethod(
    id: Option<int>,
    name: Option<string>,
    shortName: Option<string>,
    logString: Option<string>,
    keyboardShortcut: Option<string>,
    kind: Option<string>,
    towplaneRegistration: Option<string>,
    personRequired: Option<int>,
    comments: Option<string>)

  /** `LaunchMethod()`: every column of a new instance is `None`. */
  function NewLaunchMethod(): (m: LaunchMethod)
    ensures m.id.None? && m.name.None? && m.shortName.None? && m.logString.None? && m.keyboardShortcut.None?
    ensures m.kind.None? && m.towplaneRegistration.None? && m.personRequired.None? && m.comments.None?
  {
    LaunchMethod(None, None, None, None, None, None, None, None, None)
  }

  /** `__eq__`: same name. */
  predicate Equal(a: LaunchMethod, b: LaunchMethod) {
    a.name == b.name
  }

  /** `__hash__`: the name's hash, for any hash function on names. */
  function Hash(m: LaunchMethod, h: Option<string> -> int): int {
    h(m.name)
  }

  /** `__str__`: the name, or "None". */
  function Str(m: LaunchMethod): string {
    Show(m.name)
  }

  /** Equality is an equivalence, and equal launch methods hash and print alike. */
  lemma EqualityConsistent(a: LaunchMethod, b: LaunchMethod, c: LaunchMethod, h: Option<string> -> int)
    ensures Equal(a, a)
    ensures Equal(a, b) ==> Equal(b, a)
    ensures Equal(a, b) && Equal(b, c) ==> Equal(a, c)
    ensures Equal(a, b) ==> Hash(a, h) == Hash(b, h) && Str(a) == Str(b)
  {
  }

  /** Two named launch methods print alike only when they are equal. */
  lemma StrIdentifies(a: LaunchMethod, b: LaunchMethod)
    requires a.name.Some? && b.name.Some?
    ensures Str(a) == Str(b) <==> Equal(a, b)
  {
  }
}
