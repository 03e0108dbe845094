/**
 * The message templates of the mailer (pysk/utils/mailer.py): a text with `${name}` and
 * `${name()}` fields is split into literal, attribute and functor elements, and a message
 * for one recipient is the concatenation of the rendered elements. Sending mail is not
 * part of this model.
 */
module Mailers {
  import opened Wrappers

  /** A recipient object: its attributes by name, already converted to text. */
  type Recipient = map<string, string>

  /** A `MessageElement`: a literal text, an attribute read from the recipient, or a unary
      functor applied to it. */
  datatype Element = Literal(text: string) | Attribute(name: string) | Functor(call: Recipient -> string)

  /** `MessageElement(value, type)`: `TYPES[type]` raises KeyError for an unknown type; a
      functor element holds the function, the others the text. */
  function MakeElement(kind: string, value: string, call: Recipient -> string): (r: Result<Element>)
    ensures kind == "string" ==> r == Ok(Literal(value))
    ensures kind == "attribute" ==> r == Ok(Attribute(value))
    ensures kind == "functor" ==> r.Ok? && r.value.Functor? && r.value.call == call
    ensures r.Err? <==> kind != "string" && kind != "attribute" && kind != "functor"
    ensures r.Err? ==> r == Err(KeyError(kind))
  {
    if kind == "attribute" then Ok(Attribute(value))
    else if kind == "functor" then Ok(Functor(call))
    else if kind == "string" then Ok(Literal(value))
    else Err(KeyError(kind))
  }

  /** `element(obj)`: the literal, `unicode(getattr(obj, name))` (AttributeError when the
      recipient lacks it), or `functor(obj)`. */
  function Render(e: Element, obj: Recipient): (r: Result<string>)
    ensures e.Literal? ==> r == Ok(e.text)
    ensures e.Attribute? ==> (r.Ok? <==> e.name in obj)
    ensures e.Attribute? && e.name in obj ==> r == Ok(obj[e.name])
    ensures e.Attribute? && e.name !in obj ==> r == Err(AttributeError(e.name))
    ensures e.Functor? ==> r == Ok(e.call(obj))
  {
    match e
    case Literal(text) => Ok(text)
    case Attribute(name) => if name in obj then Ok(obj[name]) else Err(AttributeError(name))
    case Functor(call) => Ok(call(obj))
  }

  // ---------------------------------------------------------------------------------------------
  // The field pattern `\$\{(.+)\}`: `.` is any character but a newline, and `.+` is greedy,
  // so a field runs to the last `}` of its line.

  /** The index of the first newline at or after `i`, or the length of the text. */
  function LineEnd(msg: string, i: nat): (k: nat)
    requires i <= |msg|
    ensures i <= k <= |msg| && (k == |msg| || msg[k] == '\n')
    decreases |msg| - i
  {
    if i == |msg| || msg[i] == '\n' then i else LineEnd(msg, i + 1)
  }

  /** No newline comes before `LineEnd`. */
  lemma {:induction false} LineEndFirst(msg: string, i: nat)
    requires i <= |msg|
    ensures forall j :: i <= j < LineEnd(msg, i) ==> msg[j] != '\n'
    decreases |msg| - i
  {
    if i < |msg| && msg[i] != '\n' {
      LineEndFirst(msg, i + 1);
    }
  }

  /** The last `}` in `msg[lo..hi]`. */
  function LastBrace(msg: string, lo: nat, hi: nat): (r: Option<nat>)
    requires hi <= |msg|
    ensures r.Some? ==> lo <= r.value < hi && msg[r.value] == '}'
    decreases hi
  {
    if hi <= lo then None
    else if msg[hi - 1] == '}' then Some(hi - 1)
    else LastBrace(msg, lo, hi - 1)
  }

  /** `LastBrace` finds the last `}` of the range, and none only when the range has none. */
  lemma {:induction false} LastBraceLast(msg: string, lo: nat, hi: nat)
    requires hi <= |msg|
    ensures LastBrace(msg, lo, hi).Some? ==> forall j :: LastBrace(msg, lo, hi).value < j < hi ==> msg[j] != '}'
    ensures LastBrace(msg, lo, hi).None? ==> forall j :: lo <= j < hi ==> msg[j] != '}'
    decreases hi
  {
    if lo < hi && msg[hi - 1] != '}' {
      LastBraceLast(msg, lo, hi - 1);
    }
  }

  /** The end of the match starting at `p`, if the pattern matches there: `${`, at least one
      character, and the last `}` on the line. */
  function MatchAt(msg: string, p: nat): (r: Option<nat>)
    ensures r.Some? ==> p + 4 <= r.value <= |msg| && msg[p] == '$' && msg[p + 1] == '{' && msg[r.value - 1] == '}'
  {
    if p + 1 < |msg| && msg[p] == '$' && msg[p + 1] == '{' then
      match LastBrace(msg, p + 3, LineEnd(msg, p + 2))
      case None => None
      case Some(j) => Some(j + 1)
    else None
  }

  /** A match runs over one line and ends at its last `}`: the group holds no newline,
      and no `}` follows the match on its line. */
  lemma MatchLine(msg: string, p: nat)
    requires MatchAt(msg, p).Some?
    ensures forall j :: p + 2 <= j < MatchAt(msg, p).value - 1 ==> msg[j] != '\n'
    ensures forall j :: MatchAt(msg, p).value <= j < LineEnd(msg, p + 2) ==> msg[j] != '}'
  {
    LineEndFirst(msg, p + 2);
    LastBraceLast(msg, p + 3, LineEnd(msg, p + 2));
  }

  /** `fieldPattern.search(msg, pos)`: the first start at or after `pos` where the pattern
      matches, with the end of that match. */
  function Search(msg: string, pos: nat): (r: Option<(nat, nat)>)
    ensures r.Some? ==> pos <= r.value.0 && MatchAt(msg, r.value.0) == Some(r.value.1)
    decreases |msg| - pos
  {
    if pos >= |msg| then None
    else
      match MatchAt(msg, pos)
      case Some(e) => Some((pos, e))
      case None => Search(msg, pos + 1)
  }

  /** The match `Search` finds is the leftmost one, and it finds none only when the pattern
      matches nowhere from `pos` on. */
  lemma {:induction false} SearchLeftmost(msg: string, pos: nat)
    ensures Search(msg, pos).Some? ==> forall p :: pos <= p < Search(msg, pos).value.0 ==> MatchAt(msg, p).None?
    ensures Search(msg, pos).None? ==> forall p :: pos <= p ==> MatchAt(msg, p).None?
    decreases |msg| - pos
  {
    if pos < |msg| && MatchAt(msg, pos).None? {
      SearchLeftmost(msg, pos + 1);
    }
  }

  /** A field `name()` names a functor. */
  predicate IsCall(v: string) {
    |v| >= 2 && v[|v| - 2] == '(' && v[|v| - 1] == ')'
  }

  /** The functor name of a field `name()`. */
  function Callee(v: string): (name: string)
    requires IsCall(v)
    ensures name + "()" == v
  {
    assert v == v[..|v| - 2] + [v[|v| - 2], v[|v| - 1]];
    v[..|v| - 2]
  }

  /** The element for the field text `v` (the regex group): a functor from `functors` when
      `v` ends in `()`, which raises KeyError when no functors are given or the name is not
      one of them; an attribute otherwise. */
  function FieldElement(v: string, functors: map<string, Recipient -> string>): (r: Result<Element>)
    ensures !IsCall(v) ==> r == Ok(Attribute(v))
    ensures IsCall(v) && functors == map[] ==> r == Err(KeyError("Found functor field, but no functors!"))
    ensures IsCall(v) && functors != map[] && Callee(v) !in functors ==> r == Err(KeyError(Callee(v)))
    ensures IsCall(v) && Callee(v) in functors ==> r.Ok? && r.value.Functor? && r.value.call == functors[Callee(v)]
  {
    if IsCall(v) then
      if functors == map[] then Err(KeyError("Found functor field, but no functors!"))
      else if Callee(v) !in functors then Err(KeyError(Callee(v)))
      else Ok(Functor(functors[Callee(v)]))
    else Ok(Attribute(v))
  }

  /** The elements `setMessage` appends from `begin` on, and the exception that ends it, if
      any. */
  function Elements(msg: string, begin: nat, functors: map<string, Recipient -> string>)
    : (seq<Element>, Option<Error>)
    requires begin <= |msg|
    decreases |msg| - begin
  {
    var m := Search(msg, begin);
    if m.None? then ([Literal(msg[begin..])], None)
    else
      var field := FieldElement(msg[m.value.0 + 2..m.value.1 - 1], functors);
      if field.Err? then ([Literal(msg[begin..m.value.0])], Some(field.error))
      else
        var rest := Elements(msg, m.value.1, functors);
        ([Literal(msg[begin..m.value.0]), field.value] + rest.0, rest.1)
  }

  predicate IsField(e: Element) {
    e.Attribute? || e.Functor?
  }

  /** Literals at the even positions, fields at the odd ones, a literal first and last. */
  predicate Alternating(es: seq<Element>) {
    |es| % 2 == 1 && forall i :: 0 <= i < |es| ==> (es[i].Literal? <==> i % 2 == 0)
  }

  /** A message without a match of the pattern is a single literal: the whole text. */
  lemma NoField(msg: string, functors: map<string, Recipient -> string>)
    requires forall p :: MatchAt(msg, p).None?
    ensures Elements(msg, 0, functors) == ([Literal(msg)], None)
  {
    assert msg[0..] == msg;
  }

  lemma AlternatingCons(a: Element, b: Element, rest: seq<Element>)
    requires a.Literal? && IsField(b) && Alternating(rest)
    ensures Alternating([a, b] + rest)
  {
    var es := [a, b] + rest;
    forall i | 0 <= i < |es|
      ensures es[i].Literal? <==> i % 2 == 0
    {
      if i >= 2 {
        assert es[i] == rest[i - 2];
      }
    }
  }

  /** The elements of a message that parses alternate literal and field, begin and end with a
      literal, and so hold one literal more than fields. */
  lemma {:induction false} ElementsAlternate(msg: string, begin: nat, functors: map<string, Recipient -> string>)
    requires begin <= |msg|
    requires Elements(msg, begin, functors).1.None?
    ensures Alternating(Elements(msg, begin, functors).0)
    decreases |msg| - begin
  {
    var m := Search(msg, begin);
    if m.None? {
      ElementsLast(msg, begin, functors);
    } else {
      var (p, e) := m.value;
      ElementsStep(msg, begin, functors, p, e);
      var field := FieldElement(msg[p + 2..e - 1], functors).value;
      ElementsAlternate(msg, e, functors);
      AlternatingCons(Literal(msg[begin..p]), field, Elements(msg, e, functors).0);
    }
  }

  /** The template text of attribute and literal elements. */
  function Template(es: seq<Element>): string
    decreases |es|
  {
    if es == [] then ""
    else
      var head := match es[0]
        case Literal(text) => text
        case Attribute(name) => "${" + name + "}"
        case Functor(_) => "";
      head + Template(es[1..])
  }

  lemma TemplatePair(t: string, v: string, rest: seq<Element>)
    ensures Template([Literal(t), Attribute(v)] + rest) == t + "${" + v + "}" + Template(rest)
  {
    var es := [Literal(t), Attribute(v)] + rest;
    assert es[1..] == [Attribute(v)] + rest && es[1..][1..] == rest;
  }

  /** The text around a match: the literal before it, `${`, the group, `}`, and the rest. */
  lemma SplitMatch(msg: string, begin: nat, p: nat, e: nat)
    requires begin <= p && MatchAt(msg, p) == Some(e)
    ensures msg[begin..] == msg[begin..p] + "${" + msg[p + 2..e - 1] + "}" + msg[e..]
  {
    assert msg[p..e] == "${" + msg[p + 2..e - 1] + "}";
    assert msg[begin..] == msg[begin..p] + msg[p..e] + msg[e..];
  }

  /** Without functors, a message that parses is reproduced by its literals with every
      attribute field written back as `${name}`. */
  lemma {:induction false} TemplateRoundTrip(msg: string, begin: nat)
    requires begin <= |msg|
    requires Elements(msg, begin, map[]).1.None?
    ensures Template(Elements(msg, begin, map[]).0) == msg[begin..]
    decreases |msg| - begin
  {
    var m := Search(msg, begin);
    if m.None? {
      ElementsLast(msg, begin, map[]);
      assert Template([Literal(msg[begin..])]) == msg[begin..] + Template([]);
    } else {
      var (p, e) := m.value;
      var v := msg[p + 2..e - 1];
      ElementsStep(msg, begin, map[], p, e);
      assert !IsCall(v);
      TemplateRoundTrip(msg, e);
      TemplatePair(msg[begin..p], v, Elements(msg, e, map[]).0);
      SplitMatch(msg, begin, p, e);
    }
  }

  /** One step of `setMessage`: the text after `begin` is one literal when no field
      follows; otherwise the literal before the first field, then the field's KeyError or
      the field and the elements after it. */
  lemma ElementsStep(msg: string, begin: nat, functors: map<string, Recipient -> string>, p: nat, e: nat)
    requires begin <= |msg| && Search(msg, begin) == Some((p, e))
    ensures p + 4 <= e <= |msg|
    ensures FieldElement(msg[p + 2..e - 1], functors).Err? ==>
      Elements(msg, begin, functors) ==
      ([Literal(msg[begin..p])], Some(FieldElement(msg[p + 2..e - 1], functors).error))
    ensures FieldElement(msg[p + 2..e - 1], functors).Ok? ==>
      Elements(msg, begin, functors) ==
      ([Literal(msg[begin..p]), FieldElement(msg[p + 2..e - 1], functors).value] + Elements(msg, e, functors).0,
       Elements(msg, e, functors).1)
  {
  }

  /** The loop invariant of `setMessage` carries over one field. */
  lemma ElementsAppend(msg: string, begin: nat, functors: map<string, Recipient -> string>, p: nat, e: nat,
                       done: seq<Element>, whole: (seq<Element>, Option<Error>))
    requires begin <= |msg| && Search(msg, begin) == Some((p, e))
    requires done + Elements(msg, begin, functors).0 == whole.0 && Elements(msg, begin, functors).1 == whole.1
    ensures p + 4 <= e <= |msg|
    ensures FieldElement(msg[p + 2..e - 1], functors).Err? ==>
      done + [Literal(msg[begin..p])] == whole.0 && whole.1 == Some(FieldElement(msg[p + 2..e - 1], functors).error)
    ensures FieldElement(msg[p + 2..e - 1], functors).Ok? ==>
      var more := done + [Literal(msg[begin..p])] + [FieldElement(msg[p + 2..e - 1], functors).value];
      more + Elements(msg, e, functors).0 == whole.0 && Elements(msg, e, functors).1 == whole.1
  {
    ElementsStep(msg, begin, functors, p, e);
    var field := FieldElement(msg[p + 2..e - 1], functors);
    if field.Ok? {
      Regroup(done, Literal(msg[begin..p]), field.value, Elements(msg, e, functors).0);
    }
  }

  lemma Regroup<T>(done: seq<T>, a: T, b: T, rest: seq<T>)
    ensures done + ([a, b] + rest) == done + [a] + [b] + rest
  {
  }

  lemma ElementsLast(msg: string, begin: nat, functors: map<string, Recipient -> string>)
    requires begin <= |msg| && Search(msg, begin).None?
    ensures Elements(msg, begin, functors) == ([Literal(msg[begin..])], None)
  {
  }

  /** `"".join(msgGenerator(obj))`: the rendered elements in order; the first element that
      fails to render raises. */
  function GetMessage(es: seq<Element>, obj: Recipient): (r: Result<string>)
    ensures r.Err? <==> exists i :: 0 <= i < |es| && Render(es[i], obj).Err?
    decreases |es|
  {
    if es == [] then Ok("")
    else
      var head :- Render(es[0], obj);
      var tail :- GetMessage(es[1..], obj);
      assert forall i :: 1 <= i < |es| ==> es[i] == es[1..][i - 1];
      Ok(head + tail)
  }

  /** Rendering an attribute by the recipient that maps each name to its own field text gives
      back the template. */
  lemma {:induction false} RenderTemplate(es: seq<Element>, obj: Recipient)
    requires forall i :: 0 <= i < |es| ==> !es[i].Functor?
    requires forall i :: 0 <= i < |es| && es[i].Attribute? ==>
      es[i].name in obj && obj[es[i].name] == "${" + es[i].name + "}"
    ensures GetMessage(es, obj) == Ok(Template(es))
    decreases |es|
  {
    if es != [] {
      RenderTemplate(es[1..], obj);
    }
  }

  /** Rendering one element more: the earlier failure, else the new element's, else the
      joined text. */
  lemma {:induction false} GetMessageSnoc(es: seq<Element>, e: Element, obj: Recipient)
    ensures GetMessage(es + [e], obj) ==
      match GetMessage(es, obj)
      case Err(x) => Err(x)
      case Ok(t) => match Render(e, obj) case Err(x) => Err(x) case Ok(s) => Ok(t + s)
    decreases |es|
  {
    if es == [] {
      assert es + [e] == [e] && [e][1..] == [];
      var r := Render(e, obj);
      if r.Ok? {
        assert r.value + "" == "" + r.value;
      }
    } else {
      var xs := es + [e];
      assert xs[0] == es[0];
      assert xs[1..] == es[1..] + [e];
      GetMessageSnoc(es[1..], e, obj);
      var h := Render(es[0], obj);
      if h.Ok? {
        assert GetMessage(xs, obj) == match GetMessage(xs[1..], obj)
          case Err(x) => Err(x) case Ok(t) => Ok(h.value + t);
        assert GetMessage(es, obj) == match GetMessage(es[1..], obj)
          case Err(x) => Err(x) case Ok(t) => Ok(h.value + t);
        var r := Render(e, obj);
        if GetMessage(es[1..], obj).Ok? && r.Ok? {
          assert h.value + (GetMessage(es[1..], obj).value + r.value) == h.value + GetMessage(es[1..], obj).value + r.value;
        }
      }
    }
  }

  /** The message of two element lists is the first's text followed by the second's; the
      first failure wins. */
  lemma {:induction false} GetMessageAppend(a: seq<Element>, b: seq<Element>, obj: Recipient)
    ensures GetMessage(a + b, obj) ==
      match GetMessage(a, obj)
      case Err(x) => Err(x)
      case Ok(t) => match GetMessage(b, obj) case Err(x) => Err(x) case Ok(u) => Ok(t + u)
    decreases |a|
  {
    if a == [] {
      assert a + b == b;
      if GetMessage(b, obj).Ok? {
        assert "" + GetMessage(b, obj).value == GetMessage(b, obj).value;
      }
    } else {
      var xs := a + b;
      assert xs[0] == a[0];
      assert xs[1..] == a[1..] + b;
      GetMessageAppend(a[1..], b, obj);
      var h := Render(a[0], obj);
      if h.Ok? {
        assert GetMessage(xs, obj) == match GetMessage(xs[1..], obj)
          case Err(x) => Err(x) case Ok(t) => Ok(h.value + t);
        assert GetMessage(a, obj) == match GetMessage(a[1..], obj)
          case Err(x) => Err(x) case Ok(t) => Ok(h.value + t);
        if GetMessage(a[1..], obj).Ok? && GetMessage(b, obj).Ok? {
          var t, u := GetMessage(a[1..], obj).value, GetMessage(b, obj).value;
          assert h.value + (t + u) == h.value + t + u;
        }
      }
    }
  }

  /** A message without fields renders as its own text for every recipient. */
  lemma PlainMessage(msg: string, functors: map<string, Recipient -> string>, obj: Recipient)
    requires forall p :: MatchAt(msg, p).None?
    ensures Elements(msg, 0, functors).1.None?
    ensures GetMessage(Elements(msg, 0, functors).0, obj) == Ok(msg)
  {
    NoField(msg, functors);
    assert [Literal(msg)][1..] == [];
    assert msg + "" == msg;
  }

  /** A failure in a prefix is the failure of the whole. */
  lemma {:induction false} GetMessagePrefixFails(es: seq<Element>, n: nat, obj: Recipient)
    requires n <= |es| && GetMessage(es[..n], obj).Err?
    ensures GetMessage(es, obj) == GetMessage(es[..n], obj)
    decreases |es|
  {
    if n > 0 {
      assert es[..n][1..] == es[1..][..n - 1];
      assert es[..n][0] == es[0];
      if Render(es[0], obj).Ok? {
        GetMessagePrefixFails(es[1..], n - 1, obj);
      }
    }
  }

  /** The mailer's message: the elements of the last `setMessage`. */
  class Mailer {
    var message: seq<Element>

    /** The source's constructor does not set the message at all, so a `getMessage` before the
        first `setMessage` raises AttributeError there, where here it gives the empty text. The
        source's callers set the message straight after construction. */
    constructor ()
      ensures message == []
    {
      message := [];
    }

    /** `setMessage(msg, functors)`, with the source's while loop over the matches; on a
        KeyError the elements appended before it stay. `functors` is `{}` when none are
        given: both are falsy. */
    method SetMessage(msg: string, functors: map<string, Recipient -> string>) returns (r: Result<()>)
      modifies this
      ensures message == Elements(msg, 0, functors).0
      ensures r == (if Elements(msg, 0, functors).1.None? then Ok(()) else Err(Elements(msg, 0, functors).1.value))
    {
      var elements: seq<Element> := [];
      var match_ := Search(msg, 0);
      var begin: nat := 0;
      while match_.Some?
        invariant begin <= |msg| && match_ == Search(msg, begin)
        invariant elements + Elements(msg, begin, functors).0 == Elements(msg, 0, functors).0
        invariant Elements(msg, begin, functors).1 == Elements(msg, 0, functors).1
        decreases |msg| - begin
      {
        var (p, e) := match_.value;
        ElementsAppend(msg, begin, functors, p, e, elements, Elements(msg, 0, functors));
        elements := elements + [Literal(msg[begin..p])];
        var field := FieldElement(msg[p + 2..e - 1], functors);
        if field.Err? {
          message := elements;
          return Err(field.error);
        }
        elements := elements + [field.value];
        begin := e;
        match_ := Search(msg, begin);
      }
      ElementsLast(msg, begin, functors);
      message := elements + [Literal(msg[begin..])];
      r := Ok(());
    }

    /** `getMessage(obj)`: the generator's loop over the elements, joined. */
    method GetMessageFor(obj: Recipient) returns (r: Result<string>)
      ensures r == GetMessage(message, obj)
    {
      var text := "";
      for i := 0 to |message|
        invariant GetMessage(message[..i], obj) == Ok(text)
      {
        GetMessageSnoc(message[..i], message[i], obj);
        assert message[..i + 1] == message[..i] + [message[i]];
        var piece := Render(message[i], obj);
        if piece.Err? {
          GetMessagePrefixFails(message, i + 1, obj);
          return Err(piece.error);
        }
        text := text + piece.value;
      }
      assert message[..|message|] == message;
      r := Ok(text);
    }
  }
}
