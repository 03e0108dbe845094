/** A row of the `people` table (pysk/db/model/pilot.py). */
module Pilots {
  import opened Wrappers
  import opened Strs
  import Ascii

  datatype Pilot = Pilot(
    id: Option<int>,
    lastName: Option<string>,
    firstName: Option<string>,
    club: Option<string>,
    nickname: Option<string>,
    clubId: Option<int>,
    comments: Option<string>,
    medicalValidity: Option<int>,
    checkMedicalValidity: Option<int>)

  /** `Pilot()`: every column of a new instance is `None`. */
  function NewPilot(): (p: Pilot)
    ensures p.id.None? && p.lastName.None? && p.firstName.None? && p.club.None? && p.nickname.None?
    ensures p.clubId.None? && p.comments.None? && p.medicalValidity.None? && p.checkMedicalValidity.None?
  {
    Pilot(None, None, None, None, None, None, None, None, None)
  }

  /** The pair `(last_name, first_name)` that identity, order and hash use. */
  function Key(p: Pilot): (Option<string>, Option<string>) {
    (p.lastName, p.firstName)
  }

  /** `__eq__`: same last and first name. */
  predicate Equal(a: Pilot, b: Pilot) {
    a.lastName == b.lastName && a.firstName == b.firstName
  }

  /** `__lt__`: the tuple `(last_name, first_name)` compared lexicographically. */
  predicate Less(a: Pilot, b: Pilot) {
    if a.lastName == b.lastName then OptLess(a.firstName, b.firstName) else OptLess(a.lastName, b.lastName)
  }

  /** `__hash__`: the hash of the name tuple, for any hash function on tuples. */
  function Hash(p: Pilot, h: ((Option<string>, Option<string>)) -> int): int {
    h(Key(p))
  }

  /** `__str__`: "last, first", with a missing name printed as "None". */
  function Str(p: Pilot): string {
    Show(p.lastName) + ", " + Show(p.firstName)
  }

  /** Equality is exactly "neither is less", `<` is a strict order, and equal pilots hash alike. */
  lemma {:induction false} OrderMatchesEquality(a: Pilot, b: Pilot, c: Pilot, h: ((Option<string>, Option<string>)) -> int)
    ensures Equal(a, b) <==> !Less(a, b) && !Less(b, a)
    ensures !Less(a, a)
    ensures Less(a, b) && Less(b, c) ==> Less(a, c)
    ensures Equal(a, b) ==> Hash(a, h) == Hash(b, h) && Str(a) == Str(b)
  {
    OptLessStrict(a.lastName, b.lastName, c.lastName);
    OptLessStrict(a.firstName, b.firstName, c.firstName);
    OptLessStrict(b.lastName, a.lastName, c.lastName);
    OptLessStrict(b.firstName, a.firstName, c.firstName);
    OptLessStrict(a.lastName, c.lastName, b.lastName);
    OptLessStrict(a.firstName, c.firstName, b.firstName);
  }

  /** `generateUsername()`: first word of the first name, ".", last word of the last name,
      lowercased (ASCII letters only, as `str.lower` does on byte strings) and then transliterated. */
  function GenerateUsername(p: Pilot): (r: Result<string>)
    ensures r.Ok? <==> p.firstName.Some? && p.lastName.Some? && Words(p.firstName.value) != [] && Words(p.lastName.value) != []
    ensures p.firstName.None? ==> r == Err(AttributeError("split"))
    ensures r.Ok? ==> r.value == Ascii.Transliterate(Lower(Words(p.firstName.value)[0]) + "." + Lower(Words(p.lastName.value)[|Words(p.lastName.value)| - 1]))
  {
    if p.firstName.None? then Err(AttributeError("split"))
    else if Words(p.firstName.value) == [] then Err(IndexError)
    else if p.lastName.None? then Err(AttributeError("split"))
    else if Words(p.lastName.value) == [] then Err(IndexError)
    else
      var first := Words(p.firstName.value)[0];
      var lastWords := Words(p.lastName.value);
      Ok(Ascii.Transliterate(Lower(first) + "." + Lower(lastWords[|lastWords| - 1])))
  }

  predicate IsUpperAscii(c: char) {
    'A' <= c <= 'Z'
  }

  /** The user name promised lower case: transliterate first, then lower the result. */
  function GenerateUsernameLowercase(p: Pilot): (r: Result<string>)
    ensures r.Ok? <==> GenerateUsername(p).Ok?
    ensures r.Ok? ==> forall j :: 0 <= j < |r.value| ==> !IsUpperAscii(r.value[j])
    ensures r.Ok? ==> r.value == Lower(GenerateUsername(p).value)
  {
    var u :- GenerateUsername(p);
    Ok(LowerAscii(u))
  }

  /** `Lower`, with the absence of capitals it leaves stated outright. */
  function LowerAscii(s: string): (r: string)
    ensures r == Lower(s)
    ensures forall j :: 0 <= j < |r| ==> !IsUpperAscii(r[j])
  {
    Lower(s)
  }

  /** A first name starting with a capital umlaut gives a user name starting with a capital:
      `str.lower` leaves the umlaut alone and transliteration turns it into "Oe", "Ae" or "Ue". */
  lemma UsernameNotLowercase(p: Pilot)
    requires GenerateUsername(p).Ok?
    requires Words(p.firstName.value)[0][0] in {'Ä', 'Ö', 'Ü'}
    ensures IsUpperAscii(GenerateUsername(p).value[0])
  {
    var w := Words(p.firstName.value)[0];
    var lastWords := Words(p.lastName.value);
    CapitalSurvives(w, Lower(lastWords[|lastWords| - 1]));
  }

  lemma CapitalSurvives(w: string, rest: string)
    requires w != [] && w[0] in {'Ä', 'Ö', 'Ü'}
    ensures IsUpperAscii(Ascii.Transliterate(Lower(w) + "." + rest)[0])
  {
    var x := Lower(w) + "." + rest;
    assert x[0] == w[0];
    assert x == [x[0]] + x[1..];
    Ascii.TransliterateAppend([x[0]], x[1..]);
    assert Ascii.Transliterate([x[0]]) == Ascii.Transl(x[0]) + Ascii.FlatMap([], Ascii.Transl);
  }

  // ---------------------------------------------------------------------------------------------
  // Comment fields: the getter searches `key\s*=\s*'(.+)'`; the setter searches `key s*=\s*'.+'`
  // (a literal `s*` where `\s*` was meant). Keys are matched literally.

  /** The first index at or after `j` whose character fails `pred` (or the end). */
  function SkipWhile(s: string, j: nat, pred: char -> bool): (r: nat)
    requires j <= |s|
    ensures j <= r <= |s|
    ensures forall k :: j <= k < r ==> pred(s[k])
    ensures r == |s| || !pred(s[r])
    decreases |s| - j
  {
    if j == |s| || !pred(s[j]) then j else SkipWhile(s, j + 1, pred)
  }

  /** The largest `q` with `lo < q < hi` and a quote at `q`. */
  function LastQuote(s: string, lo: nat, hi: nat): (r: Option<nat>)
    requires lo <= hi <= |s|
    ensures r.Some? ==> lo < r.value < hi && s[r.value] == '\'' && forall k :: r.value < k < hi ==> s[k] != '\''
    ensures r.None? ==> forall k :: lo < k < hi ==> s[k] != '\''
    decreases hi
  {
    if hi <= lo + 1 then None
    else if s[hi - 1] == '\'' then Some(hi - 1)
    else LastQuote(s, lo, hi - 1)
  }

  /** The characters the gap after the key may hold. */
  predicate GapChar(c: char, spaces: bool) {
    if spaces then IsSpace(c) else c == 's'
  }

  /** A match of the comment-field pattern starting at `i`: the value's bounds and the match's end. */
  datatype Span = Span(start: nat, valueStart: nat, valueEnd: nat, end: nat)

  /** The key is matched as literal text: keys are taken to hold no regular-expression
      metacharacters, which the source would interpret, since it builds the pattern from the key. */
  function MatchAt(s: string, i: nat, key: string, spaces: bool): (r: Option<Span>)
    requires i <= |s|
    ensures r.Some? ==> r.value.start == i && i + |key| < r.value.valueStart < r.value.valueEnd < r.value.end == r.value.valueEnd + 1 <= |s|
  {
    if !IsPrefix(key, s[i..]) then None
    else
      var j := SkipWhile(s, i + |key|, c => GapChar(c, spaces));
      if j == |s| || s[j] != '=' then None
      else
        var k := SkipWhile(s, j + 1, IsSpace);
        if k == |s| || s[k] != '\'' then None
        else
          var lineEnd := SkipWhile(s, k + 1, c => c != '\n');
          match LastQuote(s, k + 1, lineEnd)
          case None => None
          case Some(q) => Some(Span(i, k + 1, q, q + 1))
  }

  /** `pattern.search(s)`: the leftmost match at or after `i` (see `SearchLeftmost`). */
  function Search(s: string, i: nat, key: string, spaces: bool): (r: Option<Span>)
    requires i <= |s|
    ensures r.Some? ==> i <= r.value.start <= |s| && MatchAt(s, r.value.start, key, spaces) == r
    decreases |s| - i
  {
    var m := MatchAt(s, i, key, spaces);
    if m.Some? then m
    else if i == |s| then None
    else Search(s, i + 1, key, spaces)
  }

  /** `Search` finds a match exactly when there is one, and no match starts before the one it finds. */
  lemma {:induction false} SearchLeftmost(s: string, i: nat, key: string, spaces: bool)
    requires i <= |s|
    ensures var r := Search(s, i, key, spaces);
            (r.None? <==> forall k :: i <= k <= |s| ==> MatchAt(s, k, key, spaces).None?) &&
            (r.Some? ==> forall k :: i <= k < r.value.start ==> MatchAt(s, k, key, spaces).None?)
    decreases |s| - i
  {
    if MatchAt(s, i, key, spaces).None? && i < |s| {
      SearchLeftmost(s, i + 1, key, spaces);
      var r := Search(s, i + 1, key, spaces);
      if r.None? {
        forall k | i <= k <= |s| ensures MatchAt(s, k, key, spaces).None? {
          if k > i { assert i + 1 <= k <= |s|; }
        }
      } else {
        forall k | i <= k < r.value.start ensures MatchAt(s, k, key, spaces).None? {
          if k > i { assert i + 1 <= k < r.value.start; }
        }
      }
    }
  }

  /** `getCommentField(key)`: the value of the leftmost field, or `None`. */
  function GetCommentField(p: Pilot, key: string): (r: Option<string>)
    ensures !Truthy(p.comments) ==> r.None?
    ensures Truthy(p.comments) ==> (r.None? <==> Search(p.comments.value, 0, key, true).None?)
    ensures r.Some? ==> var m := Search(p.comments.value, 0, key, true).value;
                        r.value == p.comments.value[m.valueStart..m.valueEnd] && |r.value| >= 1
  {
    if !Truthy(p.comments) then None
    else match Search(p.comments.value, 0, key, true)
      case None => None
      case Some(m) => Some(p.comments.value[m.valueStart..m.valueEnd])
  }

  /** The text `key='value'`, or "" for a falsy value. */
  function FieldText(key: string, value: Option<string>): string {
    if Truthy(value) then key + "='" + value.value + "'" else ""
  }

  /** The new comments of `setCommentField`, with the setter's pattern chosen by `spaces`. */
  function SetComments(p: Pilot, key: string, value: Option<string>, spaces: bool): (r: Result<Pilot>)
    ensures r.Err? <==> key == []
    ensures r.Ok? ==> r.value == p.(comments := r.value.comments)
  {
    if key == [] then Err(KeyError(""))
    else
      var comment := FieldText(key, value);
      if !Truthy(p.comments) then Ok(p.(comments := Some(comment)))
      else
        var c := p.comments.value;
        match Search(c, 0, key, spaces)
        case Some(m) => Ok(p.(comments := Some(Strip(Strip(c[..m.start]) + comment + c[m.end..]))))
        case None => Ok(p.(comments := Some(c + "; " + comment)))
  }

  /** `setCommentField(key, value)` as written, searching with a literal `s*` after the key. */
  function SetCommentFieldAsWritten(p: Pilot, key: string, value: Option<string>): (r: Result<Pilot>)
    ensures r == SetComments(p, key, value, false)
    ensures r.Err? <==> key == []
  {
    SetComments(p, key, value, false)
  }

  /** `setCommentField(key, value)` searching with the getter's own pattern. */
  function SetCommentField(p: Pilot, key: string, value: Option<string>): (r: Result<Pilot>)
    ensures r == SetComments(p, key, value, true)
    ensures r.Err? <==> key == []
  {
    SetComments(p, key, value, true)
  }

  /** On a pilot without comments, setting a field and reading it back gives the value. */
  lemma {:induction false} SetThenGetOnEmpty(p: Pilot, key: string, v: string)
    requires !Truthy(p.comments) && key != [] && v != []
    requires forall j :: 0 <= j < |v| ==> v[j] != '\n'
    ensures SetCommentField(p, key, Some(v)).Ok?
    ensures GetCommentField(SetCommentField(p, key, Some(v)).value, key) == Some(v)
  {
    var s := key + "='" + v + "'";
    assert SetCommentField(p, key, Some(v)).value.comments == Some(s);
    assert IsPrefix(key, s[0..]);
    var j := SkipWhile(s, |key|, c => GapChar(c, true));
    assert s[|key|] == '=';
    assert j == |key|;
    var k := SkipWhile(s, |key| + 1, IsSpace);
    assert s[|key| + 1] == '\'';
    assert k == |key| + 1;
    var lineEnd := SkipWhile(s, k + 1, c => c != '\n');
    assert forall i :: k + 1 <= i < |s| ==> s[i] != '\n' by {
      forall i | k + 1 <= i < |s| ensures s[i] != '\n' {
        if i < |s| - 1 { assert s[i] == v[i - k - 1]; }
      }
    }
    assert lineEnd == |s|;
    assert LastQuote(s, k + 1, |s|) == Some(|s| - 1);
    assert MatchAt(s, 0, key, true) == Some(Span(0, k + 1, |s| - 1, |s|));
    assert s[k + 1..|s| - 1] == v;
  }

  lemma NoMatchNoSearch(s: string, key: string, spaces: bool)
    requires forall i :: 0 <= i <= |s| ==> MatchAt(s, i, key, spaces).None?
    ensures Search(s, 0, key, spaces).None?
  {
    var r := Search(s, 0, key, spaces);
    if r.Some? {
      assert MatchAt(s, r.value.start, key, spaces).None?;
    }
  }

  lemma SearchAtStart(s: string, key: string, spaces: bool)
    requires MatchAt(s, 0, key, spaces).Some?
    ensures Search(s, 0, key, spaces) == MatchAt(s, 0, key, spaces)
  {
  }

  /** The setter's result when its pattern matches at `m`. */
  lemma SetCommentsOnMatch(p: Pilot, key: string, value: Option<string>, spaces: bool, m: Span)
    requires Truthy(p.comments) && key != [] && Search(p.comments.value, 0, key, spaces) == Some(m)
    ensures m.start <= m.end <= |p.comments.value|
    ensures SetComments(p, key, value, spaces) ==
            Ok(p.(comments := Some(Strip(Strip(p.comments.value[..m.start]) + FieldText(key, value) + p.comments.value[m.end..]))))
  {
  }

  /** A field text starts with its key and ends with a quote. */
  lemma FieldTextEnds(key: string, v: string)
    requires key != [] && v != []
    ensures var t := FieldText(key, Some(v)); t != [] && t[0] == key[0] && t[|t| - 1] == '\''
  {
    assert FieldText(key, Some(v)) == key + "='" + v + "'";
  }

  /** Replacing a field that spans the whole comment leaves the new field alone. */
  lemma StripWholeField(c: string, key: string, v: string, m: Span)
    requires key != [] && !IsSpace(key[0]) && v != [] && m.start == 0 && m.end == |c|
    ensures Strip(Strip(c[..m.start]) + FieldText(key, Some(v)) + c[m.end..]) == FieldText(key, Some(v))
  {
    FieldTextEnds(key, v);
    var t := FieldText(key, Some(v));
    assert c[..m.start] == [] && c[m.end..] == [];
    StripPlain([]);
    assert Strip(c[..m.start]) + t + c[m.end..] == t;
    StripPlain(t);
  }

  /** A field that spans the whole comment is replaced by the new field alone. */
  lemma ReplaceWholeField(p: Pilot, key: string, v: string, spaces: bool, m: Span)
    requires Truthy(p.comments) && key != [] && !IsSpace(key[0]) && v != []
    requires Search(p.comments.value, 0, key, spaces) == Some(m) && m.start == 0 && m.end == |p.comments.value|
    ensures SetComments(p, key, Some(v), spaces).Ok?
    ensures SetComments(p, key, Some(v), spaces).value.comments == Some(FieldText(key, Some(v)))
  {
    SetCommentsOnMatch(p, key, Some(v), spaces, m);
    StripWholeField(p.comments.value, key, v, m);
  }


  /** Setting a field over a comment that holds exactly that field, then reading it, gives the new value. */
  lemma SetThenGetWholeField(p: Pilot, key: string, v: string, m: Span)
    requires Truthy(p.comments) && key != [] && !IsSpace(key[0]) && v != []
    requires forall j :: 0 <= j < |v| ==> v[j] != '\n'
    requires Search(p.comments.value, 0, key, true) == Some(m) && m.start == 0 && m.end == |p.comments.value|
    ensures SetCommentField(p, key, Some(v)).Ok?
    ensures GetCommentField(SetCommentField(p, key, Some(v)).value, key) == Some(v)
  {
    ReplaceWholeField(p, key, v, true, m);
    SetThenGetOnEmpty(p.(comments := None), key, v);
    assert SetCommentField(p, key, Some(v)).value == SetCommentField(p.(comments := None), key, Some(v)).value;
  }

  /** When the setter's pattern finds nothing, the new field is appended after "; ". */
  lemma AppendWhenMissing(p: Pilot, key: string, value: Option<string>, spaces: bool)
    requires Truthy(p.comments) && key != [] && Search(p.comments.value, 0, key, spaces).None?
    ensures SetComments(p, key, value, spaces) == Ok(p.(comments := Some(p.comments.value + "; " + FieldText(key, value))))
  {
  }

}

/** Comment-field round trips on concrete comments. */
module PilotExamples {
  import opened Wrappers
  import opened Strs
  import opened Pilots

  /** The getter's pattern matches the field "k = 'a'" as a whole. */
  lemma SpacedFieldMatches(c: string)
    requires Spells(c, "k = 'a'")
    ensures MatchAt(c, 0, "k", true) == Some(Span(0, 5, 6, 7))
  {
    assert c[0..][0] == 'k';
    assert IsPrefix("k", c[0..]);
    assert SkipWhile(c, 1, x => GapChar(x, true)) == 2;
    assert SkipWhile(c, 3, IsSpace) == 4;
    assert SkipWhile(c, 5, x => x != '\n') == 7;
    assert LastQuote(c, 5, 7) == Some(6);
  }

  /** The setter's pattern as written, with `s*` in place of `\s*`, does not match "k = 'a'" anywhere. */
  lemma SpacedFieldMissed(c: string)
    requires Spells(c, "k = 'a'")
    ensures Search(c, 0, "k", false).None?
  {
    forall i | 0 <= i <= |c| ensures MatchAt(c, i, "k", false).None? {
      if i == 0 {
        assert SkipWhile(c, 1, x => GapChar(x, false)) == 1;
      } else if i < |c| {
        assert c[i..][0] == c[i] && c[i] != 'k';
      }
    }
    NoMatchNoSearch(c, "k", false);
  }

  /** With a space before "=", the corrected setter replaces the field and the value reads back. */
  lemma SetThenGetWithSpace(p: Pilot)
    requires p.comments.Some? && Spells(p.comments.value, "k = 'a'")
    ensures GetCommentField(SetCommentField(p, "k", Some("b")).value, "k") == Some("b")
  {
    var c := p.comments.value;
    SpacedFieldMatches(c);
    SearchAtStart(c, "k", true);
    SetThenGetWholeField(p, "k", "b", Span(0, 5, 6, 7));
  }

  /** The setter as written misses that field and appends a second one; the getter then reads
      past both fields and still does not return the new value. */
  lemma SetThenGetAsWrittenFails(p: Pilot)
    requires p.comments.Some? && Spells(p.comments.value, "k = 'a'")
    ensures SetCommentFieldAsWritten(p, "k", Some("b")).Ok?
    ensures var q := SetCommentFieldAsWritten(p, "k", Some("b")).value;
            q.comments.Some? && Spells(q.comments.value, "k = 'a'; k='b'")
    ensures var g := GetCommentField(SetCommentFieldAsWritten(p, "k", Some("b")).value, "k");
            g.Some? && Spells(g.value, "a'; k='b")
  {
    var c := p.comments.value;
    SpacedFieldMissed(c);
    AppendWhenMissing(p, "k", Some("b"), false);
    var d := c + "; " + FieldText("k", Some("b"));
    AppendedSpelling(c, d);
    AppendedFieldsMatch(d);
    SearchAtStart(d, "k", true);
  }

  lemma AppendedSpelling(c: string, d: string)
    requires Spells(c, "k = 'a'") && d == c + "; " + FieldText("k", Some("b"))
    ensures Spells(d, "k = 'a'; k='b'")
  {
    assert FieldText("k", Some("b")) == "k='b'";
    assert d == c + "; k='b'";
  }

  lemma AppendedFieldsMatch(d: string)
    requires Spells(d, "k = 'a'; k='b'")
    ensures MatchAt(d, 0, "k", true) == Some(Span(0, 5, |d| - 1, |d|))
    ensures Spells(d[5..|d| - 1], "a'; k='b")
  {
    assert d[0..][0] == 'k';
    assert IsPrefix("k", d[0..]);
    assert SkipWhile(d, 1, x => GapChar(x, true)) == 2;
    assert SkipWhile(d, 3, IsSpace) == 4;
    assert SkipWhile(d, 5, x => x != '\n') == |d|;
    assert LastQuote(d, 5, |d|) == Some(|d| - 1);
  }
}
