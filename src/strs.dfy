/**
 * Byte-string helpers with the semantics of Python 2 `str` methods: `lower`
 * (ASCII letters only), `strip`, `split`, `join`, `str(int)` and the
 * lexicographic order of strings.
 */
module Strs {
  import opened Wrappers

  /** Characters Python's argument-less `strip`/`split` treat as whitespace. */
  predicate IsSpace(c: char) {
    c == ' ' || c == '\t' || c == '\n' || c == '\r' || c as int == 11 || c as int == 12
  }

  function LowerChar(c: char): char {
    if 'A' <= c <= 'Z' then (c as int + 32) as char else c
  }

  /** `str.lower()` on a byte string: only ASCII letters change. */
  function Lower(s: string): (r: string)
    ensures |r| == |s|
    ensures forall i :: 0 <= i < |s| ==> r[i] == LowerChar(s[i])
  {
    if s == [] then [] else [LowerChar(s[0])] + Lower(s[1..])
  }

  /** Drops the leading characters that belong to `cs`. */
  function LStripSet(s: string, cs: set<char>): (r: string)
    ensures |r| <= |s| && r == s[|s| - |r|..]
    ensures r == [] || r[0] !in cs
    ensures forall i :: 0 <= i < |s| - |r| ==> s[i] in cs
  {
    if s != [] && s[0] in cs then LStripSet(s[1..], cs) else s
  }

  /** Drops the trailing characters that belong to `cs`. */
  function RStripSet(s: string, cs: set<char>): (r: string)
    ensures |r| <= |s| && r == s[..|r|]
    ensures r == [] || r[|r| - 1] !in cs
    ensures forall i :: |r| <= i < |s| ==> s[i] in cs
  {
    if s != [] && s[|s| - 1] in cs then RStripSet(s[..|s| - 1], cs) else s
  }

  const Whitespace: set<char> := {' ', '\t', '\n', '\r', 11 as char, 12 as char}

  /** `str.strip()`. */
  function Strip(s: string): (r: string)
    ensures r == [] || (!IsSpace(r[0]) && !IsSpace(r[|r| - 1]))
  {
    RStripSet(LStripSet(s, Whitespace), Whitespace)
  }

  /** `str.split(sep)` for a one-character separator: never empty. */
  function Split(s: string, sep: char): (r: seq<string>)
    ensures |r| >= 1
  {
    if s == [] then [""]
    else
      var rest := Split(s[1..], sep);
      if s[0] == sep then [""] + rest else [[s[0]] + rest[0]] + rest[1..]
  }

  /** Number of occurrences of `c` in `s`. */
  function Count(s: string, c: char): nat {
    if s == [] then 0 else (if s[0] == c then 1 else 0) + Count(s[1..], c)
  }

  /** `sep.join(parts)`. */
  function Join(parts: seq<string>, sep: string): string {
    if |parts| == 0 then ""
    else if |parts| == 1 then parts[0]
    else parts[0] + sep + Join(parts[1..], sep)
  }

  /** Splitting yields one piece more than there are separators. */
  lemma {:induction false} SplitCount(s: string, sep: char)
    ensures |Split(s, sep)| == Count(s, sep) + 1
  {
    if s != [] {
      SplitCount(s[1..], sep);
    }
  }

  /** No piece of a split contains the separator. */
  lemma {:induction false} SplitPiecesFree(s: string, sep: char)
    ensures forall i :: 0 <= i < |Split(s, sep)| ==> Count(Split(s, sep)[i], sep) == 0
  {
    if s != [] {
      SplitPiecesFree(s[1..], sep);
      var rest := Split(s[1..], sep);
      if s[0] != sep {
        assert Count([s[0]] + rest[0], sep) == Count(rest[0], sep) by {
          assert ([s[0]] + rest[0])[1..] == rest[0];
        }
      }
    }
  }

  /** Joining the pieces of a split with the separator gives back the string. */
  lemma {:induction false} SplitJoin(s: string, sep: char)
    ensures Join(Split(s, sep), [sep]) == s
  {
    if s != [] {
      SplitJoin(s[1..], sep);
      var rest := Split(s[1..], sep);
      if s[0] == sep {
        assert Split(s, sep) == [""] + rest;
        assert s == [sep] + s[1..];
      } else {
        var p := [[s[0]] + rest[0]] + rest[1..];
        assert Split(s, sep) == p;
        if |rest| == 1 {
          assert s == [s[0]] + s[1..];
        } else {
          assert p[1..] == rest[1..];
          assert Join(rest, [sep]) == rest[0] + [sep] + Join(rest[1..], [sep]);
          assert s == [s[0]] + s[1..];
        }
      }
    }
  }

  /** A string without the separator splits into itself alone. */
  lemma {:induction false} SplitNoSep(s: string, sep: char)
    requires Count(s, sep) == 0
    ensures Split(s, sep) == [s]
  {
    if s != [] {
      SplitNoSep(s[1..], sep);
      assert [s[0]] + s[1..] == s;
    }
  }

  /** A separator-free prefix followed by the separator becomes the first piece. */
  lemma {:induction false} SplitAfterPiece(a: string, b: string, sep: char)
    requires Count(a, sep) == 0
    ensures Split(a + [sep] + b, sep) == [a] + Split(b, sep)
  {
    var s := a + [sep] + b;
    if a == [] {
      assert s == [sep] + b;
      assert s[1..] == b;
    } else {
      SplitAfterPiece(a[1..], b, sep);
      assert s[0] == a[0] && s[1..] == a[1..] + [sep] + b;
      assert [a[0]] + a[1..] == a;
    }
  }

  /** Two separator-free pieces joined by the separator split back into the two. */
  lemma SplitAround(a: string, b: string, sep: char)
    requires Count(a, sep) == 0 && Count(b, sep) == 0
    ensures Split(a + [sep] + b, sep) == [a, b]
  {
    SplitAfterPiece(a, b, sep);
    SplitNoSep(b, sep);
  }

  /** `c` holds the characters of `w`. Stated character by character, so that the verifier does
      not evaluate every function applied to `c` on the literal `w`. */
  predicate Spells(c: string, w: string) {
    |c| == |w| && forall i :: 0 <= i < |c| ==> c[i] == w[i]
  }

  /** Text none of whose characters is `c` has no occurrence of `c`. */
  lemma {:induction false} CountAbsent(s: string, c: char)
    requires forall i :: 0 <= i < |s| ==> s[i] != c
    ensures Count(s, c) == 0
  {
    if s != [] {
      CountAbsent(s[1..], c);
    }
  }

  /** Non-empty text without whitespace. */
  predicate IsWord(w: string) {
    w != [] && forall j :: 0 <= j < |w| ==> !IsSpace(w[j])
  }

  /** The words of `s` as `str.split()` with no argument returns them. */
  function Words(s: string): (r: seq<string>)
    ensures forall i :: 0 <= i < |r| ==> IsWord(r[i])
    decreases |s|
  {
    var t := LStripSet(s, Whitespace);
    if t == [] then [] else
      assert !IsSpace(t[0]) by { WhitespaceIsSpace(t[0]); }
      var w := FirstWord(t);
      var rest := Words(t[|w|..]);
      WordsCons(w, rest);
      [w] + rest
  }

  lemma WordsCons(w: string, rest: seq<string>)
    requires IsWord(w) && forall i :: 0 <= i < |rest| ==> IsWord(rest[i])
    ensures forall i :: 0 <= i < |[w] + rest| ==> IsWord(([w] + rest)[i])
  {
    var r := [w] + rest;
    forall i | 0 <= i < |r| ensures IsWord(r[i]) {
      if i > 0 { assert r[i] == rest[i - 1]; }
    }
  }

  /** The longest prefix of `s` without whitespace. */
  function FirstWord(s: string): (r: string)
    requires s != [] && !IsSpace(s[0])
    ensures 1 <= |r| <= |s| && r == s[..|r|]
    ensures IsWord(r)
    ensures |r| == |s| || IsSpace(s[|r|])
  {
    if |s| == 1 || IsSpace(s[1]) then s[..1] else [s[0]] + FirstWord(s[1..])
  }

  function DigitChar(d: nat): char
    requires d < 10
  {
    ('0' as int + d) as char
  }

  /** `str(n)` for a natural number. */
  function NatToString(n: nat): (r: string)
    ensures |r| >= 1
    ensures forall i :: 0 <= i < |r| ==> '0' <= r[i] <= '9'
  {
    if n < 10 then [DigitChar(n)] else NatToString(n / 10) + [DigitChar(n % 10)]
  }

  /** `str(i)` for an integer. */
  function IntToString(i: int): string {
    if i < 0 then "-" + NatToString(-i) else NatToString(i)
  }

  predicate IsDigits(s: string) {
    s != [] && forall i :: 0 <= i < |s| ==> '0' <= s[i] <= '9'
  }

  /** The value of a string of decimal digits. */
  function DigitsValue(s: string): nat
    requires IsDigits(s)
  {
    var d := s[|s| - 1] as int - '0' as int;
    if |s| == 1 then d else 10 * DigitsValue(s[..|s| - 1]) + d
  }

  /** Reading back a number's decimal text gives the number. */
  lemma {:induction false} DigitsOfNat(n: nat)
    ensures IsDigits(NatToString(n)) && DigitsValue(NatToString(n)) == n
  {
    if n >= 10 {
      DigitsOfNat(n / 10);
      var s := NatToString(n);
      assert s[..|s| - 1] == NatToString(n / 10);
    }
  }

  /** Python's `"{0:02d}".format(n)`: zero-padded to two characters. */
  function Pad2(n: int): (r: string)
    ensures 0 <= n < 10 ==> r == ['0', DigitChar(n)]
    ensures n >= 10 ==> r == NatToString(n)
  {
    if 0 <= n < 10 then "0" + NatToString(n) else IntToString(n)
  }

  /** `str(x)` for an optional string: `None` prints as "None". */
  function Show(x: Option<string>): string {
    match x
    case Some(s) => s
    case None => "None"
  }

  predicate IsPrefix(p: string, s: string) {
    |p| <= |s| && s[..|p|] == p
  }

  /** `sub in s`. */
  predicate Contains(s: string, sub: string) {
    exists i :: 0 <= i <= |s| && IsPrefix(sub, s[i..])
  }

  /** Python's `<` on strings: lexicographic by character code. */
  predicate StrLess(a: string, b: string) {
    if a == [] then b != []
    else if b == [] then false
    else if a[0] == b[0] then StrLess(a[1..], b[1..])
    else a[0] < b[0]
  }

  lemma {:induction false} StrLessIrreflexive(a: string)
    ensures !StrLess(a, a)
  {
    if a != [] {
      StrLessIrreflexive(a[1..]);
    }
  }

  lemma {:induction false} StrLessTransitive(a: string, b: string, c: string)
    requires StrLess(a, b) && StrLess(b, c)
    ensures StrLess(a, c)
  {
    if a != [] && b != [] && c != [] && a[0] == b[0] && b[0] == c[0] {
      StrLessTransitive(a[1..], b[1..], c[1..]);
    }
  }

  lemma {:induction false} StrLessTotal(a: string, b: string)
    ensures a == b || StrLess(a, b) || StrLess(b, a)
  {
    if a != [] && b != [] && a[0] == b[0] {
      StrLessTotal(a[1..], b[1..]);
      if a[1..] == b[1..] {
        assert a == [a[0]] + a[1..] && b == [b[0]] + b[1..];
      }
    }
  }

  /** Python 2 orders `None` before every string. */
  predicate OptLess(a: Option<string>, b: Option<string>) {
    match (a, b)
    case (None, Some(_)) => true
    case (Some(x), Some(y)) => StrLess(x, y)
    case _ => false
  }

  /** `OptLess` is a strict total order. */
  lemma OptLessStrict(a: Option<string>, b: Option<string>, c: Option<string>)
    ensures !OptLess(a, a)
    ensures OptLess(a, b) ==> !OptLess(b, a)
    ensures OptLess(a, b) && OptLess(b, c) ==> OptLess(a, c)
    ensures a == b || OptLess(a, b) || OptLess(b, a)
  {
    if a.Some? {
      StrLessIrreflexive(a.value);
      if b.Some? {
        StrLessTotal(a.value, b.value);
        if StrLess(a.value, b.value) && StrLess(b.value, a.value) {
          StrLessTransitive(a.value, b.value, a.value);
        }
        if c.Some? && OptLess(a, b) && OptLess(b, c) {
          StrLessTransitive(a.value, b.value, c.value);
        }
      }
    }
  }

  /** `n * ["%s"]` joined by "," : the SQL parameter placeholders. */
  function Placeholders(n: nat): string {
    Join(seq(n, _ => "%s"), ",")
  }

  /** The placeholder list holds exactly `n` "%s" separated by single commas. */
  lemma {:induction false} PlaceholdersShape(n: nat)
    ensures n == 0 ==> Placeholders(n) == ""
    ensures n > 0 ==> |Placeholders(n)| == 3 * n - 1
    ensures forall k :: 0 <= k < n ==> Placeholders(n)[3 * k] == '%' && Placeholders(n)[3 * k + 1] == 's'
    ensures forall k :: 0 <= k < n - 1 ==> Placeholders(n)[3 * k + 2] == ','
  {
    if n > 1 {
      PlaceholdersShape(n - 1);
      assert seq(n, _ => "%s")[1..] == seq(n - 1, _ => "%s");
      var tail := Placeholders(n - 1);
      assert Placeholders(n) == "%s" + "," + tail;
      forall k | 1 <= k < n
        ensures Placeholders(n)[3 * k] == '%' && Placeholders(n)[3 * k + 1] == 's'
      {
        assert Placeholders(n)[3 * k] == tail[3 * (k - 1)];
        assert Placeholders(n)[3 * k + 1] == tail[3 * (k - 1) + 1];
      }
      forall k | 1 <= k < n - 1
        ensures Placeholders(n)[3 * k + 2] == ','
      {
        assert Placeholders(n)[3 * k + 2] == tail[3 * (k - 1) + 2];
      }
    }
  }

  lemma WhitespaceIsSpace(c: char)
    ensures c in Whitespace <==> IsSpace(c)
  {
  }

  /** Text that neither starts nor ends with whitespace is its own `strip()`. */
  lemma StripPlain(s: string)
    requires s == [] || (!IsSpace(s[0]) && !IsSpace(s[|s| - 1]))
    ensures Strip(s) == s
  {
    if s != [] {
      WhitespaceIsSpace(s[0]);
      WhitespaceIsSpace(s[|s| - 1]);
    }
  }

  /** A single word splits into itself. */
  lemma WordsOfWord(w: string)
    requires IsWord(w)
    ensures Words(w) == [w]
  {
    WhitespaceIsSpace(w[0]);
    assert LStripSet(w, Whitespace) == w;
    var f := FirstWord(w);
    assert f == w;
    assert w[|w|..] == [];
    assert LStripSet([], Whitespace) == [];
  }
}
