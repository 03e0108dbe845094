/** Transliteration of German umlauts to plain ASCII (pysk/utils/ascii.py). */
module Ascii {

  /** The replacement table: each letter and the text that replaces it. */
  const Replacements: seq<(char, string)> := [
    ('ä', "ae"), ('Ä', "Ae"), ('ö', "oe"), ('Ö', "Oe"), ('ü', "ue"), ('Ü', "Ue"), ('\'', "")
  ]

  /** The letters the table replaces. */
  const Replaced: set<char> := {'ä', 'Ä', 'ö', 'Ö', 'ü', 'Ü', '\''}

  /** Replaces every character `c` of `s` by `f(c)`. */
  function FlatMap(s: string, f: char -> string): (r: string) {
    if s == [] then [] else f(s[0]) + FlatMap(s[1..], f)
  }

  /** `s.replace(letter, repl)`. */
  function Replace(s: string, letter: char, repl: string): string {
    FlatMap(s, c => if c == letter then repl else [c])
  }

  /** Replacement text of `c`: its table entry, or `c` itself. */
  function Transl(c: char): (r: string)
    ensures c in Replaced ==> forall j :: 0 <= j < |r| ==> r[j] !in Replaced
    ensures c !in Replaced ==> r == [c]
  {
    match c
    case 'ä' => "ae" case 'Ä' => "Ae" case 'ö' => "oe" case 'Ö' => "Oe"
    case 'ü' => "ue" case 'Ü' => "Ue" case '\'' => ""
    case _ => [c]
  }

  /** The transliteration of `s`, one character at a time. */
  function Transliterate(s: string): string {
    FlatMap(s, Transl)
  }

  /** The effect of the first `k` table entries on one character. */
  function PartialTransl(k: nat, c: char): string
    requires k <= |Replacements|
  {
    if exists i :: 0 <= i < k && Replacements[i].0 == c then Transl(c) else [c]
  }

  lemma {:induction false} FlatMapAppend(a: string, b: string, f: char -> string)
    ensures FlatMap(a + b, f) == FlatMap(a, f) + FlatMap(b, f)
  {
    if a == [] {
      assert a + b == b;
    } else {
      calc {
        FlatMap(a + b, f);
        { assert (a + b)[0] == a[0] && (a + b)[1..] == a[1..] + b; }
        f(a[0]) + FlatMap(a[1..] + b, f);
        { FlatMapAppend(a[1..], b, f); }
        f(a[0]) + (FlatMap(a[1..], f) + FlatMap(b, f));
      }
    }
  }

  /** Two passes equal one pass with the composed replacement. */
  lemma {:induction false} FlatMapFuse(s: string, f: char -> string, g: char -> string, h: char -> string)
    requires forall c :: h(c) == FlatMap(f(c), g)
    ensures FlatMap(FlatMap(s, f), g) == FlatMap(s, h)
  {
    if s != [] {
      FlatMapFuse(s[1..], f, g, h);
      FlatMapAppend(f(s[0]), FlatMap(s[1..], f), g);
    }
  }

  lemma {:induction false} FlatMapIdentity(s: string, g: char -> string)
    requires forall j :: 0 <= j < |s| ==> g(s[j]) == [s[j]]
    ensures FlatMap(s, g) == s
  {
    if s != [] {
      FlatMapIdentity(s[1..], g);
      assert s == [s[0]] + s[1..];
    }
  }

  /** Applying table entry `k` after the first `k` entries gives the first `k + 1`. */
  lemma StepTransl(k: nat)
    requires k < |Replacements|
    ensures forall c :: FlatMap(PartialTransl(k, c), x => if x == Replacements[k].0 then Replacements[k].1 else [x])
                        == PartialTransl(k + 1, c)
  {
    var letter, repl := Replacements[k].0, Replacements[k].1;
    var g := x => if x == letter then repl else [x];
    forall c
      ensures FlatMap(PartialTransl(k, c), g) == PartialTransl(k + 1, c)
    {
      if exists i :: 0 <= i < k && Replacements[i].0 == c {
        var t := Transl(c);
        assert c in Replaced;
        FlatMapIdentity(t, g);
        assert PartialTransl(k + 1, c) == t;
      } else if c == letter {
        assert FlatMap([c], g) == repl + FlatMap([], g);
        assert Transl(c) == repl;
      } else {
        assert FlatMap([c], g) == [c] + FlatMap([], g);
        assert !exists i :: 0 <= i < k + 1 && Replacements[i].0 == c;
      }
    }
  }

  /** `toAscii`: applies each table entry in turn with `str.replace`. */
  method ToAscii(s: string) returns (r: string)
    ensures r == Transliterate(s)
  {
    r := s;
    FlatMapIdentity(s, c => PartialTransl(0, c));
    for k := 0 to |Replacements|
      invariant r == FlatMap(s, c => PartialTransl(k, c))
    {
      ReplaceNext(s, k);
      r := Replace(r, Replacements[k].0, Replacements[k].1);
    }
    TranslComplete(s);
  }

  /** One more `str.replace` extends the partial transliteration by the next table entry. */
  lemma ReplaceNext(s: string, k: nat)
    requires k < |Replacements|
    ensures Replace(FlatMap(s, c => PartialTransl(k, c)), Replacements[k].0, Replacements[k].1)
            == FlatMap(s, c => PartialTransl(k + 1, c))
  {
    var letter, repl := Replacements[k].0, Replacements[k].1;
    StepTransl(k);
    FlatMapFuse(s, c => PartialTransl(k, c), x => if x == letter then repl else [x], c => PartialTransl(k + 1, c));
  }

  /** Once the whole table has been applied, the text is transliterated. */
  lemma TranslComplete(s: string)
    ensures FlatMap(s, c => PartialTransl(|Replacements|, c)) == Transliterate(s)
  {
    forall c ensures PartialTransl(|Replacements|, c) == Transl(c) {
      AllReplacementsApplied(c);
    }
    FlatMapSame(s, c => PartialTransl(|Replacements|, c), Transl);
  }

  /** After every pair of `Replacements` has been applied, a character is transliterated. */
  lemma AllReplacementsApplied(c: char)
    ensures PartialTransl(|Replacements|, c) == Transl(c)
  {
    if c in Replaced {
      assert exists i :: 0 <= i < |Replacements| && Replacements[i].0 == c by {
        if c == 'ä' { assert Replacements[0].0 == c; }
        else if c == 'Ä' { assert Replacements[1].0 == c; }
        else if c == 'ö' { assert Replacements[2].0 == c; }
        else if c == 'Ö' { assert Replacements[3].0 == c; }
        else if c == 'ü' { assert Replacements[4].0 == c; }
        else if c == 'Ü' { assert Replacements[5].0 == c; }
        else { assert Replacements[6].0 == c; }
      }
    }
  }

  lemma {:induction false} FlatMapSame(s: string, f: char -> string, g: char -> string)
    requires forall c :: f(c) == g(c)
    ensures FlatMap(s, f) == FlatMap(s, g)
  {
    if s != [] {
      FlatMapSame(s[1..], f, g);
    }
  }

  /** Every character outside the table survives, in order, and none of the table's letters remains. */
  lemma {:induction false} TransliterateShape(s: string)
    ensures forall j :: 0 <= j < |Transliterate(s)| ==> Transliterate(s)[j] !in Replaced
    ensures (forall j :: 0 <= j < |s| ==> s[j] !in Replaced) ==> Transliterate(s) == s
  {
    if s != [] {
      TransliterateShape(s[1..]);
      assert Transliterate(s) == Transl(s[0]) + Transliterate(s[1..]);
    }
  }

  /** Text without table letters is kept as it is. */
  lemma KeepPlain(s: string)
    requires forall j :: 0 <= j < |s| ==> s[j] !in Replaced
    ensures Transliterate(s) == s
  {
    TransliterateShape(s);
  }

  /** `toAscii` is idempotent. */
  lemma TransliterateIdempotent(s: string)
    ensures Transliterate(Transliterate(s)) == Transliterate(s)
  {
    TransliterateShape(s);
    TransliterateShape(Transliterate(s));
  }

  /** Transliteration distributes over concatenation. */
  lemma TransliterateAppend(a: string, b: string)
    ensures Transliterate(a + b) == Transliterate(a) + Transliterate(b)
  {
    FlatMapAppend(a, b, Transl);
  }
}

/** The transliterations the repository's tests check. */
module AsciiExamples {
  import opened Ascii

  lemma TransliterateONeal()
    ensures Transliterate("O'Neal") == "ONeal"
  {
  }

  lemma TransliterateOertliche()
    ensures Transliterate("Das Örtliche") == "Das Oertliche"
  {
    OertlicheSplit();
    KeepPlain("Das ");
    KeepPlain("rtliche");
    TransliterateOUmlaut();
    TransliterateAppend("Das ", "Ö" + "rtliche");
    TransliterateAppend("Ö", "rtliche");
  }

  lemma OertlicheSplit()
    ensures "Das Örtliche" == "Das " + ("Ö" + "rtliche")
    ensures "Das " + ("Oe" + "rtliche") == "Das Oertliche"
  {
  }

  lemma TransliterateOUmlaut()
    ensures Transliterate("Ö") == "Oe"
  {
    assert Transliterate("Ö") == "Oe" + FlatMap([], Transl);
  }
}
