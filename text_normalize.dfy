/**
 * `normalizeText` of hooks/use-filters.ts: lower-case, decompose to Unicode
 * Normalization Form D, then delete the combining diacritical marks
 * U+0300 to U+036F.
 *
 * Decomposition covers the chosen alphabet: the precomposed Latin-1 letters
 * U+00C0 to U+00FF that Unicode decomposes into an ASCII letter and one mark
 * (grave, acute, circumflex, tilde, diaeresis, ring above, cedilla). Every
 * other character is its own decomposition in this model.
 */
module TextNormalize {
  import opened JsValue
  import opened JsStrings

  /** A combining diacritical mark, the range the source deletes. */
  predicate IsCombiningMark(c: char)
  {
    '\U{300}' <= c <= '\U{36F}'
  }

  /**
   * The lower-case base letter of the Latin-1 letter at offset `k` of its
   * 32-character row (U+00C0 or U+00E0 onwards), or '_' when that letter has
   * no decomposition. Offset 31 is 'ß' in the upper row and 'ÿ' in the lower.
   */
  function LatinBase(k: int, lowerRow: bool): (b: char)
    ensures b == '_' || 'a' <= b <= 'z'
  {
    if 0 <= k <= 5 then 'a'
    else if k == 7 then 'c'
    else if 8 <= k <= 11 then 'e'
    else if 12 <= k <= 15 then 'i'
    else if k == 17 then 'n'
    else if 18 <= k <= 22 then 'o'
    else if 25 <= k <= 28 then 'u'
    else if k == 29 then 'y'
    else if k == 31 && lowerRow then 'y'
    else '_'
  }

  /** The combining mark of the Latin-1 letter at offset `k` of its row. */
  function LatinMark(k: int): (m: char)
    ensures IsCombiningMark(m)
  {
    if k == 0 || k == 8 || k == 12 || k == 18 || k == 25 then '\U{300}'       // grave
    else if k == 1 || k == 9 || k == 13 || k == 19 || k == 26 || k == 29 then '\U{301}'  // acute
    else if k == 2 || k == 10 || k == 14 || k == 20 || k == 27 then '\U{302}'  // circumflex
    else if k == 3 || k == 17 || k == 21 then '\U{303}'                       // tilde
    else if k == 5 then '\U{30A}'                                              // ring above
    else if k == 7 then '\U{327}'                                              // cedilla
    else '\U{308}'                                                             // diaeresis
  }

  /** The canonical decomposition of one character. */
  function Decompose(c: char): (r: seq<char>)
    ensures r == [c] || (|r| == 2 && IsCombiningMark(r[1]) && !IsCombiningMark(r[0]))
  {
    if '\U{E0}' <= c <= '\U{FF}' then
      var k := c as int - 0xE0;
      var b := LatinBase(k, true);
      if b == '_' then [c] else [b, LatinMark(k)]
    else if '\U{C0}' <= c <= '\U{DF}' then
      var k := c as int - 0xC0;
      var b := LatinBase(k, false);
      if b == '_' then [c] else [(b as int - 32) as char, LatinMark(k)]
    else [c]
  }

  /** `s.normalize("NFD")`. */
  function Nfd(s: string): string
  {
    if s == [] then [] else Decompose(s[0]) + Nfd(s[1..])
  }

  /** `s.replace(/[̀-ͯ]/g, "")`. */
  function StripMarks(s: string): (r: string)
    ensures |r| <= |s|
    ensures forall i :: 0 <= i < |r| ==> !IsCombiningMark(r[i])
  {
    if s == [] then []
    else (if IsCombiningMark(s[0]) then [] else [s[0]]) + StripMarks(s[1..])
  }

  /**
   * Only the marks are removed: a text without marks comes back as it is,
   * and one made of marks alone comes back empty. With StripMarksConcat this
   * says the rest of the text is kept, in order.
   */
  lemma {:induction false} StripMarksExactly(s: string)
    ensures (forall i :: 0 <= i < |s| ==> !IsCombiningMark(s[i])) ==> StripMarks(s) == s
    ensures (forall i :: 0 <= i < |s| ==> IsCombiningMark(s[i])) ==> StripMarks(s) == []
    decreases |s|
  {
    if s != [] {
      StripMarksExactly(s[1..]);
      assert forall i :: 0 <= i < |s[1..]| ==> s[1..][i] == s[i + 1];
      assert s == [s[0]] + s[1..];
    }
  }

  /** The fold applied to a string. */
  function NormalizeString(s: string): string
  {
    StripMarks(Nfd(ToLowerCase(s)))
  }

  /** `normalizeText(text)`: "" for null, undefined, "" and non-strings. */
  function NormalizeText(v: Value): (r: string)
    ensures !v.Str? ==> r == ""
    ensures v.Str? ==> r == NormalizeString(v.s)
  {
    if !Truthy(v) || !v.Str? then "" else NormalizeString(v.s)
  }

  /** A character that the fold leaves as it is. */
  predicate IsNormalChar(c: char)
  {
    !IsUpper(c) && !IsCombiningMark(c) && Decompose(c) == [c]
  }

  predicate IsNormalString(s: string)
  {
    forall i :: 0 <= i < |s| ==> IsNormalChar(s[i])
  }

  lemma DecomposeOfLower(c: char)
    requires !IsUpper(c)
    ensures forall i :: 0 <= i < |Decompose(c)| ==>
              IsCombiningMark(Decompose(c)[i]) || IsNormalChar(Decompose(c)[i])
  {
  }

  lemma {:induction false} ToLowerCaseConcat(a: string, b: string)
    ensures ToLowerCase(a + b) == ToLowerCase(a) + ToLowerCase(b)
  {
  }

  lemma {:induction false} NfdConcat(a: string, b: string)
    ensures Nfd(a + b) == Nfd(a) + Nfd(b)
    decreases |a|
  {
    if a == [] {
      assert a + b == b;
    } else {
      NfdConcat(a[1..], b);
      assert (a + b)[0] == a[0] && (a + b)[1..] == a[1..] + b;
      var d := Decompose(a[0]);
      assert Nfd(a + b) == d + Nfd(a[1..] + b);
      assert Nfd(a) == d + Nfd(a[1..]);
      assert d + (Nfd(a[1..]) + Nfd(b)) == (d + Nfd(a[1..])) + Nfd(b);
    }
  }

  lemma {:induction false} StripMarksConcat(a: string, b: string)
    ensures StripMarks(a + b) == StripMarks(a) + StripMarks(b)
    decreases |a|
  {
    if a == [] {
      assert a + b == b;
    } else {
      StripMarksConcat(a[1..], b);
      assert (a + b)[1..] == a[1..] + b;
    }
  }

  /** The fold works character by character: it distributes over concatenation. */
  lemma NormalizeStringConcat(a: string, b: string)
    ensures NormalizeString(a + b) == NormalizeString(a) + NormalizeString(b)
  {
    ToLowerCaseConcat(a, b);
    NfdConcat(ToLowerCase(a), ToLowerCase(b));
    StripMarksConcat(Nfd(ToLowerCase(a)), Nfd(ToLowerCase(b)));
  }

  /** One character at a time: the result of the fold on `[c]`. */
  function FoldChar(c: char): (r: string)
    ensures r == NormalizeString([c])
  {
    assert ToLowerCase([c]) == [LowerChar(c)];
    assert Nfd([LowerChar(c)]) == Decompose(LowerChar(c)) + Nfd([]);
    assert Decompose(LowerChar(c)) + [] == Decompose(LowerChar(c));
    StripMarks(Decompose(LowerChar(c)))
  }

  /** The fold on a text is that of its first character followed by that of the rest. */
  lemma NormalizeCons(c: char, rest: string)
    ensures NormalizeString([c] + rest) == FoldChar(c) + NormalizeString(rest)
  {
    NormalizeStringConcat([c], rest);
  }

  /** Every character the fold outputs is one it would leave alone. */
  lemma {:induction false} NormalizeStringIsNormal(s: string)
    ensures IsNormalString(NormalizeString(s))
    decreases |s|
  {
    if s != [] {
      NormalizeStringIsNormal(s[1..]);
      assert s == [s[0]] + s[1..];
      NormalizeStringConcat([s[0]], s[1..]);
      var c := LowerChar(s[0]);
      var d := Decompose(c);
      DecomposeOfLower(c);
      assert ToLowerCase([s[0]]) == [c];
      assert Nfd([c]) == d + Nfd([]);
      assert d + [] == d;
      StripMarksKeepsNormal(d);
    }
  }

  lemma {:induction false} StripMarksKeepsNormal(d: string)
    requires forall i :: 0 <= i < |d| ==> IsCombiningMark(d[i]) || IsNormalChar(d[i])
    ensures IsNormalString(StripMarks(d))
    decreases |d|
  {
    if d != [] {
      StripMarksKeepsNormal(d[1..]);
    }
  }

  /** The fold is the identity on a string it would leave alone. */
  lemma {:induction false} NormalizeNormalString(s: string)
    requires IsNormalString(s)
    ensures NormalizeString(s) == s
    decreases |s|
  {
    if s != [] {
      NormalizeNormalString(s[1..]);
      assert s == [s[0]] + s[1..];
      NormalizeStringConcat([s[0]], s[1..]);
      assert ToLowerCase([s[0]]) == [s[0]];
      assert Nfd([s[0]]) == Decompose(s[0]) + Nfd([]);
      assert StripMarks([s[0]]) == [s[0]] + StripMarks([]);
    }
  }

  /** Normalizing twice is normalizing once. */
  lemma NormalizeIdempotent(s: string)
    ensures NormalizeString(NormalizeString(s)) == NormalizeString(s)
  {
    NormalizeStringIsNormal(s);
    NormalizeNormalString(NormalizeString(s));
  }

  /** An ASCII letter: the fold only lower-cases it. */
  predicate IsAsciiLetter(c: char)
  {
    ('a' <= c <= 'z') || ('A' <= c <= 'Z')
  }

  /** On ASCII letters the fold is `toLowerCase` alone. */
  lemma {:induction false} NormalizeAsciiLetters(s: string)
    requires forall i :: 0 <= i < |s| ==> IsAsciiLetter(s[i])
    ensures NormalizeString(s) == ToLowerCase(s)
    decreases |s|
  {
    if s != [] {
      NormalizeAsciiLetters(s[1..]);
      assert s == [s[0]] + s[1..];
      NormalizeStringConcat([s[0]], s[1..]);
      ToLowerCaseConcat([s[0]], s[1..]);
      assert FoldChar(s[0]) == [LowerChar(s[0])];
    }
  }

  lemma NormalizeOdinUpper()
    ensures NormalizeString("ODIN") == "odin"
  {
    NormalizeAsciiLetters("ODIN");
    assert ToLowerCase("ODIN") == "odin";
  }

  lemma FoldIAcute()
    ensures NormalizeString("\U{ED}") == "i"
  {
    assert FoldChar('\U{ED}') == StripMarks(Decompose('\U{ED}'));
    assert Decompose('\U{ED}') == ['i', '\U{301}'];
    assert StripMarks(['i', '\U{301}']) == "i";
  }

  lemma NormalizeOdinAccent()
    ensures NormalizeString("Od\U{ED}n") == "odin"
  {
    NormalizeAsciiLetters("Od");
    NormalizeAsciiLetters("n");
    assert ToLowerCase("Od") == "od";
    assert ToLowerCase("n") == "n";
    FoldIAcute();
    NormalizeStringConcat("\U{ED}", "n");
    assert "\U{ED}" + "n" == "\U{ED}n";
    NormalizeStringConcat("Od", "\U{ED}n");
    assert "Od" + "\U{ED}n" == "Od\U{ED}n";
  }

  /** Case and accents are ignored: "ODIN" and "Odín" both give "odin". */
  lemma NormalizeOdin()
    ensures NormalizeText(Str("ODIN")) == "odin"
    ensures NormalizeText(Str("Od\U{ED}n")) == "odin"
    ensures NormalizeText(Null) == "" && NormalizeText(Undefined) == "" && NormalizeText(Num(7)) == ""
  {
    NormalizeOdinUpper();
    NormalizeOdinAccent();
  }
}
