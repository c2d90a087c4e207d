/**
 * The five per-cell extractors of cars.py, each a hand-written left-to-right
 * scanner, each proved to return exactly what `re.search(pattern, s).group(1)`
 * returns for the pattern cars.py writes (see module Regex), quirks included:
 * the unescaped `.` of the displacement pattern, and the `|` and `"` that sit
 * inside the character classes of the engine-type pattern.
 */
module Extractors {
  import opened Options
  import Text
  import Regex

  /** `[v|i|f|w|h|l]`: the engine family letters, and the `|` written between them. */
  const FamilyChars: set<char> := {'v', '|', 'i', 'f', 'w', 'h', 'l'}

  /** `[-|" "]`: hyphen, `|`, `"` and space. */
  const SeparatorChars: set<char> := {'-', '|', '"', ' '}

  /** `^\d{1,2}.\d{1,2}` */
  const DisplacementPattern := Regex.Pattern(true,
    [Regex.Piece(Regex.Digit, 1, 2), Regex.Piece(Regex.AnyButNewline, 1, 1), Regex.Piece(Regex.Digit, 1, 2)])

  /** `[v|i|f|w|h|l][-|" "]?\d{1,2}` */
  const EngineTypePattern := Regex.Pattern(false,
    [Regex.Piece(Regex.OneOf(FamilyChars), 1, 1), Regex.Piece(Regex.OneOf(SeparatorChars), 0, 1), Regex.Piece(Regex.Digit, 1, 2)])

  /** `\d{1,2}` */
  const CylindersPattern := Regex.Pattern(false, [Regex.Piece(Regex.Digit, 1, 2)])

  /** `\D{1}` */
  const EngineConfigPattern := Regex.Pattern(false, [Regex.Piece(Regex.NonDigit, 1, 1)])

  /** `\d{1,4}` */
  const PowerPattern := Regex.Pattern(false, [Regex.Piece(Regex.Digit, 1, 4)])

  /** The number of digits starting at `i`, counting no further than `cap`. */
  function DigitsAt(s: string, i: nat, cap: nat): (n: nat)
    requires i <= |s|
    ensures i + n <= |s| && n <= cap
    ensures forall j :: i <= j < i + n ==> Text.IsDigit(s[j])
    ensures n < cap && i + n < |s| ==> !Text.IsDigit(s[i + n])
    decreases cap
  {
    if cap == 0 || i == |s| || !Text.IsDigit(s[i]) then 0 else 1 + DigitsAt(s, i + 1, cap - 1)
  }

  lemma DigitsAtIsRun(s: string, i: nat, cap: nat)
    requires i <= |s|
    ensures DigitsAt(s, i, cap) == Regex.Run(Regex.Digit, s, i, cap)
  {
  }

  // ---------------------------------------------------------------- displacement

  /**
   * `t` is one or two digits (`a` of them), one character that is not a
   * newline, then one or two digits.
   */
  predicate SplitAt(t: string, a: nat)
  {
    a + 2 <= |t| <= a + 3 && Text.AllDigits(t[..a]) && t[a] != '\n' && Text.AllDigits(t[a + 1..])
  }

  predicate DisplacementShaped(t: string)
  {
    SplitAt(t, 1) || SplitAt(t, 2)
  }

  /**
   * With `a` leading digits taken: one character other than a newline, then a
   * greedy run of one or two digits. Where that run ends, if it is there.
   */
  function AfterLead(s: string, a: nat): (e: Option<nat>)
    requires a <= |s|
  {
    if a + 1 < |s| && s[a] != '\n' && Text.IsDigit(s[a + 1]) then Some(a + 1 + DigitsAt(s, a + 1, 2)) else None
  }

  /**
   * extract_displacement: take two leading digits if there are two, and fall
   * back to one if what follows does not fit.
   */
  function ExtractDisplacement(s: string): (r: Option<string>)
    ensures r.Some? ==> r.value <= s && DisplacementShaped(r.value)
    ensures r.None? <==> forall m :: 0 <= m <= |s| ==> !DisplacementShaped(s[..m])
  {
    var lead := DigitsAt(s, 0, 2);
    if lead == 2 && AfterLead(s, 2).Some? then Some(s[..AfterLead(s, 2).value])
    else if lead >= 1 && AfterLead(s, 1).Some? then
      var t := s[..AfterLead(s, 1).value];
      assert SplitAt(t, 1);
      Some(t)
    else
      NoDisplacement(s);
      None
  }

  /** Where neither lead length fits, no prefix of `s` is displacement-shaped. */
  lemma NoDisplacement(s: string)
    requires !(DigitsAt(s, 0, 2) == 2 && AfterLead(s, 2).Some?)
    requires !(DigitsAt(s, 0, 2) >= 1 && AfterLead(s, 1).Some?)
    ensures forall m :: 0 <= m <= |s| ==> !DisplacementShaped(s[..m])
  {
    forall m | 0 <= m <= |s| ensures !DisplacementShaped(s[..m]) {
      var t := s[..m];
      assert !SplitAt(t, 1) && !SplitAt(t, 2);
    }
  }

  /** The scanner tries the digit counts in the regex engine's order: (2,2), (2,1), (1,2), (1,1). */
  lemma {:induction false} DisplacementIsRegex(s: string)
    ensures ExtractDisplacement(s) == Regex.Group(DisplacementPattern, s)
  {
    var ps := DisplacementPattern.pieces;
    var tail := ps[1..];
    assert tail[1..] == [Regex.Piece(Regex.Digit, 1, 2)];
    forall a: nat | a <= |s| ensures Regex.MatchAt(tail, s, a) == AfterLead(s, a) {
      TailIsAfterLead(s, a);
    }
    DigitsAtIsRun(s, 0, 2);
    var lead := DigitsAt(s, 0, 2);
    assert Regex.MatchAt(ps, s, 0) == Regex.Backtrack(ps, s, 0, lead);
    if lead == 2 {
      assert Regex.Backtrack(ps, s, 0, 2) == (match AfterLead(s, 2) case Some(e) => Some(e) case None => Regex.Backtrack(ps, s, 0, 1));
    }
    if lead >= 1 {
      assert Regex.Backtrack(ps, s, 0, 1) == (match AfterLead(s, 1) case Some(e) => Some(e) case None => Regex.Backtrack(ps, s, 0, 0));
    }
  }

  lemma TailIsAfterLead(s: string, a: nat)
    requires a <= |s|
    ensures Regex.MatchAt(DisplacementPattern.pieces[1..], s, a) == AfterLead(s, a)
  {
    var tail := DisplacementPattern.pieces[1..];
    var last := Regex.Piece(Regex.Digit, 1, 2);
    assert tail[1..] == [last];
    var n := Regex.Run(Regex.AnyButNewline, s, a, 1);
    assert Regex.MatchAt(tail, s, a) == Regex.Backtrack(tail, s, a, n);
    if n == 1 {
      Regex.SinglePiece(last, s, a + 1);
      DigitsAtIsRun(s, a + 1, 2);
      assert Regex.Backtrack(tail, s, a, 0) == None;
    }
  }

  // ---------------------------------------------------------------- engine type

  /** Where an engine code starting at `i` ends: a family letter, an optional separator, one or two digits. */
  function CodeAt(s: string, i: nat): (e: Option<nat>)
    requires i <= |s|
    ensures e.Some? ==> i + 2 <= e.value <= |s| && IsRawCode(s[i..e.value])
  {
    if i + 1 < |s| && s[i] in FamilyChars then
      if s[i + 1] in SeparatorChars then
        if i + 2 < |s| && Text.IsDigit(s[i + 2]) then
          var e := i + 3 + DigitsAt(s, i + 3, 1);
          assert s[i..e][2..] == s[i + 2..e];
          Some(e)
        else None
      else if Text.IsDigit(s[i + 1]) then
        var e := i + 2 + DigitsAt(s, i + 2, 1);
        assert s[i..e][1..] == s[i + 1..e];
        Some(e)
      else None
    else None
  }

  /** The text `re.search` reports for the engine-type pattern, before normalisation. */
  predicate IsRawCode(g: string)
  {
    2 <= |g| <= 4 && g[0] in FamilyChars &&
    ((|g| <= 3 && Text.AllDigits(g[1..])) || (3 <= |g| && g[1] in SeparatorChars && Text.AllDigits(g[2..])))
  }

  /** The leftmost engine code at or after `i`, as a span. */
  function FindCode(s: string, i: nat): (r: Option<(nat, nat)>)
    requires i <= |s|
    ensures r.Some? ==> i <= r.value.0 < r.value.1 <= |s| && CodeAt(s, r.value.0) == Some(r.value.1)
    ensures r.Some? ==> forall j :: i <= j < r.value.0 ==> CodeAt(s, j).None?
    ensures r.None? ==> forall j :: i <= j <= |s| ==> CodeAt(s, j).None?
    decreases |s| - i
  {
    if i == |s| then None
    else match CodeAt(s, i)
      case Some(e) => Some((i, e))
      case None => FindCode(s, i + 1)
  }

  /** The text extract_engine_type searches: lower-cased, every "flat" replaced by "f". */
  function Prepare(raw: string): string
  {
    Text.Replace(Text.Lower(raw), "flat", "f")
  }

  /** h becomes f, l becomes i, hyphens and spaces go: four `str.replace` calls in cars.py's order. */
  function Normalize(g: string): string
  {
    Text.Replace(Text.Replace(Text.Replace(Text.Replace(g, "h", "f"), "l", "i"), "-", ""), " ", "")
  }

  /** The family letter after normalisation. */
  function Family(c: char): char
  {
    if c == 'h' then 'f' else if c == 'l' then 'i' else c
  }

  /** What a successful extract_engine_type returns. */
  predicate IsEngineCode(t: string)
  {
    2 <= |t| <= 4 && t[0] in {'v', 'i', 'f', 'w', '|'} &&
    ((|t| <= 3 && Text.AllDigits(t[1..])) || (3 <= |t| && t[1] in {'|', '"'} && Text.AllDigits(t[2..])))
  }

  /** extract_engine_type on a string. */
  function ExtractEngineType(raw: string): (r: Option<string>)
    ensures r.None? <==> forall j :: 0 <= j <= |Prepare(raw)| ==> CodeAt(Prepare(raw), j).None?
    ensures r.Some? ==> IsEngineCode(r.value)
    ensures r.Some? ==> forall k :: 0 <= k < |r.value| ==> r.value[k] !in {'h', 'l', '-', ' '}
  {
    var s := Prepare(raw);
    match FindCode(s, 0)
    case None => None
    case Some((a, e)) =>
      NormalizeRawCode(s[a..e]);
      Some(Normalize(s[a..e]))
  }

  lemma {:induction false} NormalizeDigitsSuffix(a: string, d: string)
    requires Text.AllDigits(d)
    ensures Normalize(a + d) == Normalize(a) + d
  {
    var a1, a2, a3 := Text.Replace(a, "h", "f"), Text.Replace(Text.Replace(a, "h", "f"), "l", "i"),
      Text.Replace(Text.Replace(Text.Replace(a, "h", "f"), "l", "i"), "-", "");
    Text.ReplaceCharAppend(a, d, 'h', "f");
    Text.ReplaceCharDigits(d, 'h', "f");
    Text.ReplaceCharAppend(a1, d, 'l', "i");
    Text.ReplaceCharDigits(d, 'l', "i");
    Text.ReplaceCharAppend(a2, d, '-', "");
    Text.ReplaceCharDigits(d, '-', "");
    Text.ReplaceCharAppend(a3, d, ' ', "");
    Text.ReplaceCharDigits(d, ' ', "");
  }

  lemma NormalizeFamily(x: char)
    requires x in FamilyChars
    ensures Normalize([x]) == [Family(x)]
  {
    Text.ReplaceCharSingle(x, 'h', "f");
    var x1 := if x == 'h' then 'f' else x;
    Text.ReplaceCharSingle(x1, 'l', "i");
    Text.ReplaceCharSingle(Family(x), '-', "");
    Text.ReplaceCharSingle(Family(x), ' ', "");
  }

  lemma NormalizeFamilySeparator(x: char, y: char)
    requires x in FamilyChars && y in SeparatorChars
    ensures Normalize([x, y]) == [Family(x)] + (if y in {'-', ' '} then [] else [y])
  {
    var x1 := if x == 'h' then 'f' else x;
    var y3: string := if y == '-' then [] else [y];
    var y4: string := if y in {'-', ' '} then [] else [y];
    var s1 := Text.Replace([x, y], "h", "f");
    assert s1 == [x1, y] by {
      ReplacePair(x, y, 'h', "f");
      Text.ReplaceCharSingle(x, 'h', "f");
      Text.ReplaceCharSingle(y, 'h', "f");
    }
    var s2 := Text.Replace(s1, "l", "i");
    assert s2 == [Family(x), y] by {
      ReplacePair(x1, y, 'l', "i");
      Text.ReplaceCharSingle(x1, 'l', "i");
      Text.ReplaceCharSingle(y, 'l', "i");
    }
    var s3 := Text.Replace(s2, "-", "");
    assert s3 == [Family(x)] + y3 by {
      ReplacePair(Family(x), y, '-', "");
      Text.ReplaceCharSingle(Family(x), '-', "");
      Text.ReplaceCharSingle(y, '-', "");
    }
    assert Text.Replace(s3, " ", "") == [Family(x)] + y4 by {
      Text.ReplaceCharAppend([Family(x)], y3, ' ', "");
      Text.ReplaceCharSingle(Family(x), ' ', "");
      if y != '-' {
        Text.ReplaceCharSingle(y, ' ', "");
      }
    }
  }

  lemma ReplacePair(x: char, y: char, c: char, rep: string)
    ensures Text.Replace([x, y], [c], rep) == Text.Replace([x], [c], rep) + Text.Replace([y], [c], rep)
  {
    assert [x, y] == [x] + [y];
    Text.ReplaceCharAppend([x], [y], c, rep);
  }

  /** Normalising a raw code keeps its shape: family letter, optional kept separator, digits. */
  lemma NormalizeRawCode(g: string)
    requires IsRawCode(g)
    ensures IsEngineCode(Normalize(g))
    ensures forall k :: 0 <= k < |Normalize(g)| ==> Normalize(g)[k] !in {'h', 'l', '-', ' '}
  {
    if |g| <= 3 && Text.AllDigits(g[1..]) {
      NormalizeLetterDigits(g[0], g[1..]);
      assert g == [g[0]] + g[1..];
    } else {
      NormalizeLetterSeparatorDigits(g[0], g[1], g[2..]);
      assert g == [g[0], g[1]] + g[2..];
    }
  }

  lemma NormalizeLetterDigits(x: char, d: string)
    requires x in FamilyChars && 1 <= |d| <= 2 && Text.AllDigits(d)
    ensures Normalize([x] + d) == [Family(x)] + d
  {
    NormalizeDigitsSuffix([x], d);
    NormalizeFamily(x);
  }

  lemma NormalizeLetterSeparatorDigits(x: char, y: char, d: string)
    requires x in FamilyChars && y in SeparatorChars && Text.AllDigits(d)
    ensures Normalize([x, y] + d) == [Family(x)] + (if y in {'-', ' '} then [] else [y]) + d
  {
    NormalizeDigitsSuffix([x, y], d);
    NormalizeFamilySeparator(x, y);
  }

  /** After the family letter: the optional separator, then one or two digits, as the engine backtracks. */
  lemma SeparatorThenDigits(s: string, j: nat)
    requires j <= |s|
    ensures Regex.MatchAt(EngineTypePattern.pieces[1..], s, j) ==
      if j < |s| && s[j] in SeparatorChars then
        (if j + 1 < |s| && Text.IsDigit(s[j + 1]) then Some(j + 1 + DigitsAt(s, j + 1, 2)) else None)
      else if j < |s| && Text.IsDigit(s[j]) then Some(j + DigitsAt(s, j, 2))
      else None
  {
    var last := Regex.Piece(Regex.Digit, 1, 2);
    SeparatorTail(s, j);
    LastPiece(s, j);
    if j < |s| && s[j] in SeparatorChars {
      LastPiece(s, j + 1);
      assert !Text.IsDigit(s[j]);
    }
  }

  /** The digit piece alone: one or two digits, greedily. */
  lemma LastPiece(s: string, j: nat)
    requires j <= |s|
    ensures Regex.MatchAt([Regex.Piece(Regex.Digit, 1, 2)], s, j) ==
      if j < |s| && Text.IsDigit(s[j]) then Some(j + DigitsAt(s, j, 2)) else None
  {
    Regex.SinglePiece(Regex.Piece(Regex.Digit, 1, 2), s, j);
    DigitsAtIsRun(s, j, 2);
  }

  /** The optional separator: taken first when present, given back when the digits do not follow. */
  lemma SeparatorTail(s: string, j: nat)
    requires j <= |s|
    ensures var last := [Regex.Piece(Regex.Digit, 1, 2)];
      Regex.MatchAt(EngineTypePattern.pieces[1..], s, j) ==
      if j < |s| && s[j] in SeparatorChars then
        (match Regex.MatchAt(last, s, j + 1) case Some(e) => Some(e) case None => Regex.MatchAt(last, s, j))
      else Regex.MatchAt(last, s, j)
  {
    var tail := EngineTypePattern.pieces[1..];
    var last := Regex.Piece(Regex.Digit, 1, 2);
    assert tail[1..] == [last];
    var n := Regex.Run(Regex.OneOf(SeparatorChars), s, j, 1);
    assert Regex.MatchAt(tail, s, j) == Regex.Backtrack(tail, s, j, n);
    assert Regex.Backtrack(tail, s, j, 0) == Regex.MatchAt([last], s, j);
  }

  lemma CodeAtIsRegex(s: string, i: nat)
    requires i <= |s|
    ensures CodeAt(s, i) == Regex.MatchAt(EngineTypePattern.pieces, s, i)
  {
    var ps := EngineTypePattern.pieces;
    var n := Regex.Run(Regex.OneOf(FamilyChars), s, i, 1);
    assert Regex.MatchAt(ps, s, i) == Regex.Backtrack(ps, s, i, n);
    if n == 1 {
      SeparatorThenDigits(s, i + 1);
      assert Regex.Backtrack(ps, s, i, 0) == None;
      if i + 2 < |s| && Text.IsDigit(s[i + 2]) {
        assert DigitsAt(s, i + 2, 2) == 1 + DigitsAt(s, i + 3, 1);
      }
      if i + 1 < |s| && Text.IsDigit(s[i + 1]) {
        assert DigitsAt(s, i + 1, 2) == 1 + DigitsAt(s, i + 2, 1);
      }
    }
  }

  lemma {:induction false} FindCodeIsRegex(s: string, i: nat)
    requires i <= |s|
    ensures FindCode(s, i) == Regex.SearchFrom(EngineTypePattern.pieces, s, i)
    decreases |s| - i
  {
    CodeAtIsRegex(s, i);
    if i < |s| && CodeAt(s, i).None? {
      FindCodeIsRegex(s, i + 1);
    }
  }

  /** extract_engine_type is `re.search` on the prepared text, followed by normalisation. */
  lemma EngineTypeIsRegex(raw: string)
    ensures ExtractEngineType(raw) ==
      match Regex.Group(EngineTypePattern, Prepare(raw))
      case Some(g) => Some(Normalize(g))
      case None => None
  {
    FindCodeIsRegex(Prepare(raw), 0);
  }

  // ---------------------------------------------------------------- cylinders and power

  /** The span of the first run of digits at or after `i`, cut after `cap` digits. */
  function DigitRunFrom(s: string, i: nat, cap: nat): (r: Option<(nat, nat)>)
    requires i <= |s| && cap >= 1
    ensures r.None? <==> forall j :: i <= j < |s| ==> !Text.IsDigit(s[j])
    ensures r.Some? ==> i <= r.value.0 < r.value.1 <= |s| && r.value.1 - r.value.0 == DigitsAt(s, r.value.0, cap)
    ensures r.Some? ==> Text.IsDigit(s[r.value.0]) && forall j :: i <= j < r.value.0 ==> !Text.IsDigit(s[j])
    decreases |s| - i
  {
    if i == |s| then None
    else if Text.IsDigit(s[i]) then Some((i, i + DigitsAt(s, i, cap)))
    else DigitRunFrom(s, i + 1, cap)
  }

  /** `t` is the first run of digits of `s`, starting at `a` and cut after `cap` digits. */
  predicate LeftmostDigitRun(s: string, a: nat, t: string, cap: nat)
  {
    a + |t| <= |s| && s[a..a + |t|] == t && 1 <= |t| <= cap && Text.AllDigits(t) &&
    (forall j :: 0 <= j < a ==> !Text.IsDigit(s[j])) &&
    (|t| < cap ==> a + |t| == |s| || !Text.IsDigit(s[a + |t|]))
  }

  function FirstDigits(s: string, cap: nat): (r: Option<string>)
    requires cap >= 1
    ensures r.None? <==> forall j :: 0 <= j < |s| ==> !Text.IsDigit(s[j])
    ensures r.Some? ==> exists a: nat :: LeftmostDigitRun(s, a, r.value, cap)
  {
    match DigitRunFrom(s, 0, cap)
    case None => None
    case Some((a, e)) =>
      assert LeftmostDigitRun(s, a, s[a..e], cap);
      Some(s[a..e])
  }

  /** extract_cylinders: the first run of digits, at most two of them. */
  function ExtractCylinders(s: string): (r: Option<string>)
    ensures r.None? <==> forall j :: 0 <= j < |s| ==> !Text.IsDigit(s[j])
    ensures r.Some? ==> exists a: nat :: LeftmostDigitRun(s, a, r.value, 2)
  {
    FirstDigits(s, 2)
  }

  /** extract_power: the first run of digits, at most four of them. */
  function ExtractPower(s: string): (r: Option<string>)
    ensures r.None? <==> forall j :: 0 <= j < |s| ==> !Text.IsDigit(s[j])
    ensures r.Some? ==> exists a: nat :: LeftmostDigitRun(s, a, r.value, 4)
  {
    FirstDigits(s, 4)
  }

  lemma {:induction false} DigitRunIsRegex(s: string, i: nat, cap: nat)
    requires i <= |s| && cap >= 1
    ensures DigitRunFrom(s, i, cap) == Regex.SearchFrom([Regex.Piece(Regex.Digit, 1, cap)], s, i)
    decreases |s| - i
  {
    Regex.SinglePiece(Regex.Piece(Regex.Digit, 1, cap), s, i);
    DigitsAtIsRun(s, i, cap);
    if i < |s| && !Text.IsDigit(s[i]) {
      DigitRunIsRegex(s, i + 1, cap);
    }
  }

  lemma CylindersIsRegex(s: string)
    ensures ExtractCylinders(s) == Regex.Group(CylindersPattern, s)
  {
    DigitRunIsRegex(s, 0, 2);
  }

  lemma PowerIsRegex(s: string)
    ensures ExtractPower(s) == Regex.Group(PowerPattern, s)
  {
    DigitRunIsRegex(s, 0, 4);
  }

  // ---------------------------------------------------------------- engine configuration

  function NonDigitFrom(s: string, i: nat): (r: Option<nat>)
    requires i <= |s|
    ensures r.None? <==> forall j :: i <= j < |s| ==> Text.IsDigit(s[j])
    ensures r.Some? ==> i <= r.value < |s| && !Text.IsDigit(s[r.value]) && forall j :: i <= j < r.value ==> Text.IsDigit(s[j])
    decreases |s| - i
  {
    if i == |s| then None
    else if !Text.IsDigit(s[i]) then Some(i)
    else NonDigitFrom(s, i + 1)
  }

  /** `s[a]` is the first character of `s` that is not a digit. */
  predicate FirstNonDigitAt(s: string, a: nat)
  {
    a < |s| && !Text.IsDigit(s[a]) && forall j :: 0 <= j < a ==> Text.IsDigit(s[j])
  }

  /** extract_engine_config: the first character that is not a digit. */
  function ExtractEngineConfig(s: string): (r: Option<string>)
    ensures r.None? <==> Text.AllDigits(s)
    ensures r.Some? ==> exists a: nat :: FirstNonDigitAt(s, a) && r.value == [s[a]]
  {
    match NonDigitFrom(s, 0)
    case None => None
    case Some(a) =>
      assert FirstNonDigitAt(s, a);
      Some([s[a]])
  }

  lemma {:induction false} NonDigitIsRegex(s: string, i: nat)
    requires i <= |s|
    ensures var r := Regex.SearchFrom([Regex.Piece(Regex.NonDigit, 1, 1)], s, i);
      (r.None? <==> NonDigitFrom(s, i).None?) &&
      (r.Some? ==> r.value.0 == NonDigitFrom(s, i).value && r.value.1 == r.value.0 + 1)
    decreases |s| - i
  {
    Regex.SinglePiece(Regex.Piece(Regex.NonDigit, 1, 1), s, i);
    if i < |s| && Text.IsDigit(s[i]) {
      NonDigitIsRegex(s, i + 1);
    }
  }

  lemma EngineConfigIsRegex(s: string)
    ensures ExtractEngineConfig(s) == Regex.Group(EngineConfigPattern, s)
  {
    NonDigitIsRegex(s, 0);
    if NonDigitFrom(s, 0).Some? {
      var a := NonDigitFrom(s, 0).value;
      assert s[a..a + 1] == [s[a]];
    }
  }

  /**
   * What the later stages make of an extracted engine type: extract_engine_config
   * returns its family letter, extract_cylinders its trailing one or two digits.
   */
  lemma EngineCodeFields(t: string)
    requires IsEngineCode(t)
    ensures ExtractEngineConfig(t) == Some([t[0]])
    ensures ExtractCylinders(t) == Some(if Text.IsDigit(t[1]) then t[1..] else t[2..])
  {
    assert NonDigitFrom(t, 0) == Some(0);
    var k := if Text.IsDigit(t[1]) then 1 else 2;
    var n: nat := |t|;
    assert DigitsAt(t, k, 2) == n - k by {
      if n - k == 2 {
        assert DigitsAt(t, k + 1, 1) == 1;
      }
    }
    assert DigitRunFrom(t, k, 2) == Some((k, n));
    assert DigitRunFrom(t, 0, 2) == DigitRunFrom(t, 1, 2);
    assert DigitRunFrom(t, 0, 2) == Some((k, n));
    assert t[k..n] == t[k..];
  }

  // ---------------------------------------------------------------- applied to a column

  /** The five extractors, as `Series.apply` receives them. */
  datatype Field = Displacement | EngineType | Cylinders | EngineConfig | Power

  /**
   * `series.apply(extract_...)` on one cell: a NaN cell is not a string, so the
   * extractor's `except` clause answers None.
   */
  function Extract(f: Field, c: Option<string>): (r: Option<string>)
    ensures c.None? ==> r.None?
    ensures r.Some? && (f == Cylinders || f == Power) ==> 1 <= |r.value| && Text.AllDigits(r.value)
    ensures r.Some? && f == Cylinders ==> |r.value| <= 2
    ensures r.Some? && f == Power ==> |r.value| <= 4
    ensures r.Some? && f == EngineType ==> IsEngineCode(r.value)
    ensures r.Some? && f == Displacement ==> DisplacementShaped(r.value)
    ensures r.Some? && f == EngineConfig ==> |r.value| == 1 && !Text.IsDigit(r.value[0])
  {
    match c
    case None => None
    case Some(s) =>
      match f
      case Displacement => ExtractDisplacement(s)
      case EngineType => ExtractEngineType(s)
      case Cylinders => ExtractCylinders(s)
      case EngineConfig => ExtractEngineConfig(s)
      case Power => ExtractPower(s)
  }

  // ---------------------------------------------------------------- examples

  lemma LowerIs(raw: string, t: string)
    requires |raw| == |t| && forall k :: 0 <= k < |t| ==> Text.LowerChar(raw[k]) == t[k]
    ensures Text.Lower(raw) == t
  {
  }

  lemma FlatReplaced(s: string)
    requires s == "flat-6 ohc 12v"
    ensures Text.Replace(s, "flat", "f") == "f-6 ohc 12v"
  {
    assert s == "flat" + "-6 ohc 12v";
    assert "f-6 ohc 12v" == "f" + "-6 ohc 12v";
    Text.ReplaceLeading("flat", "-6 ohc 12v", "f");
  }

  lemma PrepareFlatSix(raw: string)
    requires raw == "Flat-6 OHC 12V"
    ensures Prepare(raw) == "f-6 ohc 12v"
  {
    LowerIs(raw, "flat-6 ohc 12v");
    FlatReplaced(Text.Lower(raw));
  }

  lemma PrepareWithoutF(raw: string, lowered: string)
    requires |raw| == |lowered| && forall k :: 0 <= k < |lowered| ==> Text.LowerChar(raw[k]) == lowered[k]
    requires 'f' !in lowered
    ensures Prepare(raw) == lowered
  {
    LowerIs(raw, lowered);
    Text.ReplaceWithoutFirstChar(lowered, "flat", "f");
  }

  /** A family letter, a hyphen and one digit at the very start are the leftmost engine code. */
  lemma LeadingCode(p: string)
    requires 3 <= |p| && p[0] in FamilyChars && p[1] == '-' && Text.IsDigit(p[2])
    requires |p| == 3 || !Text.IsDigit(p[3])
    ensures FindCode(p, 0) == Some((0, 3))
  {
    assert DigitsAt(p, 3, 1) == 0;
  }

  /** A family letter, a hyphen and one digit normalise to the family and the digit. */
  lemma HyphenCode(x: char, d: char)
    requires x in FamilyChars && Text.IsDigit(d)
    ensures Normalize([x, '-', d]) == [Family(x), d]
  {
    NormalizeLetterSeparatorDigits(x, '-', [d]);
    assert [x, '-', d] == [x, '-'] + [d];
  }

  lemma LeadingExtract(raw: string)
    requires FindCode(Prepare(raw), 0) == Some((0, 3))
    ensures ExtractEngineType(raw) == Some(Normalize(Prepare(raw)[0..3]))
  {
  }

  /** "Flat-6 OHC 12V": "flat" becomes "f" before the search, and the hyphen is stripped. */
  lemma FlatSixExample(raw: string)
    requires raw == "Flat-6 OHC 12V"
    ensures ExtractEngineType(raw) == Some("f6")
  {
    PrepareFlatSix(raw);
    var p := Prepare(raw);
    LeadingCode(p);
    LeadingExtract(raw);
    assert p[0..3] == "f-6";
    HyphenCode(p[0], p[2]);
  }

  lemma VEightExample(raw: string)
    requires raw == "V-8 OHV"
    ensures ExtractEngineType(raw) == Some("v8")
  {
    PrepareWithoutF(raw, "v-8 ohv");
    var p := Prepare(raw);
    LeadingCode(p);
    LeadingExtract(raw);
    assert p[0..3] == "v-8";
    HyphenCode(p[0], p[2]);
  }

  lemma IFourExample(raw: string)
    requires raw == "I-4 DOHC"
    ensures ExtractEngineType(raw) == Some("i4")
  {
    PrepareWithoutF(raw, "i-4 dohc");
    var p := Prepare(raw);
    LeadingCode(p);
    LeadingExtract(raw);
    assert p[0..3] == "i-4";
    HyphenCode(p[0], p[2]);
  }

  /** A horizontally opposed engine is filed under the flat family. */
  lemma HFourExample(raw: string)
    requires raw == "H-4"
    ensures ExtractEngineType(raw) == Some("f4")
  {
    PrepareWithoutF(raw, "h-4");
    var p := Prepare(raw);
    LeadingCode(p);
    LeadingExtract(raw);
    assert p[0..3] == "h-4";
    HyphenCode(p[0], p[2]);
  }

  /** The engine code "f6" yields six cylinders of the flat family. */
  lemma FlatSixFields(t: string)
    requires t == "f6"
    ensures ExtractCylinders(t) == Some("6") && ExtractEngineConfig(t) == Some("f")
  {
    EngineCodeFields(t);
  }

  /** The rating before " @ RPM". */
  lemma PowerExample(s: string)
    requires s == "450 @ 6000 RPM"
    ensures ExtractPower(s) == Some("450")
  {
    assert DigitRunFrom(s, 0, 4) == Some((0, 3));
    assert s[0..3] == "450";
  }

  lemma DisplacementExamples(a: string, b: string, c: string)
    requires a == "5.7L V8 OHV 16V" && b == "5x7" && c == "123"
    ensures ExtractDisplacement(a) == Some("5.7")
    ensures ExtractDisplacement(b) == Some("5x7")
    ensures ExtractDisplacement(c) == Some("123")
  {
    assert DigitsAt(a, 0, 2) == 1 && AfterLead(a, 1) == Some(3);
    assert DigitsAt(b, 0, 2) == 1 && AfterLead(b, 1) == Some(3);
    assert DigitsAt(c, 0, 2) == 2 && AfterLead(c, 2).None? && AfterLead(c, 1) == Some(3);
    assert a[..3] == "5.7" && b[..3] == "5x7" && c[..3] == "123";
  }
}
