/**
 * The Python string operations cars.py relies on, over ASCII text:
 * `str.lower`, `str.replace` and case-insensitive substring search.
 */
module Text {
  import opened Options

  /** `\d` restricted to ASCII. */
  predicate IsDigit(c: char) { '0' <= c <= '9' }

  predicate IsUpper(c: char) { 'A' <= c <= 'Z' }

  predicate AllDigits(s: string) { forall k :: 0 <= k < |s| ==> IsDigit(s[k]) }

  /** ASCII lower-casing of one character. */
  function LowerChar(c: char): char
  {
    if IsUpper(c) then (c as int + 32) as char else c
  }

  /** `str.lower()`: every character lower-cased, nothing added or removed. */
  function Lower(s: string): (r: string)
    ensures |r| == |s|
    ensures forall k :: 0 <= k < |s| ==> r[k] == LowerChar(s[k]) && !IsUpper(r[k])
    decreases |s|
  {
    if s == [] then [] else [LowerChar(s[0])] + Lower(s[1..])
  }

  /**
   * `str.replace(pat, rep)` for a non-empty `pat`: occurrences are found left to
   * right and never overlap; text after a replacement is scanned afresh.
   */
  function Replace(s: string, pat: string, rep: string): string
    requires pat != []
    decreases |s|
  {
    if |s| < |pat| then s
    else if s[..|pat|] == pat then rep + Replace(s[|pat|..], pat, rep)
    else [s[0]] + Replace(s[1..], pat, rep)
  }

  /** `w` occurs in `s` starting at index `k`. */
  predicate OccursAt(s: string, w: string, k: nat)
  {
    k + |w| <= |s| && s[k..k + |w|] == w
  }

  /** Substring test, scanning left to right. */
  predicate Contains(s: string, w: string)
    decreases |s|
  {
    if |s| < |w| then false else s[..|w|] == w || Contains(s[1..], w)
  }

  /**
   * `re.search(w, s, re.IGNORECASE)` for a lower-case literal `w` without
   * metacharacters, as pandas' `str.contains(w, case=False)` runs it.
   */
  predicate ContainsIgnoreCase(s: string, w: string)
  {
    Contains(Lower(s), w)
  }

  lemma {:induction false} ContainsIff(s: string, w: string)
    ensures Contains(s, w) <==> exists k: nat :: OccursAt(s, w, k)
    decreases |s|
  {
    if |s| < |w| {
      forall k: nat ensures !OccursAt(s, w, k) { }
    } else if s[..|w|] == w {
      assert OccursAt(s, w, 0);
    } else {
      ContainsIff(s[1..], w);
      if Contains(s[1..], w) {
        var k: nat :| OccursAt(s[1..], w, k);
        assert s[k + 1..k + 1 + |w|] == s[1..][k..k + |w|];
        assert OccursAt(s, w, k + 1);
      } else {
        forall k: nat | OccursAt(s, w, k) ensures false {
          if k > 0 {
            assert s[1..][k - 1..k - 1 + |w|] == s[k..k + |w|];
            assert OccursAt(s[1..], w, k - 1);
          }
        }
      }
    }
  }

  /** `s.find(pat, i)`: the index of the leftmost occurrence of `pat` in `s` at or after `i`, if any. */
  function FindFrom(s: string, pat: string, i: nat): (r: Option<nat>)
    requires i <= |s|
    ensures r.Some? ==> i <= r.value && r.value + |pat| <= |s|
    decreases |s| - i
  {
    if |s| - i < |pat| then None
    else if s[i..i + |pat|] == pat then Some(i)
    else FindFrom(s, pat, i + 1)
  }

  /** `FindFrom` answers with the leftmost occurrence from `i` on, and with None exactly when there is none. */
  lemma {:induction false} FindLeftmost(s: string, pat: string, i: nat)
    requires i <= |s|
    ensures FindFrom(s, pat, i).Some? ==> OccursAt(s, pat, FindFrom(s, pat, i).value)
    ensures FindFrom(s, pat, i).Some? ==> forall k: nat :: i <= k < FindFrom(s, pat, i).value ==> !OccursAt(s, pat, k)
    ensures FindFrom(s, pat, i).None? <==> forall k: nat :: i <= k ==> !OccursAt(s, pat, k)
    decreases |s| - i
  {
    if |s| - i < |pat| {
      assert forall k: nat :: i <= k ==> !OccursAt(s, pat, k);
    } else if s[i..i + |pat|] == pat {
      assert OccursAt(s, pat, i);
    } else {
      FindLeftmost(s, pat, i + 1);
      assert !OccursAt(s, pat, i);
    }
  }

  /** `s.find(pat)` reports no occurrence exactly when the substring test fails. */
  lemma FindIsContains(s: string, pat: string)
    ensures FindFrom(s, pat, 0).None? <==> !Contains(s, pat)
  {
    FindLeftmost(s, pat, 0);
    ContainsIff(s, pat);
  }

  /** `s[i:].split(pat)` for a non-empty `pat`: the pieces between leftmost, non-overlapping occurrences. */
  function SplitFrom(s: string, pat: string, i: nat): (parts: seq<string>)
    requires pat != [] && i <= |s|
    ensures parts != []
    decreases |s| - i
  {
    match FindFrom(s, pat, i)
      case None => [s[i..]]
      case Some(k) => [s[i..k]] + SplitFrom(s, pat, k + |pat|)
  }

  /** `sep.join(parts)`. */
  function Join(parts: seq<string>, sep: string): string
    requires parts != []
    decreases |parts|
  {
    if |parts| == 1 then parts[0] else parts[0] + sep + Join(parts[1..], sep)
  }

  /** Scanning past a character that does not start an occurrence glues it to the first piece. */
  lemma SplitSkip(s: string, pat: string, i: nat)
    requires pat != [] && i + |pat| <= |s| && s[i..i + |pat|] != pat
    ensures SplitFrom(s, pat, i) == [[s[i]] + SplitFrom(s, pat, i + 1)[0]] + SplitFrom(s, pat, i + 1)[1..]
  {
    match FindFrom(s, pat, i + 1)
      case None =>
        assert s[i..] == [s[i]] + s[i + 1..];
      case Some(k) =>
        assert s[i..k] == [s[i]] + s[i + 1..k];
  }

  lemma JoinCons(x: string, parts: seq<string>, sep: string)
    ensures Join([x] + parts, sep) == if parts == [] then x else x + sep + Join(parts, sep)
  {
    assert ([x] + parts)[1..] == parts;
  }

  /** An empty first piece leaves just the separator in front. */
  lemma JoinEmptyFirst(parts: seq<string>, sep: string)
    requires parts != []
    ensures Join([[]] + parts, sep) == sep + Join(parts, sep)
  {
    JoinCons([], parts, sep);
  }

  /** Gluing a character to the first piece glues it to the front of the joined text. */
  lemma JoinGlue(c: char, parts: seq<string>, sep: string)
    requires parts != []
    ensures Join([[c] + parts[0]] + parts[1..], sep) == [c] + Join(parts, sep)
  {
    var rest := parts[1..];
    JoinCons([c] + parts[0], rest, sep);
    assert parts == [parts[0]] + rest;
    JoinCons(parts[0], rest, sep);
    if rest != [] {
      var more := Join(rest, sep);
      assert [c] + (parts[0] + sep + more) == [c] + parts[0] + sep + more;
    }
  }

  lemma SliceOfSlice<T>(s: seq<T>, i: nat, j: nat)
    requires i + j <= |s|
    ensures s[i..][..j] == s[i..i + j] && s[i..][j..] == s[i + j..]
  {
  }

  /** `SplitFrom` once unfolded at an occurrence found at `k`. */
  lemma SplitFound(s: string, pat: string, i: nat, k: nat)
    requires pat != [] && i <= |s| && FindFrom(s, pat, i) == Some(k)
    ensures SplitFrom(s, pat, i) == [s[i..k]] + SplitFrom(s, pat, k + |pat|)
  {
  }

  /** The step of `ReplaceFromIsSplitJoin` at an occurrence of the pattern. */
  lemma ReplaceAtMatch(t: string, pat: string, rep: string, tail: seq<string>)
    requires pat != [] && |t| >= |pat| && t[..|pat|] == pat && tail != []
    requires Replace(t[|pat|..], pat, rep) == Join(tail, rep)
    ensures Replace(t, pat, rep) == Join([[]] + tail, rep)
  {
    JoinEmptyFirst(tail, rep);
  }

  /** The step of `ReplaceFromIsSplitJoin` past a character that starts no occurrence. */
  lemma ReplaceSkip(t: string, pat: string, rep: string, tail: seq<string>)
    requires pat != [] && |t| >= |pat| && t[..|pat|] != pat && tail != []
    requires Replace(t[1..], pat, rep) == Join(tail, rep)
    ensures Replace(t, pat, rep) == Join([[t[0]] + tail[0]] + tail[1..], rep)
  {
    JoinGlue(t[0], tail, rep);
  }

  /** `SplitFrom` at an occurrence starts with an empty piece. */
  lemma SplitAtMatch(s: string, pat: string, i: nat)
    requires pat != [] && i + |pat| <= |s| && s[i..i + |pat|] == pat
    ensures SplitFrom(s, pat, i) == [[]] + SplitFrom(s, pat, i + |pat|)
  {
    assert FindFrom(s, pat, i) == Some(i);
    SplitFound(s, pat, i, i);
    assert s[i..i] == [];
  }

  /** `s[i:].replace(pat, rep) == rep.join(s[i:].split(pat))`. */
  lemma {:induction false} ReplaceFromIsSplitJoin(s: string, pat: string, rep: string, i: nat)
    requires pat != [] && i <= |s|
    ensures Replace(s[i..], pat, rep) == Join(SplitFrom(s, pat, i), rep)
    decreases |s| - i
  {
    if |s| - i < |pat| {
      assert SplitFrom(s, pat, i) == [s[i..]];
    } else if s[i..i + |pat|] == pat {
      var tail := SplitFrom(s, pat, i + |pat|);
      ReplaceFromIsSplitJoin(s, pat, rep, i + |pat|);
      assert Replace(s[i..], pat, rep) == Join([[]] + tail, rep) by {
        SliceOfSlice(s, i, |pat|);
        ReplaceAtMatch(s[i..], pat, rep, tail);
      }
      SplitAtMatch(s, pat, i);
    } else {
      var tail := SplitFrom(s, pat, i + 1);
      ReplaceFromIsSplitJoin(s, pat, rep, i + 1);
      assert Replace(s[i..], pat, rep) == Join([[s[i]] + tail[0]] + tail[1..], rep) by {
        SliceOfSlice(s, i, |pat|);
        SliceOfSlice(s, i, 1);
        ReplaceSkip(s[i..], pat, rep, tail);
      }
      SplitSkip(s, pat, i);
    }
  }

  /** `s.replace(pat, rep) == rep.join(s.split(pat))`, an equivalent formulation of `str.replace`. */
  lemma ReplaceIsSplitJoin(s: string, pat: string, rep: string)
    requires pat != []
    ensures Replace(s, pat, rep) == Join(SplitFrom(s, pat, 0), rep)
  {
    ReplaceFromIsSplitJoin(s, pat, rep, 0);
    assert s[0..] == s;
  }

  /** With no occurrence of `pat`, `str.replace` leaves the text as it is. */
  lemma {:induction false} ReplaceAbsent(s: string, pat: string, rep: string)
    requires pat != []
    requires !Contains(s, pat)
    ensures Replace(s, pat, rep) == s
    decreases |s|
  {
    if |s| >= |pat| {
      ReplaceAbsent(s[1..], pat, rep);
      assert [s[0]] + s[1..] == s;
    }
  }

  /** Text without the pattern's first character has no occurrence to replace. */
  lemma {:induction false} ReplaceWithoutFirstChar(s: string, pat: string, rep: string)
    requires pat != [] && pat[0] !in s
    ensures Replace(s, pat, rep) == s
    decreases |s|
  {
    if |s| >= |pat| {
      assert s[..|pat|][0] == s[0];
      ReplaceWithoutFirstChar(s[1..], pat, rep);
      assert [s[0]] + s[1..] == s;
    }
  }

  /** An occurrence at the front, with no further start of the pattern after it, is the only one replaced. */
  lemma ReplaceLeading(pat: string, rest: string, rep: string)
    requires pat != [] && pat[0] !in rest
    ensures Replace(pat + rest, pat, rep) == rep + rest
  {
    var s := pat + rest;
    assert s[..|pat|] == pat && s[|pat|..] == rest;
    ReplaceWithoutFirstChar(rest, pat, rep);
  }

  /** Replacing by something no longer than the pattern never lengthens the text. */
  lemma {:induction false} ReplaceShrinks(s: string, pat: string, rep: string)
    requires pat != [] && |rep| <= |pat|
    ensures |Replace(s, pat, rep)| <= |s|
    decreases |s|
  {
    if |s| >= |pat| {
      if s[..|pat|] == pat {
        ReplaceShrinks(s[|pat|..], pat, rep);
      } else {
        ReplaceShrinks(s[1..], pat, rep);
      }
    }
  }

  /** A one-character replacement works character by character, so it distributes over concatenation. */
  lemma {:induction false} ReplaceCharAppend(a: string, b: string, c: char, rep: string)
    ensures Replace(a + b, [c], rep) == Replace(a, [c], rep) + Replace(b, [c], rep)
    decreases |a|
  {
    if a == [] {
      assert a + b == b;
    } else {
      assert (a + b)[1..] == a[1..] + b;
      assert (a + b)[..1] == a[..1];
      ReplaceCharAppend(a[1..], b, c, rep);
    }
  }

  /** A one-character replacement on a single character. */
  lemma ReplaceCharSingle(x: char, c: char, rep: string)
    ensures Replace([x], [c], rep) == if x == c then rep else [x]
  {
    assert [x][..1] == [x];
    assert [x][1..] == [];
  }

  /** Digits are left alone by replacing a non-digit character. */
  lemma {:induction false} ReplaceCharDigits(d: string, c: char, rep: string)
    requires AllDigits(d) && !IsDigit(c)
    ensures Replace(d, [c], rep) == d
    decreases |d|
  {
    if d != [] {
      assert d[..1] == [d[0]];
      ReplaceCharDigits(d[1..], c, rep);
      assert [d[0]] + d[1..] == d;
    }
  }
}
