/**
 * The part of Python's `re.search` that cars.py's five patterns use: a
 * concatenation of single-character classes, each repeated `{lo,hi}` times,
 * greedily, optionally anchored by `^`. Matching follows the backtracking
 * engine: a repeat first takes as many characters as it can (at most `hi`),
 * then gives them back one at a time until the rest of the pattern matches;
 * the search reports the match that starts leftmost.
 */
module Regex {
  import opened Options
  import Text

  datatype CharClass =
    | Digit                  // \d
    | NonDigit               // \D
    | AnyButNewline          // .
    | OneOf(chars: set<char>) // [...]

  predicate InClass(k: CharClass, c: char)
  {
    match k
    case Digit => Text.IsDigit(c)
    case NonDigit => !Text.IsDigit(c)
    case AnyButNewline => c != '\n'
    case OneOf(cs) => c in cs
  }

  /** `k{lo,hi}`; `?` is `{0,1}` and a plain class is `{1,1}`. */
  datatype Piece = Piece(k: CharClass, lo: nat, hi: nat)

  /** `anchored` is a leading `^` (without MULTILINE: only index 0 can match). */
  datatype Pattern = Pattern(anchored: bool, pieces: seq<Piece>)

  /** How many characters from `i` on belong to `k`, counting no further than `hi`. */
  function Run(k: CharClass, s: string, i: nat, hi: nat): (n: nat)
    requires i <= |s|
    ensures i + n <= |s| && n <= hi
    ensures forall j :: i <= j < i + n ==> InClass(k, s[j])
    ensures n < hi && i + n < |s| ==> !InClass(k, s[i + n])
    decreases hi
  {
    if hi == 0 || i == |s| || !InClass(k, s[i]) then 0 else 1 + Run(k, s, i + 1, hi - 1)
  }

  /** End of the first match of `ps` that starts at `i`, in backtracking order. */
  function MatchAt(ps: seq<Piece>, s: string, i: nat): (e: Option<nat>)
    requires i <= |s|
    ensures e.Some? ==> i <= e.value <= |s|
    decreases |ps|, 1
  {
    if ps == [] then Some(i) else Backtrack(ps, s, i, Run(ps[0].k, s, i, ps[0].hi))
  }

  /** The first piece has taken `n` characters; try the rest, then give one back. */
  function Backtrack(ps: seq<Piece>, s: string, i: nat, n: nat): (e: Option<nat>)
    requires ps != [] && i + n <= |s|
    ensures e.Some? ==> i + ps[0].lo <= e.value <= |s|
    decreases |ps|, 0, n
  {
    if n < ps[0].lo then None
    else match MatchAt(ps[1..], s, i + n)
      case Some(e) => Some(e)
      case None => if n == 0 then None else Backtrack(ps, s, i, n - 1)
  }

  /** The leftmost match at or after `i`, as a span. */
  function SearchFrom(ps: seq<Piece>, s: string, i: nat): (r: Option<(nat, nat)>)
    requires i <= |s|
    ensures r.Some? ==> i <= r.value.0 <= r.value.1 <= |s| && MatchAt(ps, s, r.value.0) == Some(r.value.1)
    ensures r.Some? ==> forall j :: i <= j < r.value.0 ==> MatchAt(ps, s, j).None?
    ensures r.None? ==> forall j :: i <= j <= |s| ==> MatchAt(ps, s, j).None?
    decreases |s| - i
  {
    match MatchAt(ps, s, i)
    case Some(e) => Some((i, e))
    case None => if i == |s| then None else SearchFrom(ps, s, i + 1)
  }

  /** `re.search(p, s)`: the span of the match, or None. */
  function Search(p: Pattern, s: string): (r: Option<(nat, nat)>)
    ensures r.Some? ==> r.value.0 <= r.value.1 <= |s|
    ensures r.Some? && p.anchored ==> r.value.0 == 0
  {
    if p.anchored then
      match MatchAt(p.pieces, s, 0)
      case Some(e) => Some((0, e))
      case None => None
    else SearchFrom(p.pieces, s, 0)
  }

  /**
   * `search.group(1)` when group 1 encloses the whole pattern, as it does in
   * each of cars.py's patterns; None when there is no match.
   */
  function Group(p: Pattern, s: string): (r: Option<string>)
  {
    match Search(p, s)
    case Some((a, e)) => Some(s[a..e])
    case None => None
  }

  /** A single repeat with nothing after it keeps all it could take, if that is enough. */
  lemma SinglePiece(q: Piece, s: string, i: nat)
    requires i <= |s|
    ensures MatchAt([q], s, i) ==
      if Run(q.k, s, i, q.hi) >= q.lo then Some(i + Run(q.k, s, i, q.hi)) else None
  {
    var n := Run(q.k, s, i, q.hi);
    assert [q][1..] == [];
    assert MatchAt([q], s, i) == Backtrack([q], s, i, n);
  }
}
