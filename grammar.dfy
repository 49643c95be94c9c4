/**
 * The languages of the regular expressions in `parse_lp_input`, stated as
 * spans of the scanned text: a match is a record of the positions where each
 * part starts and ends, and it is well formed when every part holds the
 * characters its sub-pattern allows.  Which of the matches the regex engine
 * returns (leftmost, and at that position the longest) is stated here too; the
 * scanners that compute it live in module Scanner.
 */
module Grammar {
  import opened Text

  /** Positions `i` up to `j` of `s` all hold characters of class `k`. */
  predicate Span(s: string, i: nat, j: nat, k: CharClass) {
    i <= j <= |s| && forall m {:trigger InClass(s[m], k)} :: i <= m < j ==> InClass(s[m], k)
  }

  // ---------------------------------------------------------------------
  // Term sequence `[\+\-]?\d*[a-zA-Z]\w*(?:[\+\-]\d*[a-zA-Z]\w*)*`
  // (group 2 of modules/parser.py:34 and group 1 of modules/parser.py:46)
  // ---------------------------------------------------------------------

  /** A term occupies `start..end`: sign up to `signEnd`, digits up to `digitsEnd`, then the name. */
  datatype TermSpan = TermSpan(start: nat, signEnd: nat, digitsEnd: nat, end: nat)

  /** `[\+\-]?\d*[a-zA-Z]\w*` when `leading`, `[\+\-]\d*[a-zA-Z]\w*` otherwise. */
  predicate IsTerm(s: string, t: TermSpan, leading: bool) {
    && t.start <= t.signEnd <= t.digitsEnd < t.end <= |s|
    && (if t.signEnd == t.start then leading else t.signEnd == t.start + 1 && IsSign(s[t.start]))
    && Span(s, t.signEnd, t.digitsEnd, Digit)
    && IsLetter(s[t.digitsEnd])
    && Span(s, t.digitsEnd + 1, t.end, Word)
  }

  /** Signed terms, each starting where the one before ends, from `i` to `e`. */
  predicate IsSignedChain(s: string, i: nat, ts: seq<TermSpan>, e: nat)
    decreases |ts|
  {
    if ts == [] then i == e
    else ts[0].start == i && IsTerm(s, ts[0], false) && IsSignedChain(s, ts[0].end, ts[1..], e)
  }

  /** The term-sequence pattern matches `s[i..e]`, with terms `ts`. */
  predicate IsTermSeq(s: string, i: nat, ts: seq<TermSpan>, e: nat) {
    ts != [] && ts[0].start == i && IsTerm(s, ts[0], true) && IsSignedChain(s, ts[0].end, ts[1..], e)
  }

  // ---------------------------------------------------------------------
  // Objective pattern (modules/parser.py:34, re.IGNORECASE)
  // `(Maximize|Minimize)[:\s]+(<term sequence>)`
  // ---------------------------------------------------------------------

  /** `Maximize|Minimize` without regard to ASCII letter case. */
  predicate IsKeyword(w: string) {
    Lower(w) == "maximize" || Lower(w) == "minimize"
  }

  /** Keyword at `start`, separators up to `bodyStart`, the term sequence `body` up to `end`. */
  datatype ObjectiveSpan = ObjectiveSpan(start: nat, bodyStart: nat, body: seq<TermSpan>, end: nat)

  predicate IsObjective(s: string, m: ObjectiveSpan) {
    && m.start + 8 < m.bodyStart <= |s|
    && IsKeyword(s[m.start..m.start + 8])
    && Span(s, m.start + 8, m.bodyStart, Separator)
    && IsTermSeq(s, m.bodyStart, m.body, m.end)
  }

  ghost predicate ObjectiveMatchesAt(s: string, p: nat) {
    exists m: ObjectiveSpan :: m.start == p && IsObjective(s, m)
  }

  /** `m` is a match, and no match at its position is longer. */
  ghost predicate LongestObjective(s: string, m: ObjectiveSpan) {
    && IsObjective(s, m)
    && forall m': ObjectiveSpan :: m'.start == m.start && IsObjective(s, m') ==> m'.end <= m.end
  }

  /** What `re.search` returns: the longest match at the leftmost position that has one. */
  ghost predicate LeftmostObjective(s: string, m: ObjectiveSpan) {
    LongestObjective(s, m) && forall p :: 0 <= p < m.start ==> !ObjectiveMatchesAt(s, p)
  }

  // ---------------------------------------------------------------------
  // Constraint pattern (modules/parser.py:46)
  // `(<term sequence>)\s*([≤≥=])\s*(-?\d+\.?\d*)`
  // ---------------------------------------------------------------------

  /**
   * `-?\d+\.?\d*`: minus sign up to `wholeStart`, digits up to `wholeEnd`, then,
   * when `end` is past `wholeEnd`, a point and digits ("10." is a numeral).
   */
  datatype NumeralSpan = NumeralSpan(start: nat, wholeStart: nat, wholeEnd: nat, end: nat)

  predicate IsNumeral(s: string, n: NumeralSpan) {
    && n.start <= n.wholeStart < n.wholeEnd <= n.end <= |s|
    && (n.wholeStart == n.start || (n.wholeStart == n.start + 1 && s[n.start] == '-'))
    && Span(s, n.wholeStart, n.wholeEnd, Digit)
    && (n.end == n.wholeEnd || (s[n.wholeEnd] == '.' && Span(s, n.wholeEnd + 1, n.end, Digit)))
  }

  /** Terms from `start` to `lhsEnd`, spaces, the relation at `relationAt`, spaces, the numeral. */
  datatype ConstraintSpan = ConstraintSpan(start: nat, lhs: seq<TermSpan>, lhsEnd: nat, relationAt: nat, rhs: NumeralSpan)

  predicate IsConstraint(s: string, m: ConstraintSpan) {
    && IsTermSeq(s, m.start, m.lhs, m.lhsEnd)
    && Span(s, m.lhsEnd, m.relationAt, Space)
    && m.relationAt < |s| && IsRelation(s[m.relationAt])
    && Span(s, m.relationAt + 1, m.rhs.start, Space)
    && IsNumeral(s, m.rhs)
  }

  ghost predicate ConstraintMatchesAt(s: string, p: nat) {
    exists m: ConstraintSpan :: m.start == p && IsConstraint(s, m)
  }

  ghost predicate LongestConstraint(s: string, m: ConstraintSpan) {
    && IsConstraint(s, m)
    && forall m': ConstraintSpan :: m'.start == m.start && IsConstraint(s, m') ==> m'.rhs.end <= m.rhs.end
  }

  /**
   * What `re.findall` returns from position `from` on: matches that do not
   * overlap, each the longest one at the first position, at or after the end of
   * the match before, where some match starts.
   */
  ghost predicate ConstraintScan(s: string, from: nat, ms: seq<ConstraintSpan>)
    decreases |ms|
  {
    if ms == [] then forall p :: from <= p ==> !ConstraintMatchesAt(s, p)
    else
      && from <= ms[0].start
      && (forall p :: from <= p < ms[0].start ==> !ConstraintMatchesAt(s, p))
      && LongestConstraint(s, ms[0])
      && ConstraintScan(s, ms[0].rhs.end, ms[1..])
  }

  // ---------------------------------------------------------------------
  // Term pattern (modules/parser.py:37 and modules/parser.py:52)
  // `([\+\-]?\d*\.?\d*)([a-zA-Z]\w*)`
  // ---------------------------------------------------------------------

  /**
   * Sign up to `signEnd`, digits up to `wholeEnd`, then, when `wholeEnd` is
   * before `nameStart`, a point and digits; group 1 is `start..nameStart`,
   * group 2 (the name) is `nameStart..end`.
   */
  datatype PieceSpan = PieceSpan(start: nat, signEnd: nat, wholeEnd: nat, nameStart: nat, end: nat)

  predicate IsPiece(g: string, x: PieceSpan) {
    && x.start <= x.signEnd <= x.wholeEnd <= x.nameStart < x.end <= |g|
    && (x.signEnd == x.start || (x.signEnd == x.start + 1 && IsSign(g[x.start])))
    && Span(g, x.signEnd, x.wholeEnd, Digit)
    && (x.wholeEnd == x.nameStart || (g[x.wholeEnd] == '.' && Span(g, x.wholeEnd + 1, x.nameStart, Digit)))
    && IsLetter(g[x.nameStart])
    && Span(g, x.nameStart + 1, x.end, Word)
  }

  ghost predicate PieceMatchesAt(g: string, p: nat) {
    exists x: PieceSpan :: x.start == p && IsPiece(g, x)
  }

  ghost predicate LongestPiece(g: string, x: PieceSpan) {
    && IsPiece(g, x)
    && forall x': PieceSpan :: x'.start == x.start && IsPiece(g, x') ==> x'.end <= x.end
  }

  ghost predicate PieceScan(g: string, from: nat, xs: seq<PieceSpan>)
    decreases |xs|
  {
    if xs == [] then forall p :: from <= p ==> !PieceMatchesAt(g, p)
    else
      && from <= xs[0].start
      && (forall p :: from <= p < xs[0].start ==> !PieceMatchesAt(g, p))
      && LongestPiece(g, xs[0])
      && PieceScan(g, xs[0].end, xs[1..])
  }
}
