/**
 * Direct scanners for the patterns of `parse_lp_input`, each proved to return
 * the match the regex engine returns: at a position, the longest match of the
 * pattern (for these patterns every backtracking step lands on a character that
 * cannot continue the match, so the first match found is the greedy one); over
 * a text, the leftmost match (`re.search`) or the leftmost non-overlapping
 * matches in order (`re.findall`).
 */
module Scanner {
  import opened Wrappers
  import opened Text
  import opened Grammar

  /** Where an optional `[\+\-]` at `i` ends. */
  function SignEnd(s: string, i: nat): (q: nat)
    requires i <= |s|
    ensures q == i || (q == i + 1 && i < |s| && IsSign(s[i]))
    ensures q == i ==> i == |s| || !IsSign(s[i])
  {
    if i < |s| && IsSign(s[i]) then i + 1 else i
  }

  // ---------------------------------------------------------------------
  // One term, and chains of terms
  // ---------------------------------------------------------------------

  /** The greedy match of one term at `i` (signed unless `leading`). */
  function TermAt(s: string, i: nat, leading: bool): (r: Option<TermSpan>)
    requires i <= |s|
    ensures r.Some? ==> r.value.start == i && IsTerm(s, r.value, leading)
    ensures r.Some? ==> r.value.end == |s| || !IsWordChar(s[r.value.end])
  {
    var q := SignEnd(s, i);
    if !leading && q == i then None
    else
      var a := RunEnd(s, q, Digit);
      if a < |s| && IsLetter(s[a]) then Some(TermSpan(i, q, a, RunEnd(s, a + 1, Word)))
      else None
  }

  /**
   * Any term at `t.start` is found, with the same sign and digits and a name
   * at least as long; it is the one found when a non-word character follows it.
   */
  lemma TermAtFinds(s: string, t: TermSpan, leading: bool)
    requires IsTerm(s, t, leading)
    ensures TermAt(s, t.start, leading).Some?
    ensures TermAt(s, t.start, leading).value.digitsEnd == t.digitsEnd
    ensures t.end <= TermAt(s, t.start, leading).value.end
    ensures t.end == |s| || !IsWordChar(s[t.end]) ==> TermAt(s, t.start, leading) == Some(t)
  {
    var i := t.start;
    assert !IsSign(s[t.signEnd]) by {
      if t.signEnd < t.digitsEnd { assert InClass(s[t.signEnd], Digit); }
    }
    assert SignEnd(s, i) == t.signEnd;
    RunStops(s, t.signEnd, Digit, t.digitsEnd - t.signEnd);
    RunCovers(s, t.digitsEnd + 1, Word, t.end - (t.digitsEnd + 1));
    if t.end == |s| || !IsWordChar(s[t.end]) {
      RunStops(s, t.digitsEnd + 1, Word, t.end - (t.digitsEnd + 1));
    }
  }

  /** A run of signed terms and where it ends. */
  datatype Chain = Chain(terms: seq<TermSpan>, end: nat)

  lemma ChainCons(s: string, j: nat, t: TermSpan, rest: seq<TermSpan>, e: nat)
    requires t.start == j && IsTerm(s, t, false) && IsSignedChain(s, t.end, rest, e)
    ensures IsSignedChain(s, j, [t] + rest, e)
  {
    assert ([t] + rest)[1..] == rest;
  }

  /** `(?:[\+\-]\d*[a-zA-Z]\w*)*` from `j`, greedily. */
  function MoreTerms(s: string, j: nat): (c: Chain)
    requires j <= |s|
    ensures j <= c.end <= |s|
    ensures IsSignedChain(s, j, c.terms, c.end)
    ensures TermAt(s, c.end, false).None?
    ensures c.terms != [] ==> c.end == |s| || !IsWordChar(s[c.end])
    decreases |s| - j
  {
    match TermAt(s, j, false)
    case None => Chain([], j)
    case Some(t) =>
      var rest := MoreTerms(s, t.end);
      ChainCons(s, j, t, rest.terms, rest.end);
      Chain([t] + rest.terms, rest.end)
  }

  /** No chain of signed terms from `j` reaches past the greedy one. */
  lemma {:induction false} MoreTermsLongest(s: string, j: nat, ts: seq<TermSpan>, e: nat)
    requires j <= |s| && IsSignedChain(s, j, ts, e)
    ensures e <= MoreTerms(s, j).end
    decreases |ts|
  {
    if ts != [] {
      var t := ts[0];
      TermAtFinds(s, t, false);
      var u := TermAt(s, j, false).value;
      assert MoreTerms(s, j).end == MoreTerms(s, u.end).end;
      if ts[1..] != [] {
        assert IsTerm(s, ts[1..][0], false);
        assert u == t;
        MoreTermsLongest(s, t.end, ts[1..], e);
      }
    }
  }

  /** A chain followed by a character that cannot start or continue a term is the greedy one. */
  lemma {:induction false} MoreTermsExact(s: string, j: nat, ts: seq<TermSpan>, e: nat)
    requires j <= |s| && IsSignedChain(s, j, ts, e)
    requires e >= |s| || (!IsWordChar(s[e]) && !IsSign(s[e]))
    ensures MoreTerms(s, j) == Chain(ts, e)
    decreases |ts|
  {
    if ts != [] {
      var t := ts[0];
      assert t.end == |s| || !IsWordChar(s[t.end]) by {
        if ts[1..] != [] { assert IsTerm(s, ts[1..][0], false); }
      }
      TermAtFinds(s, t, false);
      MoreTermsExact(s, t.end, ts[1..], e);
      assert [t] + ts[1..] == ts;
    }
  }

  /** The greedy match of the term-sequence pattern at `i`. */
  function TermSeqAt(s: string, i: nat): (r: Option<Chain>)
    requires i <= |s|
    ensures r.Some? ==> i <= r.value.end <= |s|
    ensures r.Some? ==> r.value.end == |s| || !IsWordChar(s[r.value.end])
  {
    match TermAt(s, i, true)
    case None => None
    case Some(t) =>
      var c := MoreTerms(s, t.end);
      Some(Chain([t] + c.terms, c.end))
  }

  /** What the term-sequence scanner finds is a match of the pattern. */
  lemma TermSeqAtIs(s: string, i: nat)
    requires i <= |s|
    ensures TermSeqAt(s, i).Some? ==> IsTermSeq(s, i, TermSeqAt(s, i).value.terms, TermSeqAt(s, i).value.end)
  {
    if TermAt(s, i, true).Some? {
      var t := TermAt(s, i, true).value;
      var c := MoreTerms(s, t.end);
      assert ([t] + c.terms)[1..] == c.terms;
    }
  }

  /** Every match of the term-sequence pattern at `i` is found, and none is longer than the one found. */
  lemma TermSeqLongest(s: string, i: nat, ts: seq<TermSpan>, e: nat)
    requires IsTermSeq(s, i, ts, e)
    ensures TermSeqAt(s, i).Some? && e <= TermSeqAt(s, i).value.end
  {
    var t := ts[0];
    TermAtFinds(s, t, true);
    var u := TermAt(s, i, true).value;
    if ts[1..] != [] {
      assert IsTerm(s, ts[1..][0], false);
      assert u == t;
      MoreTermsLongest(s, t.end, ts[1..], e);
    }
  }

  /** A match followed by a character that cannot continue it is the one found. */
  lemma TermSeqExact(s: string, i: nat, ts: seq<TermSpan>, e: nat)
    requires IsTermSeq(s, i, ts, e)
    requires e >= |s| || (!IsWordChar(s[e]) && !IsSign(s[e]))
    ensures TermSeqAt(s, i) == Some(Chain(ts, e))
  {
    var t := ts[0];
    assert t.end == |s| || !IsWordChar(s[t.end]) by {
      if ts[1..] != [] { assert IsTerm(s, ts[1..][0], false); }
    }
    TermAtFinds(s, t, true);
    MoreTermsExact(s, t.end, ts[1..], e);
    assert [t] + ts[1..] == ts;
  }

  // ---------------------------------------------------------------------
  // Numerals `-?\d+\.?\d*`
  // ---------------------------------------------------------------------

  function NumeralAt(s: string, i: nat): (r: Option<NumeralSpan>)
    requires i <= |s|
    ensures r.Some? ==> r.value.start == i && IsNumeral(s, r.value)
  {
    var w := if i < |s| && s[i] == '-' then i + 1 else i;
    var d := RunEnd(s, w, Digit);
    if d == w then None
    else if d < |s| && s[d] == '.' then Some(NumeralSpan(i, w, d, RunEnd(s, d + 1, Digit)))
    else Some(NumeralSpan(i, w, d, d))
  }

  /** Every numeral at `n.start` is found, and none is longer than the one found. */
  lemma NumeralAtLongest(s: string, n: NumeralSpan)
    requires IsNumeral(s, n)
    ensures NumeralAt(s, n.start).Some? && n.end <= NumeralAt(s, n.start).value.end
  {
    assert s[n.wholeStart] != '-' by { assert InClass(s[n.wholeStart], Digit); }
    RunCovers(s, n.wholeStart, Digit, n.wholeEnd - n.wholeStart);
    var d := RunEnd(s, n.wholeStart, Digit);
    if n.end > n.wholeEnd {
      RunStops(s, n.wholeStart, Digit, n.wholeEnd - n.wholeStart);
      RunCovers(s, n.wholeEnd + 1, Digit, n.end - (n.wholeEnd + 1));
    }
  }

  // ---------------------------------------------------------------------
  // The objective search (modules/parser.py:34)
  // ---------------------------------------------------------------------

  function ObjectiveAt(s: string, p: nat): (r: Option<ObjectiveSpan>)
    requires p <= |s|
    ensures r.Some? ==> r.value.start == p && IsObjective(s, r.value)
  {
    if p + 8 <= |s| && IsKeyword(s[p..p + 8]) then
      var b := RunEnd(s, p + 8, Separator);
      if b == p + 8 then None
      else
        TermSeqAtIs(s, b);
        match TermSeqAt(s, b)
        case None => None
        case Some(c) => Some(ObjectiveSpan(p, b, c.terms, c.end))
    else None
  }

  /** Every objective match at `m.start` is found, and none is longer than the one found. */
  lemma ObjectiveAtLongest(s: string, m: ObjectiveSpan)
    requires IsObjective(s, m)
    ensures ObjectiveAt(s, m.start).Some? && m.end <= ObjectiveAt(s, m.start).value.end
  {
    assert !IsSeparator(s[m.bodyStart]) by {
      var t := m.body[0];
      if t.signEnd < t.digitsEnd { assert InClass(s[t.signEnd], Digit); }
    }
    RunStops(s, m.start + 8, Separator, m.bodyStart - (m.start + 8));
    assert RunEnd(s, m.start + 8, Separator) == m.bodyStart;
    TermSeqLongest(s, m.bodyStart, m.body, m.end);
    var c := TermSeqAt(s, m.bodyStart).value;
    assert ObjectiveAt(s, m.start) == Some(ObjectiveSpan(m.start, m.bodyStart, c.terms, c.end));
  }

  /** What `ObjectiveAt` says about position `p` in terms of the pattern's language. */
  lemma ObjectiveAtSound(s: string, p: nat)
    requires p <= |s|
    ensures ObjectiveAt(s, p).Some? ==> LongestObjective(s, ObjectiveAt(s, p).value)
    ensures ObjectiveAt(s, p).None? ==> !ObjectiveMatchesAt(s, p)
  {
    forall m: ObjectiveSpan | m.start == p && IsObjective(s, m)
      ensures ObjectiveAt(s, p).Some? && m.end <= ObjectiveAt(s, p).value.end
    {
      ObjectiveAtLongest(s, m);
    }
  }

  /** `re.search` from position `p`: try each position in turn. */
  function SearchObjective(s: string, p: nat): (r: Option<ObjectiveSpan>)
    requires p <= |s|
    ensures r.Some? ==> p <= r.value.start && LongestObjective(s, r.value)
    ensures r.Some? ==> forall q :: p <= q < r.value.start ==> !ObjectiveMatchesAt(s, q)
    ensures r.None? ==> forall q :: p <= q ==> !ObjectiveMatchesAt(s, q)
    decreases |s| - p
  {
    ObjectiveAtSound(s, p);
    match ObjectiveAt(s, p)
    case Some(m) => Some(m)
    case None =>
      if p == |s| then
        assert forall m: ObjectiveSpan :: m.start >= p ==> !IsObjective(s, m);
        None
      else SearchObjective(s, p + 1)
  }

  /** The whole-text search returns exactly the leftmost longest match, and nothing only when there is none. */
  lemma SearchObjectiveLeftmost(s: string)
    ensures SearchObjective(s, 0).Some? ==> LeftmostObjective(s, SearchObjective(s, 0).value)
    ensures SearchObjective(s, 0).None? <==> forall p :: !ObjectiveMatchesAt(s, p)
  {
    if SearchObjective(s, 0).Some? {
      var m := SearchObjective(s, 0).value;
      assert ObjectiveMatchesAt(s, m.start);
    }
  }

  // ---------------------------------------------------------------------
  // The constraint scan (modules/parser.py:46)
  // ---------------------------------------------------------------------

  function ConstraintAt(s: string, p: nat): (r: Option<ConstraintSpan>)
    requires p <= |s|
    ensures r.Some? ==> r.value.start == p && ConstraintWithin(s, r.value)
  {
    match TermSeqAt(s, p)
    case None => None
    case Some(c) => ConstraintAfter(s, p, c)
  }

  /** The rest of a constraint match after its terms `c`: spaces, a relation, spaces, a numeral. */
  function ConstraintAfter(s: string, p: nat, c: Chain): (r: Option<ConstraintSpan>)
    requires p <= c.end <= |s|
    ensures r.Some? ==> r.value.start == p && r.value.lhs == c.terms && r.value.lhsEnd == c.end
    ensures r.Some? ==> ConstraintWithin(s, r.value)
  {
    var k := RunEnd(s, c.end, Space);
    if k < |s| && IsRelation(s[k]) then
      match NumeralAt(s, RunEnd(s, k + 1, Space))
      case None => None
      case Some(n) => Some(ConstraintSpan(p, c.terms, c.end, k, n))
    else None
  }

  /**
   * Every constraint match at `m.start` is found, with the same terms, relation
   * and numeral start, and none is longer than the one found.
   */
  lemma ConstraintAtLongest(s: string, m: ConstraintSpan)
    requires IsConstraint(s, m)
    ensures ConstraintAt(s, m.start).Some?
    ensures ConstraintAt(s, m.start).value.lhs == m.lhs
    ensures m.rhs.end <= ConstraintAt(s, m.start).value.rhs.end
  {
    ConstraintParts(s, m);
    ConstraintAfterOfParts(s, m.start, Chain(m.lhs, m.lhsEnd), m.relationAt, m.rhs.start, NumeralAt(s, m.rhs.start).value);
  }

  /** After the terms, the scanner assembles its match from the greedy gaps, the relation and the numeral. */
  lemma ConstraintAfterOfParts(s: string, p: nat, c: Chain, k: nat, j: nat, n: NumeralSpan)
    requires p <= c.end <= |s|
    requires RunEnd(s, c.end, Space) == k && k < |s| && IsRelation(s[k])
    requires RunEnd(s, k + 1, Space) == j && NumeralAt(s, j) == Some(n)
    ensures ConstraintAfter(s, p, c) == Some(ConstraintSpan(p, c.terms, c.end, k, n))
  {
  }

  /** What the constraint scanner finds is a match of the constraint pattern. */
  lemma ConstraintAtIs(s: string, p: nat)
    requires p <= |s|
    ensures ConstraintAt(s, p).Some? ==> IsConstraint(s, ConstraintAt(s, p).value)
  {
    TermSeqAtIs(s, p);
  }

  /** Each part of a constraint match is the greedy match of its sub-pattern. */
  lemma ConstraintParts(s: string, m: ConstraintSpan)
    requires IsConstraint(s, m)
    ensures TermSeqAt(s, m.start) == Some(Chain(m.lhs, m.lhsEnd))
    ensures RunEnd(s, m.lhsEnd, Space) == m.relationAt
    ensures RunEnd(s, m.relationAt + 1, Space) == m.rhs.start
    ensures NumeralAt(s, m.rhs.start).Some? && m.rhs.end <= NumeralAt(s, m.rhs.start).value.end
  {
    ConstraintLhs(s, m);
    ConstraintGaps(s, m);
    NumeralAtLongest(s, m.rhs);
  }

  lemma ConstraintLhs(s: string, m: ConstraintSpan)
    requires IsConstraint(s, m)
    ensures TermSeqAt(s, m.start) == Some(Chain(m.lhs, m.lhsEnd))
  {
    var k := m.lhsEnd;
    assert !IsWordChar(s[k]) && !IsSign(s[k]) by {
      if k < m.relationAt { assert InClass(s[k], Space); }
    }
    TermSeqExact(s, m.start, m.lhs, m.lhsEnd);
  }

  lemma ConstraintGaps(s: string, m: ConstraintSpan)
    requires IsConstraint(s, m)
    ensures RunEnd(s, m.lhsEnd, Space) == m.relationAt
    ensures RunEnd(s, m.relationAt + 1, Space) == m.rhs.start
  {
    RunStops(s, m.lhsEnd, Space, m.relationAt - m.lhsEnd);
    assert !IsSpace(s[m.rhs.start]) by {
      if m.rhs.wholeStart == m.rhs.start { assert InClass(s[m.rhs.start], Digit); }
    }
    RunStops(s, m.relationAt + 1, Space, m.rhs.start - (m.relationAt + 1));
  }

  lemma ConstraintAtSound(s: string, p: nat)
    requires p <= |s|
    ensures ConstraintAt(s, p).Some? ==> LongestConstraint(s, ConstraintAt(s, p).value)
    ensures ConstraintAt(s, p).None? ==> !ConstraintMatchesAt(s, p)
  {
    ConstraintAtIs(s, p);
    forall m: ConstraintSpan | m.start == p && IsConstraint(s, m)
      ensures ConstraintAt(s, p).Some? && m.rhs.end <= ConstraintAt(s, p).value.rhs.end
    {
      ConstraintAtLongest(s, m);
    }
  }

  /** The positions of a constraint match are in order and inside the text. */
  predicate ConstraintWithin(s: string, m: ConstraintSpan) {
    m.start <= m.lhsEnd <= m.relationAt < m.rhs.start <= m.rhs.end <= |s|
  }

  /** `re.findall` of the constraint pattern from position `p`. */
  function FindConstraints(s: string, p: nat): (ms: seq<ConstraintSpan>)
    requires p <= |s|
    ensures forall k :: 0 <= k < |ms| ==> ConstraintWithin(s, ms[k])
    decreases |s| - p
  {
    if p == |s| then []
    else
      match ConstraintAt(s, p)
      case None => FindConstraints(s, p + 1)
      case Some(m) => [m] + FindConstraints(s, m.rhs.end)
  }

  /** The scan returns exactly the matches `re.findall` returns, in order. */
  lemma {:induction false} FindConstraintsScan(s: string, p: nat)
    requires p <= |s|
    ensures ConstraintScan(s, p, FindConstraints(s, p))
    decreases |s| - p
  {
    if p == |s| {
      ConstraintScanEnd(s);
    } else {
      ConstraintAtSound(s, p);
      match ConstraintAt(s, p)
      case None =>
        FindConstraintsScan(s, p + 1);
        ConstraintScanSkip(s, p, FindConstraints(s, p + 1));
      case Some(m) =>
        FindConstraintsScan(s, m.rhs.end);
        ConstraintScanCons(s, p, m, FindConstraints(s, m.rhs.end));
    }
  }

  lemma ConstraintScanEnd(s: string)
    ensures ConstraintScan(s, |s|, [])
  {
    forall m: ConstraintSpan | |s| <= m.start && IsConstraint(s, m) ensures false {
      TermSeqBound(s, m);
    }
  }

  lemma TermSeqBound(s: string, m: ConstraintSpan)
    requires IsConstraint(s, m)
    ensures m.start < |s|
  {
    assert IsTerm(s, m.lhs[0], true);
  }

  lemma ConstraintScanSkip(s: string, p: nat, ms: seq<ConstraintSpan>)
    requires !ConstraintMatchesAt(s, p) && ConstraintScan(s, p + 1, ms)
    ensures ConstraintScan(s, p, ms)
  {
  }

  lemma ConstraintScanCons(s: string, p: nat, m: ConstraintSpan, rest: seq<ConstraintSpan>)
    requires p <= m.start && (forall q :: p <= q < m.start ==> !ConstraintMatchesAt(s, q))
    requires LongestConstraint(s, m) && ConstraintScan(s, m.rhs.end, rest)
    ensures ConstraintScan(s, p, [m] + rest)
  {
    assert ([m] + rest)[0] == m;
    assert ([m] + rest)[1..] == rest;
  }

  // ---------------------------------------------------------------------
  // The term scan (modules/parser.py:37 and modules/parser.py:52)
  // ---------------------------------------------------------------------

  function PieceAt(g: string, p: nat): (r: Option<PieceSpan>)
    requires p <= |g|
    ensures r.Some? ==> r.value.start == p && IsPiece(g, r.value)
  {
    var q := SignEnd(g, p);
    var w := RunEnd(g, q, Digit);
    var n := if w < |g| && g[w] == '.' then RunEnd(g, w + 1, Digit) else w;
    if n < |g| && IsLetter(g[n]) then Some(PieceSpan(p, q, w, n, RunEnd(g, n + 1, Word)))
    else None
  }

  /**
   * Every piece at `x.start` is found, with the same group 1 and a name at
   * least as long; it is the one found when a non-word character follows it.
   */
  lemma PieceAtFinds(g: string, x: PieceSpan)
    requires IsPiece(g, x)
    ensures PieceAt(g, x.start).Some?
    ensures x.end <= PieceAt(g, x.start).value.end
    ensures x.end == |g| || !IsWordChar(g[x.end]) ==> PieceAt(g, x.start) == Some(x)
  {
    assert SignEnd(g, x.start) == x.signEnd by {
      assert !IsSign(g[x.signEnd]) by {
        if x.signEnd < x.wholeEnd { assert InClass(g[x.signEnd], Digit); }
      }
    }
    PieceDigits(g, x);
    var e := RunEnd(g, x.nameStart + 1, Word);
    assert x.end <= e by {
      RunCovers(g, x.nameStart + 1, Word, x.end - (x.nameStart + 1));
    }
    assert x.end == |g| || !IsWordChar(g[x.end]) ==> e == x.end by {
      if x.end == |g| || !IsWordChar(g[x.end]) {
        RunStops(g, x.nameStart + 1, Word, x.end - (x.nameStart + 1));
      }
    }
    assert PieceAt(g, x.start) == Some(PieceSpan(x.start, x.signEnd, x.wholeEnd, x.nameStart, e));
  }

  /** The digits and the optional fraction of a piece are the greedy runs. */
  lemma PieceDigits(g: string, x: PieceSpan)
    requires IsPiece(g, x)
    ensures RunEnd(g, x.signEnd, Digit) == x.wholeEnd
    ensures x.wholeEnd < |g|
    ensures (if g[x.wholeEnd] == '.' then RunEnd(g, x.wholeEnd + 1, Digit) else x.wholeEnd) == x.nameStart
  {
    assert x.wholeEnd == |g| || !IsDigit(g[x.wholeEnd]);
    RunStops(g, x.signEnd, Digit, x.wholeEnd - x.signEnd);
    if x.wholeEnd < x.nameStart {
      RunStops(g, x.wholeEnd + 1, Digit, x.nameStart - (x.wholeEnd + 1));
    }
  }

  lemma PieceAtSound(g: string, p: nat)
    requires p <= |g|
    ensures PieceAt(g, p).Some? ==> LongestPiece(g, PieceAt(g, p).value)
    ensures PieceAt(g, p).None? ==> !PieceMatchesAt(g, p)
  {
    forall x: PieceSpan | x.start == p && IsPiece(g, x)
      ensures PieceAt(g, p).Some? && x.end <= PieceAt(g, p).value.end
    {
      PieceAtFinds(g, x);
    }
  }

  /** `re.findall` of the term pattern from position `p`. */
  /** The positions of a piece are in order and inside the text. */
  predicate PieceWithin(g: string, x: PieceSpan) {
    x.start <= x.signEnd <= x.wholeEnd <= x.nameStart < x.end <= |g|
  }

  function FindPieces(g: string, p: nat): (xs: seq<PieceSpan>)
    requires p <= |g|
    decreases |g| - p
  {
    if p == |g| then []
    else
      match PieceAt(g, p)
      case None => FindPieces(g, p + 1)
      case Some(x) => [x] + FindPieces(g, x.end)
  }

  lemma {:induction false} FindPiecesWithin(g: string, p: nat)
    requires p <= |g|
    ensures forall k :: 0 <= k < |FindPieces(g, p)| ==> PieceWithin(g, FindPieces(g, p)[k])
    decreases |g| - p
  {
    if p < |g| {
      match PieceAt(g, p)
      case None => FindPiecesWithin(g, p + 1);
      case Some(x) => FindPiecesWithin(g, x.end);
    }
  }

  /** The scan returns exactly the matches `re.findall` returns, in order. */
  lemma {:induction false} FindPiecesScan(g: string, p: nat)
    requires p <= |g|
    ensures PieceScan(g, p, FindPieces(g, p))
    decreases |g| - p
  {
    PieceAtSound(g, p);
    if p == |g| {
      assert forall x: PieceSpan :: x.start >= p ==> !IsPiece(g, x);
    } else {
      match PieceAt(g, p)
      case None => FindPiecesScan(g, p + 1);
      case Some(x) =>
        var rest := FindPieces(g, x.end);
        FindPiecesScan(g, x.end);
        assert ([x] + rest)[1..] == rest;
    }
  }

  // ---------------------------------------------------------------------
  // The term scan on the text of a term sequence
  // ---------------------------------------------------------------------

  /** `n - i`, or 0 below `i`. */
  function Minus(n: nat, i: nat): nat {
    if n >= i then n - i else 0
  }

  /** The piece a term of `s` becomes in the text `s[i..]`. */
  function ToPiece(t: TermSpan, i: nat): PieceSpan {
    PieceSpan(Minus(t.start, i), Minus(t.signEnd, i), Minus(t.digitsEnd, i), Minus(t.digitsEnd, i), Minus(t.end, i))
  }

  function ToPieces(ts: seq<TermSpan>, i: nat): (xs: seq<PieceSpan>)
    ensures |xs| == |ts|
    ensures forall k :: 0 <= k < |ts| ==> xs[k] == ToPiece(ts[k], i)
  {
    if ts == [] then [] else [ToPiece(ts[0], i)] + ToPieces(ts[1..], i)
  }

  /** Pieces `xs` follow each other from `p` to the end of `g`, each followed by a non-word character. */
  predicate IsPieceChain(g: string, p: nat, xs: seq<PieceSpan>)
    decreases |xs|
  {
    if xs == [] then p == |g|
    else
      && xs[0].start == p && IsPiece(g, xs[0])
      && (xs[0].end == |g| || !IsWordChar(g[xs[0].end]))
      && IsPieceChain(g, xs[0].end, xs[1..])
  }

  /** The scan finds a chain of pieces exactly. */
  lemma {:induction false} PieceChainFound(g: string, p: nat, xs: seq<PieceSpan>)
    requires p <= |g| && IsPieceChain(g, p, xs)
    ensures FindPieces(g, p) == xs
    decreases |xs|
  {
    if xs != [] {
      PieceAtFinds(g, xs[0]);
      PieceChainFound(g, xs[0].end, xs[1..]);
      assert [xs[0]] + xs[1..] == xs;
    }
  }

  lemma {:induction false} ChainBound(s: string, j: nat, ts: seq<TermSpan>, e: nat)
    requires IsSignedChain(s, j, ts, e)
    ensures j <= e
    ensures ts != [] ==> ts[0].end <= e
    decreases |ts|
  {
    if ts != [] {
      ChainBound(s, ts[0].end, ts[1..], e);
    }
  }

  lemma SpanShifted(s: string, i: nat, e: nat, a: nat, b: nat, k: CharClass)
    requires i <= a && b <= e <= |s| && Span(s, a, b, k)
    ensures Span(s[i..e], a - i, b - i, k)
  {
    var g := s[i..e];
    forall m | a - i <= m < b - i ensures InClass(g[m], k) {
      assert g[m] == s[m + i];
      assert InClass(s[m + i], k);
    }
  }

  /** A term inside `s[i..e]` is a piece of that text, shifted by `i`, with no fractional part. */
  lemma TermShifted(s: string, i: nat, e: nat, t: TermSpan, leading: bool)
    requires i <= t.start && t.end <= e <= |s| && IsTerm(s, t, leading)
    requires t.end == e || !IsWordChar(s[t.end])
    ensures var g := s[i..e]; var x := ToPiece(t, i);
      IsPiece(g, x) && (x.end == |g| || !IsWordChar(g[x.end]))
  {
    var g := s[i..e];
    SpanShifted(s, i, e, t.signEnd, t.digitsEnd, Digit);
    SpanShifted(s, i, e, t.digitsEnd + 1, t.end, Word);
    assert g[t.digitsEnd - i] == s[t.digitsEnd];
    assert t.signEnd > t.start ==> g[t.start - i] == s[t.start];
    assert t.end < e ==> g[t.end - i] == s[t.end];
  }

  /** A term at `t.start` of a term sequence is followed by a sign (the next term) or by the end of the sequence. */
  lemma NextAfterTerm(s: string, t: TermSpan, rest: seq<TermSpan>, e: nat)
    requires t.end <= |s| && IsSignedChain(s, t.end, rest, e)
    ensures t.end == e || (t.end < |s| && !IsWordChar(s[t.end]))
  {
    if rest != [] { assert IsTerm(s, rest[0], false); }
  }

  /** A signed chain of `s` inside `s[i..e]` is a piece chain of that text. */
  lemma {:induction false} ChainShifted(s: string, i: nat, j: nat, ts: seq<TermSpan>, e: nat)
    requires i <= j && e <= |s| && IsSignedChain(s, j, ts, e)
    ensures j <= e
    ensures IsPieceChain(s[i..e], j - i, ToPieces(ts, i))
    decreases |ts|
  {
    ChainBound(s, j, ts, e);
    if ts != [] {
      var t := ts[0];
      ChainBound(s, t.end, ts[1..], e);
      NextAfterTerm(s, t, ts[1..], e);
      TermShifted(s, i, e, t, false);
      ChainShifted(s, i, t.end, ts[1..], e);
      assert ToPieces(ts, i)[1..] == ToPieces(ts[1..], i);
    }
  }

  /** Scanning the text of a term-sequence match finds exactly its terms, in order. */
  lemma TermSeqPieces(s: string, i: nat, ts: seq<TermSpan>, e: nat)
    requires e <= |s| && IsTermSeq(s, i, ts, e)
    ensures i <= e
    ensures FindPieces(s[i..e], 0) == ToPieces(ts, i)
  {
    var t := ts[0];
    ChainBound(s, t.end, ts[1..], e);
    NextAfterTerm(s, t, ts[1..], e);
    TermShifted(s, i, e, t, true);
    ChainShifted(s, i, t.end, ts[1..], e);
    assert ToPieces(ts, i)[1..] == ToPieces(ts[1..], i);
    PieceChainFound(s[i..e], 0, ToPieces(ts, i));
  }
}
