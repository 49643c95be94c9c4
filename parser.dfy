/**
 * `parse_lp_input` (modules/parser.py): the text of a linear program becomes
 * an objective (its kind and a coefficient dict), a list of constraints (each
 * a coefficient dict, the relation symbol and the right-hand side) and the set
 * of variable names.  Python's `ValueError` is the `Err` case of `Result`.
 */
module Parser {
  import opened Wrappers
  import opened Text
  import opened Dicts
  import opened Normalize
  import opened Grammar
  import opened Scanner

  const ObjectiveNotFound: string := "Objective function not found or incorrectly formatted."
  const NoConstraints: string := "No valid constraints found."

  /** The message of the `ValueError` that Python's `float()` raises on text `c`. */
  function FloatError(c: string): string {
    "could not convert string to float: '" + c + "'"
  }

  datatype Objective = Objective(kind: string, coefficients: Dict<real>)

  /** `sign` is the relation symbol as matched: "=", "≤" or "≥". */
  datatype Constraint = Constraint(coefficients: Dict<real>, sign: string, rhs: real)

  datatype LpModel = LpModel(objective: Objective, constraints: seq<Constraint>, variables: set<string>)

  // ---------------------------------------------------------------------
  // Coefficients of one clause (modules/parser.py:38-40 and :53-55)
  // ---------------------------------------------------------------------

  /** `float(coef) if coef not in ["", "+", "-"] else float(f"{coef}1")`. */
  function Coefficient(c: string): (r: Option<real>)
    ensures c == "" || c == "+" ==> r == Some(1.0)
    ensures c == "-" ==> r == Some(-1.0)
  {
    if c == "" || c == "+" || c == "-" then
      FloatOfInteger(c, "1");
      FloatValue(c + "1")
    else FloatValue(c)
  }

  /** A `(coefficient text, variable name)` pair, one tuple of `re.findall` on the term pattern. */
  type RawTerm = (string, string)

  /** The variable names of a clause. */
  function Names(ts: seq<RawTerm>): set<string> {
    if ts == [] then {} else Names(ts[..|ts| - 1]) + {ts[|ts| - 1].1}
  }

  /** The coefficient text of the last term of `ts` that names `name`. */
  function LastText(ts: seq<RawTerm>, name: string): (r: Option<string>)
    ensures r.Some? <==> name in Names(ts)
  {
    if ts == [] then None
    else if ts[|ts| - 1].1 == name then Some(ts[|ts| - 1].0)
    else LastText(ts[..|ts| - 1], name)
  }

  /** The text `LastText` returns is the text of a term that names `name`, and no later term names it. */
  lemma {:induction false} LastTextIsLast(ts: seq<RawTerm>, name: string)
    requires name in Names(ts)
    ensures exists k :: 0 <= k < |ts| && ts[k] == (LastText(ts, name).value, name) && forall k' :: k < k' < |ts| ==> ts[k'].1 != name
  {
    var front := ts[..|ts| - 1];
    if ts[|ts| - 1].1 == name {
      assert ts[|ts| - 1] == (LastText(ts, name).value, name);
    } else {
      LastTextIsLast(front, name);
      var k :| 0 <= k < |front| && front[k] == (LastText(front, name).value, name) && forall k' :: k < k' < |front| ==> front[k'].1 != name;
      assert ts[k] == front[k];
      assert forall k' :: k < k' < |ts| ==> ts[k'].1 != name by {
        forall k' | k < k' < |ts| ensures ts[k'].1 != name {
          if k' < |front| { assert ts[k'] == front[k']; }
        }
      }
    }
  }

  /**
   * The loop `for coef, var in terms: d[var] = coefficient(coef)` over a fresh
   * dict: a later term overwrites an earlier one of the same name; the first
   * text `float()` rejects raises.
   */
  function ClauseCoefficients(ts: seq<RawTerm>): Result<Dict<real>>
  {
    if ts == [] then Ok([])
    else
      match ClauseCoefficients(ts[..|ts| - 1])
      case Err(msg) => Err(msg)
      case Ok(d) =>
        match Coefficient(ts[|ts| - 1].0)
        case None => Err(FloatError(ts[|ts| - 1].0))
        case Some(v) => Ok(Put(d, ts[|ts| - 1].1, v))
  }

  /** The coefficient of the last term naming `name`, if any. */
  function LastCoefficient(ts: seq<RawTerm>, name: string): Option<real> {
    match LastText(ts, name)
    case None => None
    case Some(c) => Coefficient(c)
  }

  /**
   * Last write wins: each name of the clause is bound to the coefficient of
   * its last term, and the dict holds exactly the clause's names.
   */
  lemma {:induction false} LastWriteWins(ts: seq<RawTerm>)
    requires ClauseCoefficients(ts).Ok?
    ensures Keys(ClauseCoefficients(ts).value) == Names(ts)
    ensures forall name :: Get(ClauseCoefficients(ts).value, name) == LastCoefficient(ts, name)
  {
    if ts != [] {
      var front := ts[..|ts| - 1];
      var (c, x) := ts[|ts| - 1];
      LastWriteWins(front);
      var d := ClauseCoefficients(front).value;
      forall name ensures Get(ClauseCoefficients(ts).value, name) == LastCoefficient(ts, name) {
        GetKeys(d, name);
      }
    }
  }

  /** Repeated variables are overwritten, not summed: `2x+3x` binds `x` to 3. */
  lemma OverwriteNotSum()
    ensures ClauseCoefficients([("2", "x"), ("+3", "x")]) == Ok([("x", 3.0)])
  {
    var ts: seq<RawTerm> := [("2", "x"), ("+3", "x")];
    FloatOfInteger("", "2");
    assert "" + "2" == "2";
    assert Coefficient("2") == Some(2.0);
    FloatOfInteger("+", "3");
    assert "+" + "3" == "+3";
    assert Coefficient("+3") == Some(3.0);
    assert ts[..1] == [("2", "x")];
    assert ts[..1][..0] == [];
    assert ClauseCoefficients(ts[..1]) == Ok([("x", 2.0)]);
    var d: Dict<real> := [("x", 2.0)];
    assert Put(d, "x", 3.0) == [("x", 3.0)] + d[1..];
    assert [("x", 3.0)] + d[1..] == [("x", 3.0)];
    assert ClauseCoefficients(ts) == Ok(Put(d, "x", 3.0));
  }

  // ---------------------------------------------------------------------
  // The clause texts the regexes hand over (modules/parser.py:37 and :52)
  // ---------------------------------------------------------------------

  /** `re.findall(r'([\+\-]?\d*\.?\d*)([a-zA-Z]\w*)', g)`. */
  function FindTerms(g: string): seq<RawTerm> {
    FindPiecesWithin(g, 0);
    PieceTexts(g, FindPieces(g, 0))
  }

  /** Group 1 and group 2 of a match of the term pattern. */
  function PieceText(g: string, x: PieceSpan): RawTerm
    requires PieceWithin(g, x)
  {
    (g[x.start..x.nameStart], g[x.nameStart..x.end])
  }

  function PieceTexts(g: string, xs: seq<PieceSpan>): (r: seq<RawTerm>)
    requires forall k :: 0 <= k < |xs| ==> PieceWithin(g, xs[k])
    ensures |r| == |xs|
    ensures forall k :: 0 <= k < |xs| ==> r[k] == PieceText(g, xs[k])
  {
    if xs == [] then []
    else
      assert forall k :: 0 <= k < |xs| - 1 ==> xs[1..][k] == xs[k + 1];
      [PieceText(g, xs[0])] + PieceTexts(g, xs[1..])
  }

  /** Every element of `ts` is a term of `s`. */
  predicate AllTerms(s: string, ts: seq<TermSpan>) {
    forall k :: 0 <= k < |ts| ==> IsTerm(s, ts[k], true)
  }

  /** The coefficient text and the name of a term. */
  function TermText(s: string, t: TermSpan): RawTerm
    requires IsTerm(s, t, true)
  {
    (s[t.start..t.digitsEnd], s[t.digitsEnd..t.end])
  }

  function TermTexts(s: string, ts: seq<TermSpan>): (r: seq<RawTerm>)
    requires AllTerms(s, ts)
    ensures |r| == |ts|
    ensures forall k :: 0 <= k < |ts| ==> r[k] == TermText(s, ts[k])
  {
    if ts == [] then []
    else
      var front := ts[..|ts| - 1];
      assert forall k :: 0 <= k < |front| ==> front[k] == ts[k];
      TermTexts(s, front) + [TermText(s, ts[|ts| - 1])]
  }

  lemma SpanAllIn(s: string, a: nat, b: nat, k: CharClass)
    requires Span(s, a, b, k)
    ensures AllIn(s[a..b], k)
  {
    var t := s[a..b];
    forall m | 0 <= m < |t| ensures InClass(t[m], k) {
      assert t[m] == s[a + m];
      assert InClass(s[a + m], k);
    }
  }

  /** The integer a term's coefficient text stands for: its digits (1 when there are none), negated after a minus. */
  function TermValue(s: string, t: TermSpan): int
    requires IsTerm(s, t, true)
  {
    SpanAllIn(s, t.signEnd, t.digitsEnd, Digit);
    var magnitude := if t.signEnd == t.digitsEnd then 1 else DigitsValue(s[t.signEnd..t.digitsEnd]);
    if t.signEnd > t.start && s[t.start] == '-' then -magnitude else magnitude
  }

  /**
   * The coefficient of a term is the integer its text spells, with a bare
   * sign or no sign at all read as 1: the clause patterns admit no fractions.
   */
  lemma CoefficientOfTerm(s: string, t: TermSpan)
    requires IsTerm(s, t, true)
    ensures Coefficient(TermText(s, t).0) == Some(TermValue(s, t) as real)
  {
    var c := s[t.start..t.digitsEnd];
    var sign := s[t.start..t.signEnd];
    var ds := s[t.signEnd..t.digitsEnd];
    assert c == sign + ds;
    assert sign == "" || sign == "+" || sign == "-" by {
      if t.signEnd > t.start { assert sign == [s[t.start]]; }
    }
    assert (t.signEnd > t.start && s[t.start] == '-') <==> sign == "-" by {
      if t.signEnd > t.start { assert sign == [s[t.start]]; }
    }
    SpanAllIn(s, t.signEnd, t.digitsEnd, Digit);
    if ds == [] {
      assert c == sign;
      assert DigitsValue("1") == 1 by { assert "1"[..0] == []; }
      FloatOfInteger(sign, "1");
    } else {
      assert c != "" && c != "+" && c != "-" by {
        assert c[|c| - 1] == ds[|ds| - 1];
        assert InClass(ds[|ds| - 1], Digit);
      }
      FloatOfInteger(sign, ds);
    }
  }

  // ---------------------------------------------------------------------
  // Term sequences and the dicts their clauses give
  // ---------------------------------------------------------------------

  /** The terms of a signed chain lie between its ends, and each is a term. */
  lemma {:induction false} ChainWithin(s: string, j: nat, ts: seq<TermSpan>, e: nat)
    requires j <= |s| && IsSignedChain(s, j, ts, e)
    ensures j <= e <= |s|
    ensures AllTerms(s, ts)
    ensures forall k :: 0 <= k < |ts| ==> j <= ts[k].start && ts[k].end <= e
    decreases |ts|
  {
    if ts != [] {
      ChainWithin(s, ts[0].end, ts[1..], e);
      assert forall k :: 1 <= k < |ts| ==> ts[k] == ts[1..][k - 1];
    }
  }

  /** The terms of a term-sequence match lie inside it, and each is a term. */
  lemma TermSeqWithin(s: string, i: nat, ts: seq<TermSpan>, e: nat)
    requires IsTermSeq(s, i, ts, e)
    ensures i < e <= |s|
    ensures AllTerms(s, ts)
    ensures forall k :: 0 <= k < |ts| ==> i <= ts[k].start && ts[k].end <= e
  {
    ChainWithin(s, ts[0].end, ts[1..], e);
    assert forall k :: 1 <= k < |ts| ==> ts[k] == ts[1..][k - 1];
  }

  /** A term of `s` inside `s[i..e]`, as a piece of that text, has the term's texts as its groups. */
  lemma PieceTextOfTerm(s: string, i: nat, e: nat, t: TermSpan)
    requires i <= t.start && t.end <= e <= |s| && IsTerm(s, t, true)
    ensures PieceWithin(s[i..e], ToPiece(t, i))
    ensures PieceText(s[i..e], ToPiece(t, i)) == TermText(s, t)
  {
    SliceOfSlice(s, i, e, t.start, t.digitsEnd);
    SliceOfSlice(s, i, e, t.digitsEnd, t.end);
  }

  lemma SliceOfSlice(s: string, i: nat, e: nat, a: nat, b: nat)
    requires i <= a <= b <= e <= |s|
    ensures s[i..e][a - i..b - i] == s[a..b]
  {
    var g := s[i..e];
    forall m | 0 <= m < b - a ensures g[a - i..b - i][m] == s[a..b][m] {
      assert g[a - i + m] == s[a + m];
    }
  }

  lemma PiecesOfTerms(s: string, i: nat, e: nat, ts: seq<TermSpan>)
    requires i <= e <= |s| && AllTerms(s, ts)
    requires forall k :: 0 <= k < |ts| ==> i <= ts[k].start && ts[k].end <= e
    ensures forall k :: 0 <= k < |ts| ==> PieceWithin(s[i..e], ToPieces(ts, i)[k])
    ensures PieceTexts(s[i..e], ToPieces(ts, i)) == TermTexts(s, ts)
  {
    forall k | 0 <= k < |ts|
      ensures PieceWithin(s[i..e], ToPieces(ts, i)[k])
      ensures PieceText(s[i..e], ToPieces(ts, i)[k]) == TermText(s, ts[k])
    {
      PieceTextOfTerm(s, i, e, ts[k]);
    }
  }

  /**
   * `re.findall` of the term pattern on the text of a term-sequence match
   * returns the texts of exactly its terms, in order.
   */
  lemma ClauseTexts(s: string, i: nat, ts: seq<TermSpan>, e: nat)
    requires IsTermSeq(s, i, ts, e)
    ensures i <= e <= |s| && AllTerms(s, ts)
    ensures FindTerms(s[i..e]) == TermTexts(s, ts)
  {
    TermSeqWithin(s, i, ts, e);
    TermSeqPieces(s, i, ts, e);
    PiecesOfTerms(s, i, e, ts);
  }

  /** The names of the terms `ts` of `s`. */
  function TermNames(s: string, ts: seq<TermSpan>): set<string>
    requires AllTerms(s, ts)
  {
    if ts == [] then {} else TermNames(s, ts[..|ts| - 1]) + {s[ts[|ts| - 1].digitsEnd..ts[|ts| - 1].end]}
  }

  /** The value of the last term of `ts` that names `name`, if any. */
  function TermCoefficient(s: string, ts: seq<TermSpan>, name: string): (r: Option<real>)
    requires AllTerms(s, ts)
    ensures r.Some? <==> name in TermNames(s, ts)
  {
    if ts == [] then None
    else if s[ts[|ts| - 1].digitsEnd..ts[|ts| - 1].end] == name then Some(TermValue(s, ts[|ts| - 1]) as real)
    else TermCoefficient(s, ts[..|ts| - 1], name)
  }

  /**
   * The dict of a clause made of terms: it never fails, holds exactly the
   * names of the terms, and binds each to the integer value of its last term.
   */
  lemma {:induction false} TermClause(s: string, ts: seq<TermSpan>)
    requires AllTerms(s, ts)
    ensures ClauseCoefficients(TermTexts(s, ts)).Ok?
    ensures Keys(ClauseCoefficients(TermTexts(s, ts)).value) == TermNames(s, ts)
    ensures forall name :: Get(ClauseCoefficients(TermTexts(s, ts)).value, name) == TermCoefficient(s, ts, name)
  {
    if ts != [] {
      var front := ts[..|ts| - 1];
      var t := ts[|ts| - 1];
      var texts := TermTexts(s, ts);
      assert texts[..|texts| - 1] == TermTexts(s, front);
      TermClause(s, front);
      CoefficientOfTerm(s, t);
      var d := ClauseCoefficients(TermTexts(s, front)).value;
      forall name ensures Get(ClauseCoefficients(texts).value, name) == TermCoefficient(s, ts, name) {
        GetKeys(d, name);
      }
    }
  }

  // ---------------------------------------------------------------------
  // Right-hand sides (modules/parser.py:46 group 3, :51 `float(rhs)`)
  // ---------------------------------------------------------------------

  /** The number the digits of a numeral spell: whole digits, then the fraction digits scaled down. */
  function UnsignedValue(s: string, n: NumeralSpan): real
    requires IsNumeral(s, n)
  {
    SpanAllIn(s, n.wholeStart, n.wholeEnd, Digit);
    var whole := DigitsValue(s[n.wholeStart..n.wholeEnd]) as real;
    if n.end == n.wholeEnd then whole
    else
      SpanAllIn(s, n.wholeEnd + 1, n.end, Digit);
      whole + Shifted(DigitsValue(s[n.wholeEnd + 1..n.end]) as real, n.end - n.wholeEnd - 1)
  }

  /** The value of a numeral, negated after a minus sign. */
  function NumeralValue(s: string, n: NumeralSpan): real
    requires IsNumeral(s, n)
  {
    if n.wholeStart > n.start then -UnsignedValue(s, n) else UnsignedValue(s, n)
  }

  lemma NumeralMagnitude(s: string, n: NumeralSpan)
    requires IsNumeral(s, n)
    ensures Magnitude(s[n.wholeStart..n.end]) == Some(UnsignedValue(s, n))
  {
    if n.end > n.wholeEnd {
      FractionMagnitude(s, n);
    } else {
      SpanAllIn(s, n.wholeStart, n.wholeEnd, Digit);
      ReadingOfDigits(s[n.wholeStart..n.wholeEnd]);
    }
  }

  lemma FractionMagnitude(s: string, n: NumeralSpan)
    requires IsNumeral(s, n) && n.end > n.wholeEnd
    ensures Magnitude(s[n.wholeStart..n.end]) == Some(UnsignedValue(s, n))
  {
    var b := s[n.wholeStart..n.end];
    var w := n.wholeEnd - n.wholeStart;
    SpanAllIn(s, n.wholeStart, n.wholeEnd, Digit);
    SpanAllIn(s, n.wholeEnd + 1, n.end, Digit);
    assert b[..w] == s[n.wholeStart..n.wholeEnd];
    assert b[w] == s[n.wholeEnd];
    assert b[w + 1..] == s[n.wholeEnd + 1..n.end];
    ReadingOfFraction(b, w);
  }

  /** `float()` accepts every numeral the constraint pattern matches and yields its value. */
  lemma NumeralFloat(s: string, n: NumeralSpan)
    requires IsNumeral(s, n)
    ensures FloatValue(s[n.start..n.end]) == Some(NumeralValue(s, n))
  {
    if n.wholeStart > n.start {
      NegativeNumeralFloat(s, n);
    } else {
      UnsignedNumeralFloat(s, n);
    }
  }

  lemma NegativeNumeralFloat(s: string, n: NumeralSpan)
    requires IsNumeral(s, n) && n.wholeStart > n.start
    ensures FloatValue(s[n.start..n.end]) == Some(NumeralValue(s, n))
  {
    NumeralMagnitude(s, n);
    FloatAfterMinus(s, n.start, n.end, UnsignedValue(s, n));
  }

  lemma UnsignedNumeralFloat(s: string, n: NumeralSpan)
    requires IsNumeral(s, n) && n.wholeStart == n.start
    ensures FloatValue(s[n.start..n.end]) == Some(NumeralValue(s, n))
  {
    NumeralMagnitude(s, n);
    assert InClass(s[n.start], Digit);
    FloatUnsigned(s[n.start..n.end], UnsignedValue(s, n));
  }

  // ---------------------------------------------------------------------
  // The groups the two searches hand over (modules/parser.py:34 and :46)
  // ---------------------------------------------------------------------

  /** `re.search` of the objective pattern (the leftmost match, longest at its position). */
  function FindObjective(s: string): (r: Option<ObjectiveSpan>)
    ensures r.Some? ==> IsObjective(s, r.value)
  {
    SearchObjective(s, 0)
  }

  /** `objective_match.group(1).lower()`: "maximize" or "minimize". */
  function ObjectiveKind(s: string, m: ObjectiveSpan): (kind: string)
    requires IsObjective(s, m)
    ensures kind == "maximize" || kind == "minimize"
  {
    Lower(s[m.start..m.start + 8])
  }

  /** `objective_match.group(2)`: the text of the objective's term sequence. */
  function ObjectiveBody(s: string, m: ObjectiveSpan): string
    requires IsObjective(s, m)
  {
    TermSeqWithin(s, m.bodyStart, m.body, m.end);
    s[m.bodyStart..m.end]
  }

  /** A `(lhs, sign, rhs)` tuple of `re.findall` on the constraint pattern. */
  type RawConstraint = (string, string, string)

  function ConstraintText(s: string, m: ConstraintSpan): RawConstraint
    requires ConstraintWithin(s, m)
  {
    (s[m.start..m.lhsEnd], s[m.relationAt..m.relationAt + 1], s[m.rhs.start..m.rhs.end])
  }

  function ConstraintTexts(s: string, ms: seq<ConstraintSpan>): (r: seq<RawConstraint>)
    requires forall k :: 0 <= k < |ms| ==> ConstraintWithin(s, ms[k])
    ensures |r| == |ms|
    ensures forall k :: 0 <= k < |ms| ==> r[k] == ConstraintText(s, ms[k])
  {
    if ms == [] then []
    else
      var front := ms[..|ms| - 1];
      assert forall k :: 0 <= k < |front| ==> front[k] == ms[k];
      ConstraintTexts(s, front) + [ConstraintText(s, ms[|ms| - 1])]
  }

  /** `re.findall` of the constraint pattern over the whole normalised text. */
  function FindClauses(s: string): seq<RawConstraint> {
    ConstraintTexts(s, FindConstraints(s, 0))
  }

  // ---------------------------------------------------------------------
  // The model (modules/parser.py:24-59)
  // ---------------------------------------------------------------------

  /**
   * The loop over the constraint tuples (modules/parser.py:50-57): `float(rhs)`
   * first, then the clause's dict; the first failure is the result.
   */
  function BuildConstraints(clauses: seq<RawConstraint>): Result<seq<Constraint>> {
    if clauses == [] then Ok([])
    else
      match BuildConstraints(clauses[..|clauses| - 1])
      case Err(msg) => Err(msg)
      case Ok(cs) =>
        var (lhs, sign, rhs) := clauses[|clauses| - 1];
        match FloatValue(rhs)
        case None => Err(FloatError(rhs))
        case Some(v) =>
          match ClauseCoefficients(FindTerms(lhs))
          case Err(msg) => Err(msg)
          case Ok(d) => Ok(cs + [Constraint(d, sign, v)])
  }

  /** The variable set `vs` after `variables.add(var)` for each term of `ts` in turn. */
  function AddNames(vs: set<string>, ts: seq<RawTerm>): set<string> {
    if ts == [] then vs else AddNames(vs, ts[..|ts| - 1]) + {ts[|ts| - 1].1}
  }

  /** The variable set `vs` after the terms of each constraint clause have been added. */
  function AddClauseNames(vs: set<string>, clauses: seq<RawConstraint>): set<string> {
    if clauses == [] then vs else AddNames(AddClauseNames(vs, clauses[..|clauses| - 1]), FindTerms(clauses[|clauses| - 1].0))
  }

  /**
   * `parse_lp_input`: normalise, find the objective (or fail), read its
   * clause, find the constraints (or fail), read each of them.
   */
  function Parse(userInput: string): (r: Result<LpModel>)
    ensures r.Ok? ==> r.value.objective.kind == "maximize" || r.value.objective.kind == "minimize"
    ensures r.Ok? ==> r.value.constraints != []
  {
    var s := Normalize.Normalize(userInput);
    match FindObjective(s)
    case None => Err(ObjectiveNotFound)
    case Some(m) =>
      var objectiveTerms := FindTerms(ObjectiveBody(s, m));
      match ClauseCoefficients(objectiveTerms)
      case Err(msg) => Err(msg)
      case Ok(coefficients) =>
        var clauses := FindClauses(s);
        if clauses == [] then Err(NoConstraints)
        else
          match BuildConstraints(clauses)
          case Err(msg) => Err(msg)
          case Ok(constraints) =>
            ClausesGiveConstraints(clauses);
            Ok(LpModel(Objective(ObjectiveKind(s, m), coefficients), constraints,
                       AddClauseNames(AddNames({}, objectiveTerms), clauses)))
  }

  lemma {:induction false} ClausesGiveConstraints(clauses: seq<RawConstraint>)
    requires BuildConstraints(clauses).Ok?
    ensures |BuildConstraints(clauses).value| == |clauses|
  {
    if clauses != [] {
      ClausesGiveConstraints(clauses[..|clauses| - 1]);
    }
  }

  /** A failure part-way through the terms is the failure of the whole clause. */
  lemma {:induction false} ClauseFailureStays(ts: seq<RawTerm>, j: nat)
    requires j <= |ts| && ClauseCoefficients(ts[..j]).Err?
    ensures ClauseCoefficients(ts) == ClauseCoefficients(ts[..j])
    decreases |ts| - j
  {
    if j < |ts| {
      assert ts[..|ts| - 1][..j] == ts[..j];
      ClauseFailureStays(ts[..|ts| - 1], j);
    } else {
      assert ts[..j] == ts;
    }
  }

  /** A failure part-way through the constraints is the failure of the whole loop. */
  lemma {:induction false} BuildFailureStays(clauses: seq<RawConstraint>, j: nat)
    requires j <= |clauses| && BuildConstraints(clauses[..j]).Err?
    ensures BuildConstraints(clauses) == BuildConstraints(clauses[..j])
    decreases |clauses| - j
  {
    if j < |clauses| {
      assert clauses[..|clauses| - 1][..j] == clauses[..j];
      BuildFailureStays(clauses[..|clauses| - 1], j);
    } else {
      assert clauses[..j] == clauses;
    }
  }

  /**
   * `for coef, var in terms: d[var] = coefficient(coef); variables.add(var)`
   * (modules/parser.py:38-41 and :53-56) on a fresh dict `d`.
   */
  method CollectTerms(ts: seq<RawTerm>, variables: set<string>) returns (r: Result<Dict<real>>, variables': set<string>)
    ensures r == ClauseCoefficients(ts)
    ensures r.Ok? ==> variables' == AddNames(variables, ts)
  {
    var d: Dict<real> := [];
    variables' := variables;
    var i := 0;
    while i < |ts|
      invariant 0 <= i <= |ts|
      invariant ClauseCoefficients(ts[..i]) == Ok(d)
      invariant variables' == AddNames(variables, ts[..i])
    {
      var (c, x) := ts[i];
      assert ts[..i + 1][..i] == ts[..i];
      var v := Coefficient(c);
      if v.None? {
        ClauseFailureStays(ts, i + 1);
        return Err(FloatError(c)), variables';
      }
      d := Put(d, x, v.value);
      variables' := variables' + {x};
      i := i + 1;
    }
    assert ts[..i] == ts;
    r := Ok(d);
  }

  /**
   * `for lhs, sign, rhs in constraints: ...` (modules/parser.py:50-57): each
   * tuple's `float(rhs)`, then its clause's dict, appended in order.
   */
  method CollectConstraints(clauses: seq<RawConstraint>, variables: set<string>)
    returns (r: Result<seq<Constraint>>, variables': set<string>)
    ensures r == BuildConstraints(clauses)
    ensures r.Ok? ==> variables' == AddClauseNames(variables, clauses)
  {
    var constraints: seq<Constraint> := [];
    variables' := variables;
    var j := 0;
    while j < |clauses|
      invariant 0 <= j <= |clauses|
      invariant BuildConstraints(clauses[..j]) == Ok(constraints)
      invariant variables' == AddClauseNames(variables, clauses[..j])
    {
      var (lhs, sign, rhs) := clauses[j];
      assert clauses[..j + 1][..j] == clauses[..j];
      var value := FloatValue(rhs);
      if value.None? {
        BuildFailureStays(clauses, j + 1);
        return Err(FloatError(rhs)), variables';
      }
      var coefficients, more := CollectTerms(FindTerms(lhs), variables');
      if coefficients.Err? {
        BuildFailureStays(clauses, j + 1);
        return Err(coefficients.message), variables';
      }
      constraints := constraints + [Constraint(coefficients.value, sign, value.value)];
      variables' := more;
      j := j + 1;
    }
    assert clauses[..j] == clauses;
    r := Ok(constraints);
  }

  /** `parse_lp_input(user_input)`: the model, or the `ValueError` it raises. */
  method ParseLpInput(userInput: string) returns (r: Result<LpModel>)
    ensures r == Parse(userInput)
  {
    var s := Normalize.Normalize(userInput);
    var found := FindObjective(s);
    if found.None? {
      return Err(ObjectiveNotFound);
    }
    var m := found.value;
    var kind := ObjectiveKind(s, m);
    var objectiveTerms := FindTerms(ObjectiveBody(s, m));
    var objective, variables := CollectTerms(objectiveTerms, {});
    if objective.Err? {
      return Err(objective.message);
    }
    var clauses := FindClauses(s);
    if clauses == [] {
      return Err(NoConstraints);
    }
    var constraints, variables' := CollectConstraints(clauses, variables);
    if constraints.Err? {
      return Err(constraints.message);
    }
    return Ok(LpModel(Objective(kind, objective.value), constraints.value, variables'));
  }

  // ---------------------------------------------------------------------
  // What a parsed model means
  // ---------------------------------------------------------------------

  /** The objective `o` is what match `m` says: its keyword's kind, each name bound to the value of its last term. */
  ghost predicate ObjectiveDenotes(s: string, m: ObjectiveSpan, o: Objective)
    requires IsObjective(s, m)
  {
    TermSeqWithin(s, m.bodyStart, m.body, m.end);
    && o.kind == Lower(s[m.start..m.start + 8])
    && Keys(o.coefficients) == TermNames(s, m.body)
    && forall name :: Get(o.coefficients, name) == TermCoefficient(s, m.body, name)
  }

  /** The constraint `c` is what match `m` says: its relation, its numeral, each name bound to the value of its last term. */
  ghost predicate ConstraintDenotes(s: string, m: ConstraintSpan, c: Constraint)
    requires IsConstraint(s, m)
  {
    TermSeqWithin(s, m.start, m.lhs, m.lhsEnd);
    && c.sign == [s[m.relationAt]]
    && c.rhs == NumeralValue(s, m.rhs)
    && Keys(c.coefficients) == TermNames(s, m.lhs)
    && forall name :: Get(c.coefficients, name) == TermCoefficient(s, m.lhs, name)
  }

  /** Every match of a findall scan is a match of the pattern. */
  lemma {:induction false} ScanMatches(s: string, from: nat, ms: seq<ConstraintSpan>)
    requires ConstraintScan(s, from, ms)
    ensures forall k :: 0 <= k < |ms| ==> IsConstraint(s, ms[k])
    decreases |ms|
  {
    if ms != [] {
      ScanMatches(s, ms[0].rhs.end, ms[1..]);
      assert forall k :: 1 <= k < |ms| ==> ms[k] == ms[1..][k - 1];
    }
  }

  /** Every element of `ms` is a constraint match inside `s`. */
  predicate Matched(s: string, ms: seq<ConstraintSpan>) {
    forall k :: 0 <= k < |ms| ==> IsConstraint(s, ms[k]) && ConstraintWithin(s, ms[k])
  }

  /** The texts of a constraint match: the clause's terms, the relation symbol and a numeral `float()` accepts. */
  lemma ConstraintTextsOfMatch(s: string, m: ConstraintSpan)
    requires IsConstraint(s, m) && ConstraintWithin(s, m)
    ensures AllTerms(s, m.lhs)
    ensures FindTerms(ConstraintText(s, m).0) == TermTexts(s, m.lhs)
    ensures ConstraintText(s, m).1 == [s[m.relationAt]]
    ensures FloatValue(ConstraintText(s, m).2) == Some(NumeralValue(s, m.rhs))
  {
    NumeralFloat(s, m.rhs);
    ClauseTexts(s, m.start, m.lhs, m.lhsEnd);
  }

  /** A constraint made of a match's relation, numeral value and clause dict is the one the match denotes. */
  lemma ConstraintOfMatch(s: string, ms: seq<ConstraintSpan>, k: nat, c: Constraint)
    requires Matched(s, ms) && k < |ms|
    requires c.sign == [s[ms[k].relationAt]] && c.rhs == NumeralValue(s, ms[k].rhs)
    requires AllTerms(s, ms[k].lhs) && ClauseCoefficients(TermTexts(s, ms[k].lhs)) == Ok(c.coefficients)
    ensures ConstraintDenotes(s, ms[k], c)
  {
    TermClause(s, ms[k].lhs);
  }

  /** The constraint tuple `c` converts: its `float(rhs)` succeeds, and so do its terms. */
  predicate Converts(c: RawConstraint) {
    FloatValue(c.2).Some? && ClauseCoefficients(FindTerms(c.0)).Ok?
  }

  /** The constraint a tuple that converts becomes. */
  function Converted(c: RawConstraint): Constraint
    requires Converts(c)
  {
    Constraint(ClauseCoefficients(FindTerms(c.0)).value, c.1, FloatValue(c.2).value)
  }

  /** The conversions of tuples that all convert, in order. */
  function ConvertedAll(clauses: seq<RawConstraint>): (r: seq<Constraint>)
    requires forall k :: 0 <= k < |clauses| ==> Converts(clauses[k])
    ensures |r| == |clauses|
    ensures forall k :: 0 <= k < |clauses| ==> r[k] == Converted(clauses[k])
  {
    seq(|clauses|, k requires 0 <= k < |clauses| => Converted(clauses[k]))
  }

  /** The constraint `c` is what the loop makes of the tuple `clause`. */
  predicate ConvertsTo(clause: RawConstraint, c: Constraint) {
    && FloatValue(clause.2) == Some(c.rhs)
    && ClauseCoefficients(FindTerms(clause.0)) == Ok(c.coefficients)
    && c.sign == clause.1
  }

  /** When every tuple converts, the loop yields their conversions, in order. */
  lemma {:induction false} BuildAll(clauses: seq<RawConstraint>, cs: seq<Constraint>)
    requires |cs| == |clauses|
    requires forall k :: 0 <= k < |clauses| ==> ConvertsTo(clauses[k], cs[k])
    ensures BuildConstraints(clauses) == Ok(cs)
  {
    if clauses != [] {
      var n := |clauses| - 1;
      var front := clauses[..n];
      assert forall k :: 0 <= k < n ==> front[k] == clauses[k] && cs[..n][k] == cs[k];
      BuildAll(front, cs[..n]);
      assert ConvertsTo(clauses[n], cs[n]);
      SplitLast(cs);
    }
  }

  /**
   * The constraint loop never fails on the tuples of constraint matches, and
   * yields one constraint per match, in order, each the one its match denotes.
   */
  lemma BuildFromMatches(s: string, ms: seq<ConstraintSpan>)
    requires Matched(s, ms)
    ensures BuildConstraints(ConstraintTexts(s, ms)).Ok?
    ensures |BuildConstraints(ConstraintTexts(s, ms)).value| == |ms|
    ensures forall k :: 0 <= k < |ms| ==> ConstraintDenotes(s, ms[k], BuildConstraints(ConstraintTexts(s, ms)).value[k])
  {
    var clauses := ConstraintTexts(s, ms);
    forall k | 0 <= k < |ms| ensures Converts(clauses[k]) && Converted(clauses[k]).sign == [s[ms[k].relationAt]] {
      ConstraintTextsOfMatch(s, ms[k]);
      TermClause(s, ms[k].lhs);
    }
    var cs := ConvertedAll(clauses);
    forall k | 0 <= k < |ms| ensures ConvertsTo(clauses[k], cs[k]) {
      assert cs[k] == Converted(clauses[k]);
    }
    BuildAll(clauses, cs);
    forall k | 0 <= k < |ms| ensures ConstraintDenotes(s, ms[k], ConvertedAll(clauses)[k]) {
      ConstraintTextsOfMatch(s, ms[k]);
      ConstraintOfMatch(s, ms, k, Converted(clauses[k]));
    }
  }

  /**
   * A successful parse reads the leftmost objective match of the normalised
   * text and every constraint match of the findall scan, in order.
   */
  lemma ParseMeaning(userInput: string)
    ensures var s := Normalize.Normalize(userInput);
      Parse(userInput).Ok? ==>
        && FindObjective(s).Some? && LeftmostObjective(s, FindObjective(s).value)
        && ObjectiveDenotes(s, FindObjective(s).value, Parse(userInput).value.objective)
        && ConstraintScan(s, 0, FindConstraints(s, 0))
        && |Parse(userInput).value.constraints| == |FindConstraints(s, 0)|
        && forall k :: 0 <= k < |FindConstraints(s, 0)| ==>
             IsConstraint(s, FindConstraints(s, 0)[k]) &&
             ConstraintDenotes(s, FindConstraints(s, 0)[k], Parse(userInput).value.constraints[k])
  {
    var s := Normalize.Normalize(userInput);
    SearchObjectiveLeftmost(s);
    if Parse(userInput).Ok? {
      var m := FindObjective(s).value;
      ClauseTexts(s, m.bodyStart, m.body, m.end);
      TermClause(s, m.body);
      var ms := FindConstraints(s, 0);
      FindConstraintsScan(s, 0);
      ScanMatches(s, 0, ms);
      BuildFromMatches(s, ms);
    }
  }

  /**
   * The two `ValueError`s, and when each is raised: no objective match at
   * all, or an objective match but no constraint match.  No other failure
   * is possible.
   */
  lemma ParseErrors(userInput: string)
    ensures var s := Normalize.Normalize(userInput);
      && (Parse(userInput) == Err(ObjectiveNotFound) <==> forall p :: !ObjectiveMatchesAt(s, p))
      && (Parse(userInput) == Err(NoConstraints) <==>
            (exists p :: ObjectiveMatchesAt(s, p)) && forall p :: !ConstraintMatchesAt(s, p))
      && (Parse(userInput).Err? ==> Parse(userInput) == Err(ObjectiveNotFound) || Parse(userInput) == Err(NoConstraints))
  {
    var s := Normalize.Normalize(userInput);
    SearchObjectiveLeftmost(s);
    assert ObjectiveNotFound != NoConstraints by { assert |ObjectiveNotFound| != |NoConstraints|; }
    if FindObjective(s).Some? {
      var m := FindObjective(s).value;
      assert ObjectiveMatchesAt(s, m.start);
      ClauseTexts(s, m.bodyStart, m.body, m.end);
      TermClause(s, m.body);
      var ms := FindConstraints(s, 0);
      FindConstraintsScan(s, 0);
      ScanMatches(s, 0, ms);
      BuildFromMatches(s, ms);
      if ms != [] {
        assert ConstraintMatchesAt(s, ms[0].start);
      }
    }
  }

  /** The union of the key sets of the constraints' dicts. */
  function ConstraintKeys(cs: seq<Constraint>): set<string> {
    if cs == [] then {} else ConstraintKeys(cs[..|cs| - 1]) + Keys(cs[|cs| - 1].coefficients)
  }

  lemma {:induction false} AddNamesUnion(vs: set<string>, ts: seq<RawTerm>)
    ensures AddNames(vs, ts) == vs + Names(ts)
  {
    if ts != [] {
      AddNamesUnion(vs, ts[..|ts| - 1]);
    }
  }

  lemma {:induction false} AddClauseNamesKeys(vs: set<string>, clauses: seq<RawConstraint>)
    ensures BuildConstraints(clauses).Ok? ==>
      AddClauseNames(vs, clauses) == vs + ConstraintKeys(BuildConstraints(clauses).value)
  {
    if clauses != [] && BuildConstraints(clauses).Ok? {
      var front := clauses[..|clauses| - 1];
      var ts := FindTerms(clauses[|clauses| - 1].0);
      AddClauseNamesKeys(vs, front);
      AddNamesUnion(AddClauseNames(vs, front), ts);
      LastWriteWins(ts);
      var cs := BuildConstraints(clauses).value;
      assert cs[..|cs| - 1] == BuildConstraints(front).value;
    }
  }

  /** The variable set is the union of the names of the objective's dict and of every constraint's dict. */
  lemma ParseVariables(userInput: string)
    ensures Parse(userInput).Ok? ==>
      Parse(userInput).value.variables ==
        Keys(Parse(userInput).value.objective.coefficients) + ConstraintKeys(Parse(userInput).value.constraints)
  {
    var s := Normalize.Normalize(userInput);
    if Parse(userInput).Ok? {
      var m := FindObjective(s).value;
      var objectiveTerms := FindTerms(ObjectiveBody(s, m));
      AddNamesUnion({}, objectiveTerms);
      LastWriteWins(objectiveTerms);
      AddClauseNamesKeys(AddNames({}, objectiveTerms), FindClauses(s));
    }
  }

  /** Normalisation deletes the blanks and keeps every other separator character. */
  lemma SeparatorsKept(userInput: string)
    ensures forall c :: c in Normalize.Normalize(userInput) && IsSeparator(c) ==> c != ' ' && c in userInput
  {
    var s := Normalize.Normalize(userInput);
    NormalizeKeeps(userInput, ':');
    forall c | c in s && IsSeparator(c) ensures c != ' ' && c in userInput {
      NormalizeKeeps(userInput, c);
      CountIn(s, c);
      CountIn(userInput, c);
    }
  }

  /**
   * Without a colon and without white space other than the blank (which
   * normalisation deletes), no text has an objective: `"Maximize 2x"` fails.
   */
  lemma NoSeparatorNoObjective(userInput: string)
    requires forall k :: 0 <= k < |userInput| ==> !IsSeparator(userInput[k]) || userInput[k] == ' '
    ensures Parse(userInput) == Err(ObjectiveNotFound)
  {
    var s := Normalize.Normalize(userInput);
    SeparatorsKept(userInput);
    forall m: ObjectiveSpan | IsObjective(s, m) ensures false {
      KeywordSeparated(s, m);
    }
  }

  /** The objective keyword is followed by a separator character of the text. */
  lemma KeywordSeparated(s: string, m: ObjectiveSpan)
    requires IsObjective(s, m)
    ensures s[m.start + 8] in s && IsSeparator(s[m.start + 8])
  {
    assert InClass(s[m.start + 8], Separator);
  }
}
