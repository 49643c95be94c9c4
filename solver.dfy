/**
 * `solve_lp` (modules/solver.py): an LP model given as nested dictionaries is
 * checked, turned into a PuLP problem, handed to the chosen solver, and the
 * solver's answer is assembled into a result record.  Every failure on the way
 * becomes an error record; nothing escapes to the caller.
 *
 * PuLP is an abstract backend: a function from the solver chosen and the
 * problem built to an outcome (the exception the solve raised, or the status,
 * the objective value, each variable's value and each constraint's dual and
 * slack attributes).
 */
module Solver {
  import opened Wrappers
  import opened Dicts
  import Parser

  // ---------------------------------------------------------------------
  // Input schema (modules/solver.py:9-15)
  // ---------------------------------------------------------------------

  /** A `(lower, upper)` bound pair; `None` stands for Python's `None`, no bound. */
  datatype Bound = Bound(lower: Option<real>, upper: Option<real>)

  /** `(0, None)`: the bound of a variable that `bounds` does not mention. */
  const DefaultBound: Bound := Bound(Some(0.0), None)

  /** `lp_model["objective"]`; `None` marks a key that is absent. */
  datatype ObjectiveIn = ObjectiveIn(sense: Option<string>, coefficients: Option<Dict<real>>)

  /** One entry of `lp_model["constraints"]`; `None` marks a key that is absent. */
  datatype ConstraintIn = ConstraintIn(coefficients: Option<Dict<real>>, sense: Option<string>, rhs: Option<real>)

  /** `lp_model["constraints"]`: a dict of named constraints, or a list of them. */
  datatype ConstraintsIn = Named(entries: Dict<ConstraintIn>) | Listed(items: seq<ConstraintIn>)

  /** `lp_model`; an absent `"bounds"` key is the empty map. */
  datatype ModelInput = ModelInput(objective: Option<ObjectiveIn>, constraints: Option<ConstraintsIn>, bounds: map<string, Bound>)

  // ---------------------------------------------------------------------
  // The problem handed to PuLP
  // ---------------------------------------------------------------------

  datatype Relation = Le | Ge | Eq

  /** A constraint `lhs <relation> rhs` with `lhs` the sum of coefficient times variable. */
  datatype Row = Row(coefficients: Dict<real>, relation: Relation, rhs: real)

  /**
   * `LpProblem`: the sense, one variable per name with its bounds, the
   * objective's coefficients and the constraints under their names, in the
   * order they were added.
   */
  datatype Problem = Problem(maximize: bool, variables: map<string, Bound>, objective: Dict<real>, constraints: Dict<Row>)

  /** The solver commands of `solver_map` (modules/solver.py:52-57). */
  datatype SolverKind = Cbc | Glpk | Gurobi | Cplex

  /** PuLP's status codes 0, 1, -1, -2 and -3. */
  datatype Status = NotSolved | Optimal | Infeasible | Unbounded | Undefined

  /** A constraint attribute (`pi` or `slack`): absent, or present holding a number or `None`. */
  datatype Attr = Missing | Has(value: Option<real>)

  /** What `prob.solve(solver)` leaves behind. */
  datatype Outcome =
    | Raised(message: string)
    | Finished(status: Status, objectiveValue: Option<real>, value: string -> Option<real>,
               pi: string -> Attr, slack: string -> Attr)

  /** The record `solve_lp` returns (modules/solver.py:84-91 and :95). */
  datatype SolveResult =
    | Solved(status: string, objectiveValue: Option<real>, variables: map<string, Option<real>>,
             duals: Dict<Option<real>>, slacks: Dict<Option<real>>, solverTime: real)
    | Error(message: string)

  // ---------------------------------------------------------------------
  // Messages
  // ---------------------------------------------------------------------

  /** `str(KeyError(key))`. */
  function KeyError(key: string): string {
    "'" + key + "'"
  }

  function MissingKeyText(key: string): string {
    "lp_model is missing required key: '" + key + "'"
  }

  /** The `AttributeError` of calling `.values()` on a list. */
  const NoValues: string := "'list' object has no attribute 'values'"

  function UnknownSenseText(sense: string): string {
    "Unknown constraint sense: " + sense
  }

  function UnknownSolverText(name: string): string {
    "Unknown solver: " + name
  }

  // ---------------------------------------------------------------------
  // Specification of `solve_lp`
  // ---------------------------------------------------------------------

  const RequiredKeys: seq<string> := ["objective", "constraints"]

  /** `key in lp_model`, for the keys `solve_lp` requires. */
  predicate Present(m: ModelInput, key: string) {
    if key == "objective" then m.objective.Some?
    else if key == "constraints" then m.constraints.Some?
    else true
  }

  /** `bounds.get(name, (0, None))`. */
  function BoundOf(bounds: map<string, Bound>, name: string): Bound {
    if name in bounds then bounds[name] else DefaultBound
  }

  /** The variables created for `names` (modules/solver.py:31-34). */
  function Variables(names: set<string>, bounds: map<string, Bound>): map<string, Bound> {
    map v | v in names :: BoundOf(bounds, v)
  }

  /**
   * The union of the constraints' coefficient keys, or the `KeyError` of the
   * list comprehension at modules/solver.py:32 when one has no coefficients.
   */
  function ConstraintKeys(cs: seq<(string, ConstraintIn)>): Result<set<string>>
    decreases |cs|
  {
    if cs == [] then Ok({})
    else
      match ConstraintKeys(cs[..|cs| - 1])
      case Err(e) => Err(e)
      case Ok(names) =>
        match cs[|cs| - 1].1.coefficients
        case None => Err(KeyError("coefficients"))
        case Some(d) => Ok(names + Keys(d))
  }

  /** The relation a sense string selects; other strings select none. */
  function RelationOf(sense: string): Option<Relation> {
    if sense == "<=" then Some(Le)
    else if sense == ">=" then Some(Ge)
    else if sense == "=" then Some(Eq)
    else None
  }

  /** One constraint added to the problem, or the exception that stops it (modules/solver.py:41-49). */
  function RowOf(c: ConstraintIn): Result<Row> {
    match c.coefficients
    case None => Err(KeyError("coefficients"))
    case Some(lhs) =>
      match c.sense
      case None => Err(KeyError("sense"))
      case Some(sense) =>
        match RelationOf(sense)
        case None => Err(UnknownSenseText(sense))
        case Some(relation) =>
          match c.rhs
          case None => Err(KeyError("rhs"))
          case Some(rhs) => Ok(Row(lhs, relation, rhs))
  }

  /** The constraints added in dict order; the first failing one stops the loop. */
  function Rows(cs: Dict<ConstraintIn>): Result<Dict<Row>>
    decreases |cs|
  {
    if cs == [] then Ok([])
    else
      var front: Dict<ConstraintIn> := cs[..|cs| - 1];
      match Rows(front)
      case Err(e) => Err(e)
      case Ok(rows) =>
        match RowOf(cs[|cs| - 1].1)
        case Err(e) => Err(e)
        case Ok(row) => Ok(Put(rows, cs[|cs| - 1].0, row))
  }

  /** The problem built from `lp_model`, or the message of the exception raised on the way. */
  function Build(m: ModelInput): Result<Problem> {
    if m.objective.None? then Err(MissingKeyText("objective"))
    else if m.constraints.None? then Err(MissingKeyText("constraints"))
    else
      var objective := m.objective.value;
      if objective.sense.None? then Err(KeyError("sense"))
      else if objective.coefficients.None? then Err(KeyError("coefficients"))
      else
        match m.constraints.value
        case Listed(_) => Err(NoValues)
        case Named(cs) =>
          match ConstraintKeys(cs)
          case Err(e) => Err(e)
          case Ok(names) =>
            match Rows(cs)
            case Err(e) => Err(e)
            case Ok(rows) =>
              Ok(Problem(objective.sense.value == "max",
                         Variables(Keys(objective.coefficients.value) + names, m.bounds),
                         objective.coefficients.value, rows))
  }

  /** `solver_map.get(name)`. */
  function SolverFor(name: string): Option<SolverKind> {
    if name == "default" then Some(Cbc)
    else if name == "GLPK" then Some(Glpk)
    else if name == "Gurobi" then Some(Gurobi)
    else if name == "CPLEX" then Some(Cplex)
    else None
  }

  /** `pulp.LpStatus`. */
  function StatusText(s: Status): (r: string)
    ensures r != "Error"
    ensures r == "Optimal" <==> s == Optimal
  {
    match s
    case NotSolved => "Not Solved"
    case Optimal => "Optimal"
    case Infeasible => "Infeasible"
    case Unbounded => "Unbounded"
    case Undefined => "Undefined"
  }

  /**
   * `dual_values` and `slack_values` filled over the constraints in order: a
   * missing `pi` skips the constraint, a missing `slack` skips only its slack.
   */
  function Marginals(cs: seq<(string, Row)>, pi: string -> Attr, slack: string -> Attr)
    : (Dict<Option<real>>, Dict<Option<real>>)
    decreases |cs|
  {
    if cs == [] then ([], [])
    else
      var (duals, slacks) := Marginals(cs[..|cs| - 1], pi, slack);
      var name := cs[|cs| - 1].0;
      match pi(name)
      case Missing => (duals, slacks)
      case Has(d) =>
        match slack(name)
        case Missing => (Put(duals, name, d), slacks)
        case Has(s) => (Put(duals, name, d), Put(slacks, name, s))
  }

  /** The record assembled from the backend's outcome (modules/solver.py:68-91). */
  function Assemble(p: Problem, o: Outcome, elapsed: real): SolveResult {
    match o
    case Raised(message) => Error(message)
    case Finished(status, value, varValue, pi, slack) =>
      var marginals := if status == Optimal then Marginals(p.constraints, pi, slack) else ([], []);
      Solved(StatusText(status), if status == Optimal then value else None,
             map v | v in p.variables :: varValue(v), marginals.0, marginals.1, elapsed)
  }

  /** What `solve_lp(lp_model, solver_name)` returns; `elapsed` is the measured solve time. */
  function Solve(m: ModelInput, solverName: string, backend: (SolverKind, Problem) -> Outcome, elapsed: real)
    : SolveResult
  {
    match Build(m)
    case Err(e) => Error(e)
    case Ok(p) =>
      match SolverFor(solverName)
      case None => Error(UnknownSolverText(solverName))
      case Some(kind) => Assemble(p, backend(kind, p), elapsed)
  }

  /** The call `prob.solve(solver)` makes, if it is reached. */
  function Submission(m: ModelInput, solverName: string): Option<(SolverKind, Problem)> {
    match Build(m)
    case Err(_) => None
    case Ok(p) =>
      match SolverFor(solverName)
      case None => None
      case Some(kind) => Some((kind, p))
  }

  // ---------------------------------------------------------------------
  // The implementation (modules/solver.py:20-95)
  // ---------------------------------------------------------------------

  /** Lines 20-49: key checks, sense, variables, objective and constraints. */
  method BuildProblem(model: ModelInput) returns (r: Result<Problem>)
    ensures r == Build(model)
  {
    for i := 0 to |RequiredKeys|
      invariant forall j :: 0 <= j < i ==> Present(model, RequiredKeys[j])
    {
      if !Present(model, RequiredKeys[i]) {
        assert i == 0 ==> RequiredKeys[i] == "objective";
        assert i == 1 ==> RequiredKeys[i] == "constraints" && Present(model, RequiredKeys[0]);
        return Err(MissingKeyText(RequiredKeys[i]));
      }
    }
    assert Present(model, RequiredKeys[0]) && Present(model, RequiredKeys[1]);
    var objective := model.objective.value;
    if objective.sense.None? {
      return Err(KeyError("sense"));
    }
    var maximize := objective.sense.value == "max";
    if objective.coefficients.None? {
      return Err(KeyError("coefficients"));
    }
    var objectiveCoefficients := objective.coefficients.value;
    if model.constraints.value.Listed? {
      return Err(NoValues);
    }
    var constraints := model.constraints.value.entries;

    var mentioned := ConstraintNames(constraints);
    if mentioned.Err? {
      return Err(mentioned.message);
    }
    var variables := CreateVariables(Keys(objectiveCoefficients) + mentioned.value, model.bounds);
    var rows := AddConstraints(constraints);
    if rows.Err? {
      return Err(rows.message);
    }
    return Ok(Problem(maximize, variables, objectiveCoefficients, rows.value));
  }

  /** The list comprehension of line 32: every constraint's coefficient keys. */
  method ConstraintNames(constraints: Dict<ConstraintIn>) returns (r: Result<set<string>>)
    ensures r == ConstraintKeys(constraints)
  {
    var mentioned: set<string> := {};
    for i := 0 to |constraints|
      invariant ConstraintKeys(constraints[..i]) == Ok(mentioned)
    {
      assert constraints[..i + 1][..i] == constraints[..i];
      if constraints[i].1.coefficients.None? {
        KeysErrorSticks(constraints, i + 1);
        return Err(KeyError("coefficients"));
      }
      mentioned := mentioned + Keys(constraints[i].1.coefficients.value);
    }
    assert constraints[..|constraints|] == constraints;
    return Ok(mentioned);
  }

  /** Lines 31-34: one variable per name, in whatever order the set yields them. */
  method CreateVariables(names: set<string>, bounds: map<string, Bound>) returns (variables: map<string, Bound>)
    ensures variables == Variables(names, bounds)
  {
    variables := map[];
    var pending := names;
    while pending != {}
      invariant pending <= names
      invariant variables == Variables(names - pending, bounds)
      decreases pending
    {
      var v :| v in pending;
      variables := variables[v := BoundOf(bounds, v)];
      pending := pending - {v};
    }
  }

  /** Lines 40-49: the constraints added under their names, in dict order. */
  method AddConstraints(constraints: Dict<ConstraintIn>) returns (r: Result<Dict<Row>>)
    ensures r == Rows(constraints)
  {
    var rows: Dict<Row> := [];
    for i := 0 to |constraints|
      invariant Rows(constraints[..i]) == Ok(rows)
    {
      var (name, c) := constraints[i];
      var next: Dict<ConstraintIn> := constraints[..i + 1];
      assert next[..i] == constraints[..i];
      var row := ConstraintRow(c);
      if row.Err? {
        RowsErrorSticks(constraints, i + 1);
        return Err(row.message);
      }
      rows := Put(rows, name, row.value);
    }
    assert constraints[..|constraints|] == constraints;
    return Ok(rows);
  }

  /** Lines 41-49 for one constraint: the dispatch on its sense string. */
  method ConstraintRow(c: ConstraintIn) returns (r: Result<Row>)
    ensures r == RowOf(c)
  {
    if c.coefficients.None? {
      return Err(KeyError("coefficients"));
    }
    var lhs := c.coefficients.value;
    if c.sense.None? {
      return Err(KeyError("sense"));
    } else if c.sense.value == "<=" {
      if c.rhs.None? {
        return Err(KeyError("rhs"));
      }
      return Ok(Row(lhs, Le, c.rhs.value));
    } else if c.sense.value == ">=" {
      if c.rhs.None? {
        return Err(KeyError("rhs"));
      }
      return Ok(Row(lhs, Ge, c.rhs.value));
    } else if c.sense.value == "=" {
      if c.rhs.None? {
        return Err(KeyError("rhs"));
      }
      return Ok(Row(lhs, Eq, c.rhs.value));
    } else {
      return Err(UnknownSenseText(c.sense.value));
    }
  }

  /** Lines 68-91: status, objective value, variable values, duals and slacks. */
  method CollectResults(p: Problem, o: Outcome, elapsed: real) returns (r: SolveResult)
    ensures r == Assemble(p, o, elapsed)
  {
    if o.Raised? {
      return Error(o.message);
    }
    var status := StatusText(o.status);
    var objectiveValue := if o.status == Optimal then o.objectiveValue else None;

    var values := map v | v in p.variables :: o.value(v);
    var duals: Dict<Option<real>> := [];
    var slacks: Dict<Option<real>> := [];
    if o.status == Optimal {
      duals, slacks := CollectMarginals(p.constraints, o.pi, o.slack);
    }
    return Solved(status, objectiveValue, values, duals, slacks, elapsed);
  }

  /** Lines 77-82: one `try` per constraint, the dual stored before the slack. */
  method CollectMarginals(cs: Dict<Row>, pi: string -> Attr, slack: string -> Attr)
    returns (duals: Dict<Option<real>>, slacks: Dict<Option<real>>)
    ensures (duals, slacks) == Marginals(cs, pi, slack)
  {
    duals, slacks := [], [];
    for i := 0 to |cs|
      invariant Marginals(cs[..i], pi, slack) == (duals, slacks)
    {
      var name := cs[i].0;
      assert cs[..i + 1][..i] == cs[..i];
      match pi(name)
      case Missing =>
      case Has(d) =>
        duals := Put(duals, name, d);
        match slack(name)
        case Missing =>
        case Has(s) =>
          slacks := Put(slacks, name, s);
    }
    assert cs[..|cs|] == cs;
  }

  /**
   * `solve_lp(model, solverName)`.  `submitted` records the call made to the
   * backend, if any; `elapsed` stands for the measured solve time.
   */
  method SolveLp(model: ModelInput, solverName: string, backend: (SolverKind, Problem) -> Outcome, elapsed: real)
    returns (result: SolveResult, submitted: Option<(SolverKind, Problem)>)
    ensures result == Solve(model, solverName, backend, elapsed)
    ensures submitted == Submission(model, solverName)
  {
    var built := BuildProblem(model);
    if built.Err? {
      return Error(built.message), None;
    }
    var p := built.value;
    var solver := SolverFor(solverName);
    if solver.None? {
      return Error(UnknownSolverText(solverName)), None;
    }
    submitted := Some((solver.value, p));
    var outcome := backend(solver.value, p);
    result := CollectResults(p, outcome, elapsed);
  }

  // ---------------------------------------------------------------------
  // Loop lemmas
  // ---------------------------------------------------------------------

  /** Once a prefix of the constraints fails the key union, the whole does, with the same message. */
  lemma {:induction false} KeysErrorSticks(cs: seq<(string, ConstraintIn)>, k: nat)
    requires k <= |cs| && ConstraintKeys(cs[..k]).Err?
    ensures ConstraintKeys(cs) == ConstraintKeys(cs[..k])
    decreases |cs| - k
  {
    if k < |cs| {
      assert cs[..k + 1][..k] == cs[..k];
      KeysErrorSticks(cs, k + 1);
    } else {
      assert cs[..k] == cs;
    }
  }

  /** Once a prefix of the constraints fails to be added, the whole does, with the same message. */
  lemma {:induction false} RowsErrorSticks(cs: Dict<ConstraintIn>, k: nat)
    requires k <= |cs|
    requires Rows(cs[..k]).Err?
    ensures Rows(cs) == Rows(cs[..k])
    decreases |cs| - k
  {
    if k < |cs| {
      var next: Dict<ConstraintIn> := cs[..k + 1];
      assert next[..k] == cs[..k];
      RowsErrorSticks(cs, k + 1);
    } else {
      assert cs[..k] == cs;
    }
  }

  // ---------------------------------------------------------------------
  // Properties of `solve_lp`
  // ---------------------------------------------------------------------

  /** A missing required key is reported, `"objective"` first, and no solve is started. */
  lemma MissingKeyReported(m: ModelInput, solverName: string, backend: (SolverKind, Problem) -> Outcome, elapsed: real)
    requires m.objective.None? || m.constraints.None?
    ensures Solve(m, solverName, backend, elapsed)
            == Error(MissingKeyText(if m.objective.None? then "objective" else "constraints"))
    ensures Submission(m, solverName) == None
  {
  }

  /** The problem maximises exactly when the sense is the string "max"; "maximize" minimises. */
  lemma MaximizesExactlyOnMax(m: ModelInput)
    requires Build(m).Ok?
    ensures Build(m).value.maximize <==> m.objective.value.sense == Some("max")
  {
  }

  /** Some constraint of `cs` has coefficients and names `v` among them. */
  predicate Mentions(cs: seq<(string, ConstraintIn)>, v: string) {
    exists k :: 0 <= k < |cs| && cs[k].1.coefficients.Some? && v in Keys(cs[k].1.coefficients.value)
  }

  /** The key union succeeds iff every constraint has coefficients, and then holds exactly the mentioned names. */
  lemma {:induction false} ConstraintKeysUnion(cs: seq<(string, ConstraintIn)>)
    ensures ConstraintKeys(cs).Ok? <==> forall k :: 0 <= k < |cs| ==> cs[k].1.coefficients.Some?
    ensures ConstraintKeys(cs).Ok? ==> forall v :: v in ConstraintKeys(cs).value <==> Mentions(cs, v)
    decreases |cs|
  {
    if cs != [] {
      var front := cs[..|cs| - 1];
      ConstraintKeysUnion(front);
      assert forall k :: 0 <= k < |front| ==> front[k] == cs[k];
      if ConstraintKeys(cs).Ok? {
        forall v ensures v in ConstraintKeys(cs).value <==> Mentions(cs, v) {
          if Mentions(cs, v) {
            var k :| 0 <= k < |cs| && cs[k].1.coefficients.Some? && v in Keys(cs[k].1.coefficients.value);
            if k < |front| {
              assert Mentions(front, v);
            }
          }
          if v in ConstraintKeys(front).value {
            var k :| 0 <= k < |front| && front[k].1.coefficients.Some? && v in Keys(front[k].1.coefficients.value);
            assert cs[k] == front[k];
          }
        }
      }
    }
  }

  /**
   * One variable per name in the union of the objective's and the constraints'
   * coefficient keys, bounded by `bounds[name]` or else `(0, None)`.
   */
  lemma VariablesOfModel(m: ModelInput, v: string)
    requires Build(m).Ok?
    ensures v in Build(m).value.variables
            <==> v in Keys(m.objective.value.coefficients.value) || Mentions(m.constraints.value.entries, v)
    ensures v in Build(m).value.variables ==> Build(m).value.variables[v] == BoundOf(m.bounds, v)
  {
    ConstraintKeysUnion(m.constraints.value.entries);
  }

  /**
   * The constraints are all added iff each one is, and then each is stored
   * under its own name, in the input's order.
   */
  lemma {:induction false} RowsAdded(cs: Dict<ConstraintIn>)
    ensures Rows(cs).Ok? <==> forall k :: 0 <= k < |cs| ==> RowOf(cs[k].1).Ok?
    ensures Rows(cs).Ok? ==> Keys(Rows(cs).value) == Keys(cs) && KeyList(Rows(cs).value) == KeyList(cs)
    ensures Rows(cs).Ok? ==> forall k :: 0 <= k < |cs| ==> Get(Rows(cs).value, cs[k].0) == Some(RowOf(cs[k].1).value)
    decreases |cs|
  {
    if cs != [] {
      var front: Dict<ConstraintIn> := cs[..|cs| - 1];
      var last := cs[|cs| - 1];
      RowsAdded(front);
      assert forall k :: 0 <= k < |front| ==> front[k] == cs[k];
      if Rows(cs).Ok? {
        var rows := Rows(front).value;
        LastNotInFront(cs);
        SplitLast(cs);
        KeysSnoc(front, last);
        KeyListSnoc(front, last);
        forall k | 0 <= k < |cs| ensures Get(Rows(cs).value, cs[k].0) == Some(RowOf(cs[k].1).value) {
          if k < |front| {
            assert cs[k].0 != last.0;
          }
        }
      }
    }
  }

  /** The first constraint in dict order that cannot be added gives the message. */
  lemma FirstFailureReported(cs: Dict<ConstraintIn>, i: nat)
    requires i < |cs| && RowOf(cs[i].1).Err?
    requires forall k :: 0 <= k < i ==> RowOf(cs[k].1).Ok?
    ensures Rows(cs) == Err(RowOf(cs[i].1).message)
  {
    var prefix: Dict<ConstraintIn> := cs[..i];
    var upto: Dict<ConstraintIn> := cs[..i + 1];
    assert forall k :: 0 <= k < |prefix| ==> RowOf(prefix[k].1).Ok?;
    RowsAdded(prefix);
    assert upto[..i] == prefix;
    RowsErrorSticks(cs, i + 1);
  }

  /** Only "<=", ">=" and "=" name a relation; the parser's "≤" and "≥" do not. */
  lemma SenseStrings(sense: string)
    ensures RelationOf(sense).Some? <==> sense == "<=" || sense == ">=" || sense == "="
    ensures RelationOf("≤") == None && RelationOf("≥") == None
  {
  }

  /**
   * A constraint whose sense is not one of the three relations, the first
   * failing one in dict order, is reported whatever the solver name, and no
   * solve is started.
   */
  lemma UnknownSenseReported(m: ModelInput, i: nat, solverName: string, backend: (SolverKind, Problem) -> Outcome, elapsed: real)
    requires m.objective.Some? && m.objective.value.sense.Some? && m.objective.value.coefficients.Some?
    requires m.constraints.Some? && m.constraints.value.Named?
    requires var cs := m.constraints.value.entries;
      (forall k :: 0 <= k < |cs| ==> cs[k].1.coefficients.Some?) &&
      i < |cs| && cs[i].1.sense.Some? && RelationOf(cs[i].1.sense.value).None? &&
      (forall k :: 0 <= k < i ==> RowOf(cs[k].1).Ok?)
    ensures Solve(m, solverName, backend, elapsed)
            == Error(UnknownSenseText(m.constraints.value.entries[i].1.sense.value))
    ensures Submission(m, solverName) == None
  {
    var cs := m.constraints.value.entries;
    ConstraintKeysUnion(cs);
    FirstFailureReported(cs, i);
  }

  /** Exactly four solver names are known. */
  lemma SolverNames(name: string)
    ensures SolverFor(name).Some? <==> name in {"default", "GLPK", "Gurobi", "CPLEX"}
  {
  }

  /** A model that cannot be built is reported before the solver name is looked at. */
  lemma BuildFailureFirst(m: ModelInput, solverName: string, backend: (SolverKind, Problem) -> Outcome, elapsed: real)
    requires Build(m).Err?
    ensures Solve(m, solverName, backend, elapsed) == Error(Build(m).message)
    ensures Submission(m, solverName) == None
  {
  }

  /** An unknown solver name is reported once the model is built, and no solve is started. */
  lemma UnknownSolverReported(m: ModelInput, solverName: string, backend: (SolverKind, Problem) -> Outcome, elapsed: real)
    requires Build(m).Ok? && solverName !in {"default", "GLPK", "Gurobi", "CPLEX"}
    ensures Solve(m, solverName, backend, elapsed) == Error(UnknownSolverText(solverName))
    ensures Submission(m, solverName) == None
  {
  }

  /**
   * Per constraint name: a dual iff `pi` is present, a slack iff both `pi` and
   * `slack` are; so the slack keys are among the dual keys, and those among
   * the constraint names.
   */
  lemma {:induction false} MarginalsShape(cs: seq<(string, Row)>, pi: string -> Attr, slack: string -> Attr)
    ensures forall name :: (Get(Marginals(cs, pi, slack).0, name)
                            == if name in Keys(cs) && pi(name).Has? then Some(pi(name).value) else None)
    ensures forall name :: (Get(Marginals(cs, pi, slack).1, name)
                            == if name in Keys(cs) && pi(name).Has? && slack(name).Has? then Some(slack(name).value) else None)
    ensures Keys(Marginals(cs, pi, slack).1) <= Keys(Marginals(cs, pi, slack).0) <= Keys(cs)
    decreases |cs|
  {
    if cs != [] {
      var front := cs[..|cs| - 1];
      MarginalsShape(front, pi, slack);
      SplitLast(cs);
      KeysSnoc(front, cs[|cs| - 1]);
    }
    var (duals, slacks) := Marginals(cs, pi, slack);
    forall name ensures (name in Keys(slacks) ==> name in Keys(duals)) && (name in Keys(duals) ==> name in Keys(cs)) {
      GetKeys(duals, name);
      GetKeys(slacks, name);
    }
  }

  /**
   * A finished solve gives a record with the backend's status, the objective
   * value only when optimal, a value for every variable whatever the status,
   * and duals and slacks only when optimal.
   */
  lemma FinishedRecord(p: Problem, o: Outcome, elapsed: real)
    requires o.Finished?
    ensures var r := Assemble(p, o, elapsed);
      r.Solved? && r.status == StatusText(o.status) && r.solverTime == elapsed &&
      r.objectiveValue == (if o.status == Optimal then o.objectiveValue else None) &&
      r.variables.Keys == p.variables.Keys &&
      (forall v :: v in r.variables ==> r.variables[v] == o.value(v)) &&
      (o.status != Optimal ==> r.duals == [] && r.slacks == [])
  {
  }

  /** An exception raised by the solve becomes the error record with its message. */
  lemma RaisedReported(p: Problem, o: Outcome, elapsed: real)
    requires o.Raised?
    ensures Assemble(p, o, elapsed) == Error(o.message)
  {
  }

  /**
   * The parser's output as `solve_lp` receives it: an objective with `type`
   * but no `sense` key, and the constraints as a list of records with `sign`
   * but no `sense` key.
   */
  function FromParser(lp: Parser.LpModel): (m: ModelInput)
    ensures m.objective.Some? && m.objective.value.sense.None?
    ensures m.constraints.Some? && m.constraints.value.Listed?
    ensures |m.constraints.value.items| == |lp.constraints|
  {
    ModelInput(Some(ObjectiveIn(None, Some(lp.objective.coefficients))),
               Some(Listed(seq(|lp.constraints|, k requires 0 <= k < |lp.constraints| =>
                 ConstraintIn(Some(lp.constraints[k].coefficients), None, Some(lp.constraints[k].rhs))))),
               map[])
  }

  /** Parser output handed straight to `solve_lp` ends in the `KeyError` on `"sense"`. */
  lemma ParserOutputRejected(lp: Parser.LpModel, solverName: string, backend: (SolverKind, Problem) -> Outcome, elapsed: real)
    ensures Solve(FromParser(lp), solverName, backend, elapsed) == Error(KeyError("sense"))
    ensures Submission(FromParser(lp), solverName) == None
  {
  }
}
