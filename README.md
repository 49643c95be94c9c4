# Basic linear programming application: a Dafny model

This project is a Dafny model of the three pieces of logic in the basic linear
programming application.

- **`parse_lp_input`** (`modules/parser.py`) reads an LP problem typed as text.
  - It rewrites `<=`/`>=` to `≤`/`≥` and deletes every space.
  - It finds the objective with one regular-expression search and the constraints with a left-to-right scan.
  - It turns every `[sign][digits]name` term into a coefficient.
  - It returns the objective, the constraint list and the variable set, or raises one of two `ValueError`s.
- **`solve_lp`** (`modules/solver.py`) takes an LP model given as nested dictionaries.
  - It checks the model's keys and builds a PuLP problem from it.
  - It hands the problem to one of four solvers.
  - It assembles a result record: status, objective value, variable values, duals, slacks and solve time.
  - Every failure becomes an `{"status": "Error", "message"}` record.
- **The layout logic of `modules/export.py`**:
  - the one-row CSV table;
  - the PDF report's lines and where each lands on which page;
  - the choice of files `export_solution` writes, and the messages it prints.

Modules:

- **`Wrappers`**: `Option` and `Result`. A `Result` is a value, or the message of the exception Python would raise.
- **`Dicts`**: Python dictionaries with string keys. A dictionary is an insertion-ordered sequence of entries with pairwise distinct keys. `d[k] = v` is `Put` and `{**a, **b}` is `Update`.
- **`Text`**: the character classes the regular expressions use, the maximal runs a greedy `X*` consumes, ASCII lower-casing, and `float()` on the numeral texts the patterns capture.
- **`Normalize`**: the `replace` chain of `modules/parser.py:31`.
- **`Grammar`**: each of the three regular expressions as a declarative predicate over spans of the scanned text. It also states which match the engine returns for these three patterns. Python's engine is leftmost-first backtracking, which in general need not give the longest match (`a|ab` on `ab` gives `a`). For these patterns every backtracking step lands on a character that cannot continue the match, so the first match found is the longest: `re.search` gives the leftmost match, longest at its position, and `re.findall` gives the non-overlapping leftmost-longest matches.
- **`Scanner`**: direct scanners for the three patterns, proved to return exactly the match `Grammar` specifies.
- **`Parser`**:
  - `Parse` is the specification of `parse_lp_input`.
  - `ParseLpInput` is the imperative version. Its loops fill the coefficient dictionaries, the variable set and the constraint list.
  - The lemmas state what a successful parse means and when each error is raised.
- **`Solver`**:
  - PuLP is an abstract backend: a function from the chosen solver and the built problem to an `Outcome`.
  - `Build`, `Assemble` and `Solve` specify `solve_lp`.
  - `SolveLp` and its helper methods are the imperative version, with the source's loops.
  - `SolveLp` also returns the call it made to the backend, if any, so "no solve is started" can be stated.
- **`Export`**:
  - `CsvRow` is the CSV row.
  - `PdfReport` is a class holding the page, `y_position` and the placed lines. Its `WriteLine` method is `write_line`.
  - `Layout` is the closed form of the pagination: line *i* is drawn on page *i* / 38 at height 800 − 20·(*i* mod 38).
  - `Writes` and `ExportSolution` model format selection and its printed messages.

Where the design description of the application and the code disagree, the
model follows the code:

- A variable repeated within one clause keeps its last coefficient; the coefficients are not summed.
- Empty input is not a separate error. It ends in "Objective function not found".
- Constraints are not given ids and are returned as a list.
- The constraint scan runs over the whole normalised text, including the objective.
- An unknown solver name is reported only after the model is built. So a bad constraint sense is reported first, but a solve is never started.
- Variable values are read whatever the status.
- Status strings are PuLP's: "Optimal", "Not Solved", "Infeasible", "Unbounded" and "Undefined".
- Neither a model with no variables nor one with no constraints is rejected by `solve_lp`.

## Model

| member | source | states |
|---|---|---|
| Normalize.DeleteSpaces | modules/parser.py:31 | the result has no space, and every other character occurs as often as in the input |
| Normalize.DeleteSpacesAppend | modules/parser.py:31 | deleting spaces from `a + b` is deleting them from `a` and from `b` and joining the results, so the kept characters stay in order |
| Normalize.DeleteSpacesChar | modules/parser.py:31 | a single character is dropped exactly when it is a space |
| Normalize.DeleteSpacesNone | modules/parser.py:31 | text without spaces is unchanged |
| Normalize.ReplacePair | modules/parser.py:31 | `replace` of a two-character token by one character never lengthens the text |
| Normalize.ReplaceLeavesNoPair | modules/parser.py:31 | after replacing `ab` by `c`, no `a` is followed by `b` |
| Normalize.ReplaceRoundTrip | modules/parser.py:31 | when `c` did not occur, expanding `c` back to `ab` restores the text |
| Normalize.ReplaceKeepsOthers | modules/parser.py:31 | characters other than `a`, `b` and `c` keep their counts |
| Normalize.RelationsRewritten | modules/parser.py:31 | after the two `replace` calls for `<=` and `>=` (before spaces are deleted), no `<=` and no `>=` remains |
| Normalize.RelationsRoundTrip | modules/parser.py:31 | on text without `≤`/`≥`, expanding them back gives the original text |
| Normalize.NormalizeKeeps | modules/parser.py:31 | normalised text has no space; tabs, newlines, letters (either case) and all other characters keep their counts |
| Normalize.CountIn | modules/parser.py:31 | a character occurs a positive number of times exactly when it is in the text |
| Text.RunEnd | modules/parser.py:34 | a greedy `k*` from `j` consumes the maximal run of class `k` and stops at the end or at a non-`k` character |
| Text.RunStops | modules/parser.py:46 | a run of `k` followed by a non-`k` character ends exactly there |
| Text.Lower | modules/parser.py:36 | ASCII `lower()` keeps the length and lower-cases each character |
| Text.Magnitude | modules/parser.py:51 | `float()`'s value of an unsigned numeral text is never negative |
| Text.ReadingOfDigits | modules/parser.py:51 | reading a digit string gives its decimal value and no fraction |
| Text.ReadingOfFraction | modules/parser.py:51 | reading `digits.digits` gives the whole part's value, the fraction digits' value and their count |
| Text.FloatOfInteger | modules/parser.py:39 | `float(sign + digits)` is the digits' value, negated exactly for `-` |
| Text.FloatAfterMinus | modules/parser.py:51 | `float("-" + t)` is minus `float(t)` for an unsigned numeral `t` |
| Text.FloatUnsigned | modules/parser.py:51 | `float(t)` of a text with no leading sign is its magnitude |
| Scanner.TermAt | modules/parser.py:34 | a term found at `i` satisfies the term pattern, and its name ends at a non-word character |
| Scanner.TermAtFinds | modules/parser.py:34 | wherever a term matches, the scanner finds one with the same digits and a name at least as long, and exactly that term when it is maximal |
| Scanner.MoreTerms | modules/parser.py:34 | the signed terms after the first form a chain that cannot be extended by another term |
| Scanner.MoreTermsLongest | modules/parser.py:34 | every chain of signed terms from `j` ends no later than the scanner's |
| Scanner.MoreTermsExact | modules/parser.py:34 | a chain followed by neither a word character nor a sign is exactly the scanner's |
| Scanner.TermSeqAt | modules/parser.py:46 | a term sequence found ends inside the text, at a non-word character |
| Scanner.TermSeqAtIs | modules/parser.py:46 | what the term-sequence scanner returns satisfies the term-sequence pattern |
| Scanner.TermSeqLongest | modules/parser.py:46 | every term-sequence match at `i` ends no later than the scanner's |
| Scanner.TermSeqExact | modules/parser.py:46 | a maximal term sequence is exactly the scanner's |
| Scanner.NumeralAt | modules/parser.py:46 | a numeral found satisfies `-?\d+\.?\d*` |
| Scanner.NumeralAtLongest | modules/parser.py:46 | every numeral match at a position ends no later than the scanner's |
| Scanner.ObjectiveAt | modules/parser.py:34 | an objective found at `p` satisfies the objective pattern |
| Scanner.ObjectiveAtLongest | modules/parser.py:34 | every objective match at `p` ends no later than the scanner's |
| Scanner.ObjectiveAtSound | modules/parser.py:34 | the scanner returns the longest objective match at `p`, and none exactly when none exists |
| Scanner.SearchObjective | modules/parser.py:34 | the search returns the longest match at the first position that has a match, and none exactly when no position has one |
| Scanner.SearchObjectiveLeftmost | modules/parser.py:34 | `re.search` from 0 is leftmost-longest, and fails exactly when the pattern matches nowhere |
| Scanner.ConstraintAt | modules/parser.py:46 | a constraint found at `p` lies inside the text |
| Scanner.ConstraintAfter | modules/parser.py:46 | after a term sequence, the relation and numeral found complete a constraint with that left-hand side |
| Scanner.ConstraintAtIs | modules/parser.py:46 | what the constraint scanner returns satisfies the constraint pattern |
| Scanner.ConstraintAtLongest | modules/parser.py:46 | wherever a constraint matches, the scanner finds one with the same terms and a right-hand side at least as long |
| Scanner.ConstraintParts | modules/parser.py:46 | a constraint match is made of the scanner's term sequence, space runs, relation and a numeral no longer than the scanner's |
| Scanner.ConstraintAtSound | modules/parser.py:46 | the scanner returns the longest constraint match at `p`, and none exactly when none exists |
| Scanner.FindConstraints | modules/parser.py:46 | every constraint the scan returns lies inside the text |
| Scanner.FindConstraintsScan | modules/parser.py:46 | the scan returns exactly `re.findall`'s matches: non-overlapping, leftmost, longest, in order |
| Scanner.ConstraintScanSkip | modules/parser.py:46 | a position where nothing matches can be skipped |
| Scanner.ConstraintScanCons | modules/parser.py:46 | the first longest match, followed by the scan after it, is the scan |
| Scanner.PieceAt | modules/parser.py:37 | a term piece found satisfies `([\+\-]?\d*\.?\d*)([a-zA-Z]\w*)` |
| Scanner.PieceAtFinds | modules/parser.py:37 | wherever a piece matches, the scanner finds one at least as long, and exactly that piece when it is maximal |
| Scanner.PieceDigits | modules/parser.py:52 | a piece's digits and fraction are the maximal digit runs |
| Scanner.PieceAtSound | modules/parser.py:52 | the scanner returns the longest piece match, and none exactly when none exists |
| Scanner.FindPiecesWithin | modules/parser.py:37 | every piece `findall` returns lies inside the text |
| Scanner.FindPiecesScan | modules/parser.py:52 | the piece scan is exactly `re.findall`'s: non-overlapping, leftmost, longest, in order |
| Scanner.ToPieces | modules/parser.py:52 | each term of a clause corresponds to one piece, in order |
| Scanner.PieceChainFound | modules/parser.py:52 | pieces that tile the text end to end are exactly what `findall` returns |
| Scanner.ChainShifted | modules/parser.py:52 | the terms of a clause, taken inside the clause's own text, tile it as pieces |
| Scanner.TermSeqPieces | modules/parser.py:37 | `findall` of the term pattern on a clause returns exactly the clause's terms, so each coefficient is an integer |
| Parser.Coefficient | modules/parser.py:39 | empty or `+` coefficient text gives 1 and `-` gives -1 |
| Parser.LastText | modules/parser.py:40 | a name has a coefficient text exactly when it occurs in the clause |
| Parser.LastTextIsLast | modules/parser.py:40 | a name's coefficient text is the one of its last occurrence |
| Parser.LastWriteWins | modules/parser.py:38-40 | the coefficient dict holds exactly the clause's names, each with its last coefficient |
| Parser.OverwriteNotSum | modules/parser.py:55 | `2x+3x` gives `{x: 3}`, not 5 |
| Parser.SpanAllIn | modules/parser.py:46 | a span of one class is a slice of that class |
| Parser.CoefficientOfTerm | modules/parser.py:54 | a term's coefficient is its signed integer value, 1 or -1 when the digits are absent |
| Parser.ChainWithin | modules/parser.py:46 | a chain's terms lie between its start and end |
| Parser.TermSeqWithin | modules/parser.py:46 | a term sequence is non-empty and its terms lie inside it |
| Parser.PieceTextOfTerm | modules/parser.py:52 | a term's groups in the clause text are its coefficient text and name |
| Parser.PiecesOfTerms | modules/parser.py:52 | the clause's term groups are its terms' texts, in order |
| Parser.ClauseTexts | modules/parser.py:52 | `findall` on a clause yields its terms' (coefficient, name) texts |
| Parser.PieceTexts | modules/parser.py:52 | one group pair per piece, in order |
| Parser.TermTexts | modules/parser.py:37 | one group pair per term, in order |
| Parser.TermCoefficient | modules/parser.py:40 | a name has a coefficient exactly when some term names it |
| Parser.TermClause | modules/parser.py:53-55 | no coefficient of a clause fails, and the dict holds each name's last coefficient |
| Parser.NumeralMagnitude | modules/parser.py:51 | `float()` of a numeral's unsigned part is its decimal value |
| Parser.FractionMagnitude | modules/parser.py:51 | likewise for a numeral with a point |
| Parser.NumeralFloat | modules/parser.py:51 | `float(rhs)` is the numeral's signed decimal value |
| Parser.NegativeNumeralFloat | modules/parser.py:51 | likewise for a numeral with a minus sign |
| Parser.UnsignedNumeralFloat | modules/parser.py:51 | likewise for a numeral without one |
| Parser.FindObjective | modules/parser.py:34 | the match found satisfies the objective pattern |
| Parser.ObjectiveKind | modules/parser.py:36 | the objective type is "maximize" or "minimize" |
| Parser.ConstraintTexts | modules/parser.py:46 | one group triple per constraint match, in order |
| Parser.Parse | modules/parser.py:24-59 | a parsed model's objective type is "maximize" or "minimize" and it has at least one constraint |
| Parser.ClausesGiveConstraints | modules/parser.py:50-57 | one constraint per matched clause |
| Parser.ClauseFailureStays | modules/parser.py:53-55 | a failing coefficient stops the clause with its error |
| Parser.BuildFailureStays | modules/parser.py:50-57 | a failing clause stops the constraint list with its error |
| Parser.CollectTerms | modules/parser.py:38-41 | the loop's dict is the clause's coefficient dict, and the variable set grows by its names |
| Parser.CollectConstraints | modules/parser.py:50-57 | the loop's list is the constraints built from the clauses, and the variable set grows by their names |
| Parser.ParseLpInput | modules/parser.py:3-59 | the procedure returns what `Parse` specifies |
| Parser.ScanMatches | modules/parser.py:46 | every match of the scan is a constraint match |
| Parser.ConstraintTextsOfMatch | modules/parser.py:50-52 | a match's groups are its terms' texts, its relation character, and a numeral whose `float` is its value |
| Parser.ConstraintOfMatch | modules/parser.py:50-57 | a constraint with the match's relation, value and coefficients is what the match denotes |
| Parser.BuildAll | modules/parser.py:50-57 | clauses that each convert to the given constraint build exactly that list |
| Parser.BuildFromMatches | modules/parser.py:50-57 | the scanned constraints all convert, one per match, each denoting its match |
| Parser.ParseMeaning | modules/parser.py:31-59 | on success: the objective is the leftmost-longest match, its type the lower-cased keyword and its coefficients the last ones; the constraints are the scan's matches in order, each with its relation verbatim and `float(rhs)` |
| Parser.ParseErrors | modules/parser.py:35-48 | "Objective function not found" iff the objective pattern matches nowhere; "No valid constraints found" iff it matches but no constraint does; no other error |
| Parser.AddNamesUnion | modules/parser.py:41 | adding a clause's names is the union with them |
| Parser.AddClauseNamesKeys | modules/parser.py:56 | adding every constraint's names is the union with their coefficient keys |
| Parser.ParseVariables | modules/parser.py:41 | `variables` is exactly the union of objective and constraint coefficient keys |
| Parser.SeparatorsKept | modules/parser.py:31 | a separator in the normalised text is not a space and was in the input |
| Parser.NoSeparatorNoObjective | modules/parser.py:31-43 | input whose only separators are spaces (`Maximize 2x1`) raises "Objective function not found" |
| Parser.KeywordSeparated | modules/parser.py:34 | the character after the keyword is a separator |
| Dicts.Put | modules/parser.py:40 | `d[k] = v` stores `v` under `k`, changes no other key, keeps an existing key's position and appends a new one |
| Dicts.GetKeys | modules/export.py:16-21 | a key has a value exactly when it is among the keys |
| Dicts.GetAt | modules/parser.py:40 | the value stored at an entry is what `get` returns for its key |
| Dicts.UpdateGet | modules/export.py:16-21 | `{**a, **b}` has the keys of both, and `b`'s value wins on a clash |
| Dicts.UpdateKeepsOrder | modules/export.py:16-21 | in `{**a, **b}` the keys of `a` come first, in their order |
| Solver.StatusText | modules/solver.py:69 | the status string is never "Error", and is "Optimal" exactly for the optimal status |
| Solver.BuildProblem | modules/solver.py:20-49 | the procedure returns the problem `Build` specifies, or its error |
| Solver.ConstraintNames | modules/solver.py:32 | the comprehension's loop gives the union of the constraints' coefficient keys, or the `KeyError` |
| Solver.CreateVariables | modules/solver.py:31-34 | the loop over the name set creates exactly one variable per name with its bounds |
| Solver.AddConstraints | modules/solver.py:40-49 | the loop adds the constraints `Rows` specifies, or stops with the first error |
| Solver.ConstraintRow | modules/solver.py:41-49 | the dispatch on the sense string gives the row `RowOf` specifies |
| Solver.CollectMarginals | modules/solver.py:77-82 | the per-constraint loop gives the duals and slacks `Marginals` specifies |
| Solver.CollectResults | modules/solver.py:68-91 | the procedure returns the record `Assemble` specifies |
| Solver.SolveLp | modules/solver.py:20-95 | `solve_lp` returns what `Solve` specifies and calls the backend exactly as `Submission` says |
| Solver.KeysErrorSticks | modules/solver.py:32 | once a constraint lacks coefficients, the comprehension fails with that error |
| Solver.RowsErrorSticks | modules/solver.py:40-49 | once a constraint fails, the loop fails with that error |
| Solver.MissingKeyReported | modules/solver.py:22-25 | a missing "objective" (checked first) or "constraints" key is the error record, and no solve is started |
| Solver.MaximizesExactlyOnMax | modules/solver.py:28 | the problem maximises exactly when the sense is "max"; any other string minimises |
| Solver.ConstraintKeysUnion | modules/solver.py:32 | the key union succeeds iff every constraint has coefficients, and then holds exactly the names some constraint mentions |
| Solver.VariablesOfModel | modules/solver.py:31-34 | there is a variable for a name iff the objective or a constraint mentions it, bounded by `bounds[name]`, else (0, None) |
| Solver.RowsAdded | modules/solver.py:40-47 | all constraints are added iff each is; each is stored under its own name in dict order |
| Solver.FirstFailureReported | modules/solver.py:40-49 | the first constraint in dict order that cannot be added gives the message |
| Solver.SenseStrings | modules/solver.py:42-48 | only "<=", ">=" and "=" are relations; "≤" and "≥" are not |
| Solver.UnknownSenseReported | modules/solver.py:48-49 | an unknown sense gives "Unknown constraint sense: …" whatever the solver name, and no solve is started |
| Solver.SolverNames | modules/solver.py:52-59 | exactly "default", "GLPK", "Gurobi" and "CPLEX" are known |
| Solver.BuildFailureFirst | modules/solver.py:20-61 | a model that cannot be built is reported before the solver name is looked at |
| Solver.UnknownSolverReported | modules/solver.py:59-61 | an unknown solver name gives "Unknown solver: …" and no solve is started |
| Solver.MarginalsShape | modules/solver.py:76-82 | per constraint, a dual iff `pi` is present and a slack iff both are; slack keys ⊆ dual keys ⊆ constraint names |
| Solver.FinishedRecord | modules/solver.py:68-91 | status from the backend, the objective value only when optimal, every variable's value whatever the status, no duals or slacks unless optimal |
| Solver.RaisedReported | modules/solver.py:93-95 | an exception raised by the solve becomes the error record with its message |
| Solver.FromParser | modules/parser.py:24-28 | the parser's record as `solve_lp` sees it: an objective with no "sense" key and constraints as a list |
| Solver.ParserOutputRejected | modules/solver.py:28 | parser output handed to `solve_lp` ends in the error record "'sense'", and no solve is started |
| Export.CsvRowCells | modules/export.py:16-21 | the row's columns are "Objective Value" and the keys of the three maps; slacks win over duals, duals over variables, and any of them over the objective value |
| Export.CsvObjectiveFirst | modules/export.py:16-17 | "Objective Value" is the first column; it holds `objective_value` when that key exists, even as None, and "N/A" otherwise |
| Export.EntriesAt | modules/export.py:61-62 | one entry line per key of a map, in the map's order |
| Export.SectionAt | modules/export.py:60-70 | a section is its heading and then one line per entry |
| Export.ReportShape | modules/export.py:57-70 | the report is the title, the objective line and the three sections in order: 5 + \|variables\| + \|duals\| + \|slacks\| lines |
| Export.NextPlace | modules/export.py:51-55 | one `write_line` step: below 50 a new page starts at 800, the line is drawn, and y drops by 20 |
| Export.PdfReport.constructor | modules/export.py:42-45 | a fresh report has drawn nothing, on the first page at y = 800 |
| Export.PdfReport.WriteLine | modules/export.py:48-55 | `write_line` draws the i-th line where the closed form puts it and keeps page and y in step |
| Export.WriteSection | modules/export.py:60-70 | a heading and its entries are drawn where the closed form puts them |
| Export.ExportToPdf | modules/export.py:45-70 | every report line is drawn in order at its closed-form page and height |
| Export.LayoutHeights | modules/export.py:51-55 | every line is drawn at x = 100 and at a height from 60 to 800 |
| Export.PagesFill | modules/export.py:51-55 | a page holds at most 38 lines; the next line goes 20 lower, or below a line at 60 to the next page at 800 |
| Export.WritesSelected | modules/export.py:82-87 | a format is exported iff its name is in `formats` |
| Export.WritesOrdered | modules/export.py:82-87 | each file is `base` plus its extension, at most once, in the order csv, json, pdf |
| Export.OtherFormatsIgnored | modules/export.py:82-87 | entries other than "csv", "json" and "pdf" change nothing |
| Export.ExportMessages | modules/export.py:79-90 | a directory failure is the only message; otherwise each export prints its success or its own error, and none stops the others |

## Left out

- PuLP itself is not modelled: `LpProblem`, `lpSum`, the solver commands, `LpStatus` codes beyond their five strings, `varValue`, `.pi` and `.slack`. The backend is a function parameter and its outcome a value. Optimality of the solution is not modelled.
- Solver.CollectResults: assumes `prob.variables()` lists exactly the variables created, under their own names. PuLP's renaming of names with illegal characters is not modelled.
- Solver.RowsAdded: constraint names are assumed to reach PuLP unchanged. PuLP also renames constraint names with illegal characters (`prob += ..., name`, modules/solver.py:42-46), so the keys of `duals` and `slacks` (modules/solver.py:77-80) can differ from the input names. Two names that collide after renaming make PuLP raise its overlapping-name error before the solver name is checked. Neither is modelled.
- Wall-clock timing (`time.time`, modules/solver.py:64-66) is the parameter `elapsed`. Logging (modules/solver.py:5-7 and :94) is not modelled.
- Python's Unicode `\w` and `\d` classes are restricted to ASCII. `\s` is restricted to the six characters of `Text.IsSpace`: Python's `\s` also matches `\x1c` to `\x1f` and Unicode spaces.
- Parser.ObjectiveKind: the `re.IGNORECASE` keyword match (modules/parser.py:34) and `.lower()` (modules/parser.py:36) are modelled on ASCII only. Python also matches `İ` (U+0130) and `ı` (U+0131) against `i`, so `Maxımıze:` is found by the source and stored as `maxımıze`, while the model reports that no objective was found. The contract that the type is `maximize` or `minimize` holds for ASCII keywords only.
- Numbers are exact reals: IEEE rounding of `float()` is not modelled. `float()` is modelled only on the text shapes the patterns produce.
- `solve_lp` inputs of the wrong Python type (a non-dict model, a bound that is not a pair, a non-string sense) are not modelled. The inputs are typed records with optional keys.
- Variable creation order at modules/solver.py:32 comes from iterating a Python set, so the variables are a map and only their set is stated.
- File-system and format I/O in `modules/export.py` is not modelled: `ensure_directory`, pandas `to_csv`, `json.dump` and the reportlab canvas. Export failures are parameters of `ExportSolution`.
- The `str()` rendering of values in PDF lines is not modelled. A line keeps its label and value.
- The JSON export writes the solution unchanged. Only its place in the format selection is modelled.
- modules/visualization.py (plotting) and modules/__init__.py (dynamic imports) are not part of this model.
- Export.ExportSolution: takes `formats` as a list of strings; a single string, where Python's `in` would test substrings, is not modelled.
