/**
 * The layout logic of modules/export.py: the single row of the CSV table, the
 * lines of the PDF report and where each lands on which page, and the files
 * `export_solution` writes for a list of format names.  Writing files,
 * rendering values with `str()` and the libraries that do the writing are not
 * modelled; a report line keeps its label and value instead of its text.
 */
module Export {
  import opened Wrappers
  import opened Dicts

  /** A value of the solution record: Python's `None`, a number or a string. */
  datatype Value = NoneValue | Num(number: real) | Str(text: string)

  /** The solution dictionary as the exporters read it; `None` marks an absent key. */
  datatype Solution = Solution(objectiveValue: Option<Value>, variables: Option<Dict<Value>>,
                               duals: Option<Dict<Value>>, slacks: Option<Dict<Value>>)

  /** `solution.get("objective_value", "N/A")`. */
  function ObjectiveOrNA(sol: Solution): Value {
    if sol.objectiveValue.Some? then sol.objectiveValue.value else Str("N/A")
  }

  /** `solution.get(key, {})` for one of the three maps. */
  function Section(d: Option<Dict<Value>>): Dict<Value> {
    if d.Some? then d.value else []
  }

  // ---------------------------------------------------------------------
  // CSV (modules/export.py:16-21)
  // ---------------------------------------------------------------------

  const ObjectiveColumn: string := "Objective Value"

  /** The one row of the table: the objective column, then the three maps merged in turn. */
  function CsvRow(sol: Solution): Dict<Value> {
    var first: Dict<Value> := [(ObjectiveColumn, ObjectiveOrNA(sol))];
    Update(Update(Update(first, Section(sol.variables)), Section(sol.duals)), Section(sol.slacks))
  }

  /**
   * The row has a column for the objective and for every key of the three
   * maps; on a clash the later map wins: slacks over duals over variables
   * over the objective value.
   */
  lemma CsvRowCells(sol: Solution, k: string)
    ensures Keys(CsvRow(sol))
            == {ObjectiveColumn} + Keys(Section(sol.variables)) + Keys(Section(sol.duals)) + Keys(Section(sol.slacks))
    ensures Get(CsvRow(sol), k)
            == if k in Keys(Section(sol.slacks)) then Get(Section(sol.slacks), k)
               else if k in Keys(Section(sol.duals)) then Get(Section(sol.duals), k)
               else if k in Keys(Section(sol.variables)) then Get(Section(sol.variables), k)
               else if k == ObjectiveColumn then Some(ObjectiveOrNA(sol))
               else None
  {
    var first: Dict<Value> := [(ObjectiveColumn, ObjectiveOrNA(sol))];
    var withVariables := Update(first, Section(sol.variables));
    var withDuals := Update(withVariables, Section(sol.duals));
    UpdateGet(first, Section(sol.variables), k);
    UpdateGet(withVariables, Section(sol.duals), k);
    UpdateGet(withDuals, Section(sol.slacks), k);
    assert Keys(first) == {ObjectiveColumn} by {
      assert first[1..] == [];
    }
  }

  /**
   * "Objective Value" is the first column, and holds the solution's value when
   * the key exists (even `None`) and "N/A" otherwise, unless a map has a key
   * of that name.
   */
  lemma {:induction false} CsvObjectiveFirst(sol: Solution)
    ensures KeyList(CsvRow(sol)) != [] && KeyList(CsvRow(sol))[0] == ObjectiveColumn
    ensures ObjectiveColumn !in Keys(Section(sol.variables)) + Keys(Section(sol.duals)) + Keys(Section(sol.slacks))
            ==> Get(CsvRow(sol), ObjectiveColumn)
                == Some(if sol.objectiveValue.Some? then sol.objectiveValue.value else Str("N/A"))
  {
    var first: Dict<Value> := [(ObjectiveColumn, ObjectiveOrNA(sol))];
    var withVariables := Update(first, Section(sol.variables));
    var withDuals := Update(withVariables, Section(sol.duals));
    assert KeyList(first) == [ObjectiveColumn] by {
      assert first[1..] == [];
    }
    UpdateKeepsOrder(first, Section(sol.variables));
    UpdateKeepsOrder(withVariables, Section(sol.duals));
    UpdateKeepsOrder(withDuals, Section(sol.slacks));
    assert KeyList(withVariables)[0] == ObjectiveColumn;
    assert KeyList(withDuals)[0] == KeyList(withVariables)[..1][0];
    CsvRowCells(sol, ObjectiveColumn);
  }

  // ---------------------------------------------------------------------
  // PDF (modules/export.py:45-70)
  // ---------------------------------------------------------------------

  /** A report line: its label and value, standing for the text `str()` renders. */
  datatype Line =
    | Title                             // "Linear Programming Solution Report"
    | ObjectiveLine(value: Value)       // "Objective Value: <value>"
    | Heading(text: string)             // a section title
    | Entry(name: string, value: Value) // "  <name>: <value>"

  const VariablesHeading: string := "Decision Variables:"
  const DualsHeading: string := "Constraint Dual Values:"
  const SlacksHeading: string := "Constraint Slack Values:"

  /** One entry line per key, in the map's order. */
  function Entries(d: seq<(string, Value)>): seq<Line>
    decreases |d|
  {
    if d == [] then [] else Entries(d[..|d| - 1]) + [Entry(d[|d| - 1].0, d[|d| - 1].1)]
  }

  /** A heading followed by the entry lines of its map. */
  function SectionLines(heading: string, d: seq<(string, Value)>): seq<Line> {
    [Heading(heading)] + Entries(d)
  }

  /** The lines `export_to_pdf` writes, in order. */
  function ReportLines(sol: Solution): seq<Line> {
    [Title, ObjectiveLine(ObjectiveOrNA(sol))]
    + SectionLines(VariablesHeading, Section(sol.variables))
    + SectionLines(DualsHeading, Section(sol.duals))
    + SectionLines(SlacksHeading, Section(sol.slacks))
  }

  lemma {:induction false} EntriesAt(d: seq<(string, Value)>)
    ensures |Entries(d)| == |d|
    ensures forall k :: 0 <= k < |d| ==> Entries(d)[k] == Entry(d[k].0, d[k].1)
    decreases |d|
  {
    if d != [] {
      var front := d[..|d| - 1];
      EntriesAt(front);
      assert forall k :: 0 <= k < |front| ==> front[k] == d[k];
    }
  }

  /** A section is its heading and then one entry line per key, in order. */
  lemma SectionAt(heading: string, d: seq<(string, Value)>)
    ensures |SectionLines(heading, d)| == 1 + |d| && SectionLines(heading, d)[0] == Heading(heading)
    ensures forall k :: 0 <= k < |d| ==> SectionLines(heading, d)[1 + k] == Entry(d[k].0, d[k].1)
  {
    var entries := Entries(d);
    EntriesAt(d);
    var lines := [Heading(heading)] + entries;
    forall k | 0 <= k < |d| ensures lines[1 + k] == Entry(d[k].0, d[k].1) {
      assert lines[1 + k] == entries[k];
    }
  }

  /**
   * The report is the title, the objective line and three sections each made
   * of a heading and one line per entry: 5 + |variables| + |duals| + |slacks|
   * lines.
   */
  lemma ReportShape(sol: Solution)
    ensures var vs, ds, ss := Section(sol.variables), Section(sol.duals), Section(sol.slacks);
      var lines := ReportLines(sol);
      |lines| == 5 + |vs| + |ds| + |ss| &&
      lines[0] == Title && lines[1] == ObjectiveLine(ObjectiveOrNA(sol)) &&
      lines[2..3 + |vs|] == SectionLines(VariablesHeading, vs) &&
      lines[3 + |vs|..4 + |vs| + |ds|] == SectionLines(DualsHeading, ds) &&
      lines[4 + |vs| + |ds|..] == SectionLines(SlacksHeading, ss)
  {
    var vs, ds, ss := Section(sol.variables), Section(sol.duals), Section(sol.slacks);
    var head: seq<Line> := [Title, ObjectiveLine(ObjectiveOrNA(sol))];
    var a, b, c := SectionLines(VariablesHeading, vs), SectionLines(DualsHeading, ds), SectionLines(SlacksHeading, ss);
    SectionAt(VariablesHeading, vs);
    SectionAt(DualsHeading, ds);
    SectionAt(SlacksHeading, ss);
    var lines := head + a + b + c;
    assert lines[2..3 + |vs|] == a;
    assert lines[3 + |vs|..4 + |vs| + |ds|] == b;
    assert lines[4 + |vs| + |ds|..] == c;
  }

  /** A line drawn with `c.drawString(x, y, ...)` on the page-th page (counting from 0). */
  datatype Placement = Placement(page: nat, x: int, y: int, line: Line)

  /** A page holds this many lines: y runs 800, 780, ..., 60, and 40 is below 50. */
  const LinesPerPage: nat := 38

  /** Where the i-th line of a report lands. */
  function Placed(i: nat, line: Line): Placement {
    Placement(i / LinesPerPage, 100, 800 - 20 * (i % LinesPerPage), line)
  }

  /** Where every line of `lines` lands. */
  function Layout(lines: seq<Line>): seq<Placement> {
    seq(|lines|, i requires 0 <= i < |lines| => Placed(i, lines[i]))
  }

  /** The page shown after `n` lines are drawn. */
  function PageAfter(n: nat): nat {
    if n == 0 then 0 else (n - 1) / LinesPerPage
  }

  /** `y_position` after `n` lines are drawn. */
  function YAfter(n: nat): int {
    if n == 0 then 800 else 780 - 20 * ((n - 1) % LinesPerPage)
  }

  /** The step of `write_line` from the state after `n` lines to the one after `n + 1`. */
  lemma NextPlace(n: nat, line: Line)
    ensures YAfter(n) < 50 <==> n > 0 && n % LinesPerPage == 0
    ensures Placed(n, line).page == if YAfter(n) < 50 then PageAfter(n) + 1 else PageAfter(n)
    ensures Placed(n, line).y == if YAfter(n) < 50 then 800 else YAfter(n)
    ensures PageAfter(n + 1) == Placed(n, line).page && YAfter(n + 1) == Placed(n, line).y - 20
  {
    if n > 0 {
      var q, r := (n - 1) / LinesPerPage, (n - 1) % LinesPerPage;
      assert n == LinesPerPage * q + r + 1;
      if r == LinesPerPage - 1 {
        assert n == LinesPerPage * (q + 1);
      } else {
        assert n == LinesPerPage * q + (r + 1);
      }
    }
  }

  /** The reportlab canvas as the report uses it, together with `y_position`. */
  class PdfReport {
    var page: nat
    var y: int
    var drawn: seq<Placement>

    /** `page` and `y` are the state reached after drawing `drawn`. */
    ghost predicate Valid()
      reads this
    {
      page == PageAfter(|drawn|) && y == YAfter(|drawn|)
    }

    /** `canvas.Canvas(file_path)` with `y_position = 800`. */
    constructor()
      ensures Valid() && drawn == []
    {
      page := 0;
      y := 800;
      drawn := [];
    }

    /** `write_line(text)`: below 50 a new page starts at 800; then draw and move down 20. */
    method WriteLine(line: Line)
      requires Valid()
      modifies this
      ensures Valid()
      ensures drawn == old(drawn) + [Placed(|old(drawn)|, line)]
    {
      NextPlace(|drawn|, line);
      if y < 50 {
        page := page + 1;
        y := 800;
      }
      drawn := drawn + [Placement(page, 100, y, line)];
      y := y - 20;
    }
  }

  lemma LayoutSnoc(lines: seq<Line>, line: Line)
    ensures Layout(lines + [line]) == Layout(lines) + [Placed(|lines|, line)]
  {
  }

  /** The loops of lines 60-70: a heading, then one line per entry of the map. */
  method WriteSection(report: PdfReport, heading: string, d: Dict<Value>, ghost written: seq<Line>)
    requires report.Valid() && report.drawn == Layout(written)
    modifies report
    ensures report.Valid() && report.drawn == Layout(written + SectionLines(heading, d))
  {
    LayoutSnoc(written, Heading(heading));
    report.WriteLine(Heading(heading));
    for i := 0 to |d|
      invariant report.Valid()
      invariant report.drawn == Layout(written + [Heading(heading)] + Entries(d[..i]))
    {
      var (name, value) := d[i];
      assert d[..i + 1][..i] == d[..i];
      LayoutSnoc(written + [Heading(heading)] + Entries(d[..i]), Entry(name, value));
      report.WriteLine(Entry(name, value));
    }
    assert d[..|d|] == d;
  }

  /** `export_to_pdf(solution, path)` without the file: where each report line is drawn. */
  method ExportToPdf(sol: Solution) returns (placements: seq<Placement>)
    ensures placements == Layout(ReportLines(sol))
  {
    var report := new PdfReport();
    LayoutSnoc([], Title);
    report.WriteLine(Title);
    LayoutSnoc([Title], ObjectiveLine(ObjectiveOrNA(sol)));
    report.WriteLine(ObjectiveLine(ObjectiveOrNA(sol)));
    ghost var written := [Title, ObjectiveLine(ObjectiveOrNA(sol))];
    WriteSection(report, VariablesHeading, Section(sol.variables), written);
    written := written + SectionLines(VariablesHeading, Section(sol.variables));
    WriteSection(report, DualsHeading, Section(sol.duals), written);
    written := written + SectionLines(DualsHeading, Section(sol.duals));
    WriteSection(report, SlacksHeading, Section(sol.slacks), written);
    placements := report.drawn;
  }

  /** Every line is drawn at x = 100 and at a height from 60 to 800. */
  lemma LayoutHeights(lines: seq<Line>)
    ensures forall i :: 0 <= i < |lines| ==> Layout(lines)[i].x == 100 && 60 <= Layout(lines)[i].y <= 800
  {
  }

  /**
   * Pages fill in order: no page holds more than 38 lines, and the next line
   * either goes 20 lower on the same page or, below a line drawn at 60, to the
   * top of the next page.
   */
  lemma {:induction false} PagesFill(lines: seq<Line>)
    ensures forall i, j :: 0 <= i < j < |lines| && Layout(lines)[i].page == Layout(lines)[j].page ==> j - i < LinesPerPage
    ensures forall i :: 0 <= i < |lines| - 1 ==>
      if Layout(lines)[i].y == 60
      then Layout(lines)[i + 1].page == Layout(lines)[i].page + 1 && Layout(lines)[i + 1].y == 800
      else Layout(lines)[i + 1].page == Layout(lines)[i].page && Layout(lines)[i + 1].y == Layout(lines)[i].y - 20
  {
    var layout := Layout(lines);
    forall i, j | 0 <= i < j < |lines| && layout[i].page == layout[j].page ensures j - i < LinesPerPage {
      assert i == LinesPerPage * (i / LinesPerPage) + i % LinesPerPage;
      assert j == LinesPerPage * (j / LinesPerPage) + j % LinesPerPage;
    }
    forall i | 0 <= i < |lines| - 1
      ensures if layout[i].y == 60
              then layout[i + 1].page == layout[i].page + 1 && layout[i + 1].y == 800
              else layout[i + 1].page == layout[i].page && layout[i + 1].y == layout[i].y - 20
    {
      NextPlace(i + 1, lines[i + 1]);
    }
  }

  // ---------------------------------------------------------------------
  // Format selection (modules/export.py:77-90)
  // ---------------------------------------------------------------------

  datatype Format = Csv | Json | Pdf

  function Extension(f: Format): string {
    match f
    case Csv => "csv"
    case Json => "json"
    case Pdf => "pdf"
  }

  /** The name the exporter's messages use. */
  function Label(f: Format): string {
    match f
    case Csv => "CSV"
    case Json => "JSON"
    case Pdf => "PDF"
  }

  /** One export call: the format and the file it writes. */
  datatype Write = Write(format: Format, path: string)

  /** The exports `export_solution` calls, in order, for the format names in `formats`. */
  function Writes(base: string, formats: seq<string>): seq<Write> {
    (if "csv" in formats then [Write(Csv, base + ".csv")] else [])
    + (if "json" in formats then [Write(Json, base + ".json")] else [])
    + (if "pdf" in formats then [Write(Pdf, base + ".pdf")] else [])
  }

  /** Rank of a format in the order the exports are called. */
  function Rank(f: Format): nat {
    match f
    case Csv => 0
    case Json => 1
    case Pdf => 2
  }

  /** A format is exported iff its name is in `formats`. */
  lemma WritesSelected(base: string, formats: seq<string>, f: Format)
    ensures (exists k :: 0 <= k < |Writes(base, formats)| && Writes(base, formats)[k].format == f)
            <==> Extension(f) in formats
  {
    var w := Writes(base, formats);
    if Extension(f) in formats {
      var k := if f == Csv then 0
               else if f == Json then (if "csv" in formats then 1 else 0)
               else |w| - 1;
      assert w[k].format == f;
    }
  }

  /** Each export writes `base` plus its extension, at most once, in the order CSV, JSON, PDF. */
  lemma WritesOrdered(base: string, formats: seq<string>)
    ensures forall k :: 0 <= k < |Writes(base, formats)| ==>
              Writes(base, formats)[k].path == base + "." + Extension(Writes(base, formats)[k].format)
    ensures forall i, j :: 0 <= i < j < |Writes(base, formats)| ==>
              Rank(Writes(base, formats)[i].format) < Rank(Writes(base, formats)[j].format)
  {
  }

  /** Entries of `formats` other than "csv", "json" and "pdf" change nothing. */
  lemma OtherFormatsIgnored(base: string, formats: seq<string>, other: string)
    requires other != "csv" && other != "json" && other != "pdf"
    ensures Writes(base, formats + [other]) == Writes(base, formats)
    ensures Writes(base, [other] + formats) == Writes(base, formats)
  {
    assert forall x :: x in formats + [other] <==> x in formats || x == other;
    assert forall x :: x in [other] + formats <==> x in formats || x == other;
  }

  /** The message an exporter prints: success with the path, or the exception's text. */
  function Report(w: Write, failure: Option<string>): string {
    if failure.None? then "Solution exported to " + Label(w.format) + ": " + w.path
    else "Error exporting to " + Label(w.format) + ": " + failure.value
  }

  /**
   * What `export_solution` prints: the exceptions of writing are parameters
   * (`directoryFailure` for creating the directory, `failure` per format), and
   * every one of them ends as a printed line, never as an exception.
   */
  function ExportSolution(base: string, formats: seq<string>, directoryFailure: Option<string>,
                          failure: Format -> Option<string>): seq<string>
  {
    if directoryFailure.Some? then ["Error exporting solution: " + directoryFailure.value]
    else
      var w := Writes(base, formats);
      seq(|w|, k requires 0 <= k < |w| => Report(w[k], failure(w[k].format)))
  }

  /**
   * A failure to create the directory is the only line.  Without it, one line
   * per selected format in the order of the exports, stating success or the
   * failure of that export alone; a failure of one format does not stop the
   * later ones.
   */
  lemma ExportMessages(base: string, formats: seq<string>, failure: Format -> Option<string>, e: string)
    ensures ExportSolution(base, formats, Some(e), failure) == ["Error exporting solution: " + e]
    ensures |ExportSolution(base, formats, None, failure)| == |Writes(base, formats)|
    ensures forall k :: 0 <= k < |Writes(base, formats)| ==>
              var w := Writes(base, formats)[k];
              ExportSolution(base, formats, None, failure)[k]
              == if failure(w.format).None? then "Solution exported to " + Label(w.format) + ": " + w.path
                 else "Error exporting to " + Label(w.format) + ": " + failure(w.format).value
  {
  }
}
