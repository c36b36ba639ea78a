/**
 * `runDiagnostics` and `printDiagnostics`: the battery of four introspection
 * queries run after a slow execution, and the text block each result set is
 * rendered into.
 */
module Diagnostics {
  import opened Wrappers

  /** A column value as `ResultSet.getString` returns it; `None` is SQL NULL. */
  type Cell = Option<string>

  type Row = seq<Cell>

  /** What `StringBuilder.append` writes for a column value: a null reference becomes "null". */
  function CellText(c: Cell): string {
    match c
    case None => "null"
    case Some(s) => s
  }

  /** The columns of one row, each preceded by a tab. */
  function RowText(row: Row): string {
    if row == [] then "" else RowText(row[..|row| - 1]) + "\t" + CellText(row[|row| - 1])
  }

  /** One line per row, each ended by a newline; no rows give the empty text. */
  function Body(rows: seq<Row>): string {
    if rows == [] then "" else Body(rows[..|rows| - 1]) + RowText(rows[|rows| - 1]) + "\n"
  }

  /** The text `printDiagnostics` logs for a label and the rows of a result set. */
  function Render(message: string, rows: seq<Row>): (r: string)
    ensures |r| >= |message| + 4 && r[..|message| + 4] == message + " : \n"
    ensures rows == [] ==> r == message + " : \n"
    ensures rows != [] ==> r[|r| - 1] == '\n'
  {
    message + " : \n" + Body(rows)
  }

  /**
   * `printDiagnostics`: walks the rows, appending a tab and each column's value,
   * then a newline per row, and returns the line it logs.
   */
  method PrintDiagnostics(message: string, rows: seq<Row>) returns (line: string)
    ensures line == Render(message, rows)
  {
    var text := "";
    var r := 0;
    while r < |rows|
      invariant 0 <= r <= |rows|
      invariant text == Body(rows[..r])
    {
      var row := rows[r];
      var cells := "";
      for i := 1 to |row| + 1
        invariant cells == RowText(row[..i - 1])
      {
        RowTextSnoc(row, i);
        cells := cells + "\t" + CellText(row[i - 1]);
      }
      assert row[..|row|] == row;
      BodySnoc(rows, r);
      text := text + cells + "\n";
      r := r + 1;
    }
    assert rows[..r] == rows;
    line := message + " : \n" + text;
  }

  /** Appending one row to the result set appends its line to the body. */
  lemma BodySnoc(rows: seq<Row>, r: nat)
    requires r < |rows|
    ensures Body(rows[..r + 1]) == Body(rows[..r]) + RowText(rows[r]) + "\n"
  {
    assert rows[..r + 1][..r] == rows[..r];
  }

  /** Appending one column to a row appends a tab and its text. */
  lemma RowTextSnoc(row: Row, i: nat)
    requires 1 <= i <= |row|
    ensures RowText(row[..i]) == RowText(row[..i - 1]) + "\t" + CellText(row[i - 1])
  {
    assert row[..i][..i - 1] == row[..i - 1];
  }

  /** The position of the last `c` in `s`, or -1 when there is none. */
  function LastIndexOf(s: string, c: char): (k: int)
    ensures -1 <= k < |s|
    ensures k >= 0 ==> s[k] == c
    ensures forall i | k < i < |s| :: s[i] != c
  {
    if s == [] then -1
    else if s[|s| - 1] == c then |s| - 1
    else LastIndexOf(s[..|s| - 1], c)
  }

  /** Splits a rendered row back into its column texts. */
  function ParseCells(line: string): seq<string> {
    if line == [] then []
    else
      var k := LastIndexOf(line, '\t');
      if k < 0 then [line] else ParseCells(line[..k]) + [line[k + 1..]]
  }

  /** Splits a rendered body back into its rows of column texts. */
  function ParseRows(body: string): seq<seq<string>>
    decreases |body|
  {
    if body == [] then []
    else
      var inner := body[..|body| - 1];
      var k := LastIndexOf(inner, '\n');
      ParseRows(inner[..k + 1]) + [ParseCells(inner[k + 1..])]
  }

  /** Reads back the rows of a logged block that carries the given label. */
  function ParseReport(message: string, text: string): Option<seq<seq<string>>> {
    var header := message + " : \n";
    if |header| <= |text| && text[..|header|] == header then Some(ParseRows(text[|header|..])) else None
  }

  /** The column texts of the rows, as they appear in the log. */
  function RowTexts(row: Row): seq<string> {
    if row == [] then [] else RowTexts(row[..|row| - 1]) + [CellText(row[|row| - 1])]
  }

  function Texts(rows: seq<Row>): seq<seq<string>> {
    if rows == [] then [] else Texts(rows[..|rows| - 1]) + [RowTexts(rows[|rows| - 1])]
  }

  /** A column value that the rendering keeps apart from its neighbours: no tab, no newline. */
  predicate Plain(c: Cell) {
    '\t' !in CellText(c) && '\n' !in CellText(c)
  }

  predicate PlainRows(rows: seq<Row>) {
    forall r, i | 0 <= r < |rows| && 0 <= i < |rows[r]| :: Plain(rows[r][i])
  }

  lemma {:induction false} RowTextShape(row: Row)
    requires forall i | 0 <= i < |row| :: Plain(row[i])
    ensures '\n' !in RowText(row)
    ensures row != [] ==> RowText(row)[0] == '\t'
  {
    if row != [] {
      var init := row[..|row| - 1];
      RowTextShape(init);
      assert RowText(row) == RowText(init) + ("\t" + CellText(row[|row| - 1]));
      if init == [] {
        assert RowText(row) == "\t" + CellText(row[|row| - 1]);
      }
    }
  }

  lemma {:induction false} ParseCellsRoundTrip(row: Row)
    requires forall i | 0 <= i < |row| :: Plain(row[i])
    ensures ParseCells(RowText(row)) == RowTexts(row)
  {
    if row != [] {
      var init, last := row[..|row| - 1], CellText(row[|row| - 1]);
      var line := RowText(row);
      assert line == RowText(init) + "\t" + last;
      var k := LastIndexOf(line, '\t');
      assert line[|RowText(init)|] == '\t';
      assert k == |RowText(init)|;
      assert line[..k] == RowText(init);
      assert line[k + 1..] == last;
      ParseCellsRoundTrip(init);
      if init == [] {
        assert ParseCells(line) == ParseCells("") + [last];
      }
    }
  }

  lemma {:induction false} BodyShape(rows: seq<Row>)
    ensures rows != [] ==> Body(rows) != [] && Body(rows)[|Body(rows)| - 1] == '\n'
  {
  }

  /** Reading back a body that ends with one more line splits off that line. */
  lemma ParseRowsStep(prefix: string, line: string)
    requires prefix == [] || prefix[|prefix| - 1] == '\n'
    requires '\n' !in line
    ensures ParseRows(prefix + line + "\n") == ParseRows(prefix) + [ParseCells(line)]
  {
    var body := prefix + line + "\n";
    var inner := body[..|body| - 1];
    assert inner == prefix + line;
    var k := LastIndexOf(inner, '\n');
    assert forall i | |prefix| <= i < |inner| :: inner[i] == line[i - |prefix|];
    if prefix != [] {
      assert inner[|prefix| - 1] == '\n';
    }
    assert k == |prefix| - 1;
    assert inner[..k + 1] == prefix;
    assert inner[k + 1..] == line;
  }

  /** Reading back the body of a block gives the column texts row by row, provided no value holds a tab or a newline. */
  lemma {:induction false} ParseRowsRoundTrip(rows: seq<Row>)
    requires PlainRows(rows)
    ensures ParseRows(Body(rows)) == Texts(rows)
  {
    if rows != [] {
      var init, last := rows[..|rows| - 1], rows[|rows| - 1];
      assert PlainRows(init) by {
        forall r, i | 0 <= r < |init| && 0 <= i < |init[r]| ensures Plain(init[r][i]) {
          assert init[r] == rows[r];
        }
      }
      RowTextShape(last);
      BodyShape(init);
      ParseRowsStep(Body(init), RowText(last));
      ParseRowsRoundTrip(init);
      ParseCellsRoundTrip(last);
    }
  }

  /**
   * A logged block starts with its label, and reading it back gives the rows
   * it was rendered from, as text. Zero rows give exactly the label and " : \n".
   */
  lemma RenderRoundTrip(message: string, rows: seq<Row>)
    requires PlainRows(rows)
    ensures ParseReport(message, Render(message, rows)) == Some(Texts(rows))
    ensures rows == [] ==> Render(message, rows) == message + " : \n"
  {
    var header := message + " : \n";
    assert Render(message, rows)[..|header|] == header;
    assert Render(message, rows)[|header|..] == Body(rows);
    ParseRowsRoundTrip(rows);
  }

  /** How each diagnostic query ends: the rows it returned, or an `SQLException`. */
  datatype DiagAnswer = Answered(rows: seq<Row>) | QueryFailed

  /** The replies to the four diagnostic queries of one battery, in the order they are issued. */
  datatype Battery = Battery(innodbStatus: DiagAnswer, processList: DiagAnswer, openTables: DiagAnswer, slowLog: DiagAnswer)

  /** What one diagnostic query logs: the rendered block, or an error for that query. */
  datatype DiagEntry = Report(query: string, text: string) | QueryError(query: string)

  const Queries: seq<string> := [
    "SHOW ENGINE INNODB STATUS",
    "SHOW FULL PROCESSLIST",
    "SHOW OPEN TABLES WHERE In_use > 0",
    "SELECT * FROM mysql.slow_log"
  ]

  const Labels: seq<string> := [
    "Output for SHOW ENGINE INNODB STATUS. ",
    "Output for SHOW FULL PROCESSLIST. ",
    "Output for SHOW OPEN TABLES WHERE In_use > 0. ",
    "Output for SELECT * FROM mysql.slow_log. "
  ]

  function AnswerAt(battery: Battery, i: nat): DiagAnswer
    requires i < 4
  {
    if i == 0 then battery.innodbStatus
    else if i == 1 then battery.processList
    else if i == 2 then battery.openTables
    else battery.slowLog
  }

  /** What one guarded diagnostic query logs. */
  function Diagnose(i: nat, answer: DiagAnswer): DiagEntry
    requires i < 4
  {
    match answer
    case Answered(rows) => Report(Queries[i], Render(Labels[i], rows))
    case QueryFailed => QueryError(Queries[i])
  }

  /**
   * The log of one battery: the four queries in their fixed order, each
   * logging its own block or its own error whatever the others did.
   */
  function DiagnosticsOf(battery: Battery): (entries: seq<DiagEntry>)
    ensures |entries| == 4
    ensures forall i | 0 <= i < 4 :: entries[i].query == Queries[i]
    ensures forall i | 0 <= i < 4 :: entries[i].Report? <==> AnswerAt(battery, i).Answered?
    ensures forall i | 0 <= i < 4 && AnswerAt(battery, i).Answered? ::
      entries[i].text == Render(Labels[i], AnswerAt(battery, i).rows)
  {
    [Diagnose(0, battery.innodbStatus), Diagnose(1, battery.processList),
     Diagnose(2, battery.openTables), Diagnose(3, battery.slowLog)]
  }

  /** `runDiagnostics`: four independently guarded queries, each rendered by `printDiagnostics`. */
  method RunDiagnostics(battery: Battery) returns (entries: seq<DiagEntry>)
    ensures entries == DiagnosticsOf(battery)
  {
    var first := RunDiagnostic(0, battery.innodbStatus);
    var second := RunDiagnostic(1, battery.processList);
    var third := RunDiagnostic(2, battery.openTables);
    var fourth := RunDiagnostic(3, battery.slowLog);
    entries := [first, second, third, fourth];
  }

  /** One guarded block of `runDiagnostics`: an `SQLException` is caught and logged, anything else is rendered. */
  method RunDiagnostic(i: nat, answer: DiagAnswer) returns (entry: DiagEntry)
    requires i < 4
    ensures entry == Diagnose(i, answer)
  {
    match answer {
      case Answered(rows) =>
        var text := PrintDiagnostics(Labels[i], rows);
        entry := Report(Queries[i], text);
      case QueryFailed =>
        entry := QueryError(Queries[i]);
    }
  }
}
