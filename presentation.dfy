/**
  Running the generated statement and printing its result (`execute_sql`,
  main.py:52-65, and the printing block of `chat`, main.py:79-88). The SQLite
  engine is not modelled: what it did with a statement is an `EngineOutcome`,
  and cells arrive already rendered by `str()`.
*/
module Results {
  import opened Optional
  import opened Text

  /** What the engine did with one statement. `description` is the cursor's
      column description, which is absent (`None` in Python) for statements
      that produce no result columns. */
  datatype EngineOutcome =
    | Executed(description: Option<seq<string>>, rows: seq<seq<string>>)
    | Raised(message: string)

  /** What `execute_sql` hands back to `chat`: the column names, the rows, and
      the error line it printed, if any. */
  datatype Execution = Execution(columns: seq<string>, rows: seq<seq<string>>, error: Option<string>)

  const ExecutionErrorPrefix: string := "[ERROR] SQL execution failed: "

  /** The message Python gives when iterating over a missing description. */
  const NotIterableMessage: string := "'NoneType' object is not iterable"

  const Separator: string := " | "
  const RuleWidth: nat := 50
  const Rule: string := Repeat('-', RuleWidth)
  const NoResultsMessage: string := "[INFO] No results found or error in query execution."

  /** `execute_sql`: every failure inside the `try` block, including reading
      the column names of a statement that has none, is caught and turned
      into empty columns and rows plus one error line. */
  function ExecuteSql(outcome: EngineOutcome): (e: Execution)
    ensures e.error.None? <==> outcome.Executed? && outcome.description.Some?
    ensures e.error.None? ==> e.columns == outcome.description.value && e.rows == outcome.rows
    ensures e.error.Some? ==> e.columns == [] && e.rows == [] && ExecutionErrorPrefix <= e.error.value
  {
    match outcome
    case Raised(message) => Execution([], [], Some(ExecutionErrorPrefix + message))
    case Executed(None, _) => Execution([], [], Some(ExecutionErrorPrefix + NotIterableMessage))
    case Executed(Some(columns), rows) => Execution(columns, rows, None)
  }

  /** The lines `execute_sql` itself prints. */
  function ErrorLines(e: Execution): seq<string>
  {
    if e.error.Some? then [e.error.value] else []
  }

  /** `" | ".join(...)` of one row's rendered cells. */
  function RowLine(row: seq<string>): string
  {
    Join(row, Separator)
  }

  /** One line per row, in the rows' order. */
  function RowLines(rows: seq<seq<string>>): (lines: seq<string>)
    ensures |lines| == |rows|
    ensures forall i :: 0 <= i < |rows| ==> lines[i] == RowLine(rows[i])
  {
    if rows == [] then [] else RowLines(rows[..|rows| - 1]) + [RowLine(rows[|rows| - 1])]
  }

  /** What `chat` prints for a query result. */
  function Presentation(columns: seq<string>, rows: seq<seq<string>>): seq<string>
  {
    if rows == [] then [NoResultsMessage]
    else [Rule, Join(columns, Separator), Rule] + RowLines(rows) + [Rule]
  }

  /** A non-empty result is printed as exactly `|rows| + 4` lines: a rule of
      fifty dashes, the header, a rule, one line per row in order, and a
      closing rule. An empty result, failed or not, prints the one message. */
  lemma PresentationShape(columns: seq<string>, rows: seq<seq<string>>)
    ensures |Rule| == 50 && forall k :: 0 <= k < |Rule| ==> Rule[k] == '-'
    ensures rows == [] ==> Presentation(columns, rows) == [NoResultsMessage]
    ensures rows != [] ==>
      var lines := Presentation(columns, rows);
      && |lines| == |rows| + 4
      && lines[0] == Rule && lines[2] == Rule && lines[|rows| + 3] == Rule
      && lines[1] == Join(columns, Separator)
      && forall i :: 0 <= i < |rows| ==> lines[i + 3] == Join(rows[i], Separator)
  {
  }

  /** A failed execution is shown exactly like a query that matched nothing:
      the two cases cannot be told apart from the presentation. */
  lemma FailureLooksEmpty(outcome: EngineOutcome, columns: seq<string>)
    requires ExecuteSql(outcome).error.Some?
    ensures Presentation(ExecuteSql(outcome).columns, ExecuteSql(outcome).rows) == Presentation(columns, [])
    ensures Presentation(ExecuteSql(outcome).columns, ExecuteSql(outcome).rows) == [NoResultsMessage]
  {
  }

  /** The printing block of `chat`, a line at a time. */
  method ShowResults(columns: seq<string>, rows: seq<seq<string>>) returns (lines: seq<string>)
    ensures lines == Presentation(columns, rows)
  {
    if rows == [] {
      lines := [NoResultsMessage];
      return;
    }
    var head := [Rule, Join(columns, Separator), Rule];
    lines := head;
    for k := 0 to |rows|
      invariant lines == head + RowLines(rows[..k])
    {
      assert rows[..k + 1][..k] == rows[..k];
      lines := lines + [RowLine(rows[k])];
    }
    assert rows[..|rows|] == rows;
    lines := lines + [Rule];
  }
}
