/**
  The prompt `call_llm_to_get_sql` sends to the language model
  (main.py:21-35): a fixed instruction, the `students` table's seven columns
  with their types, and the user's question verbatim between double quotes.
*/
module Prompting {

  /** One entry of the schema listing: a column name and its declared type. */
  datatype Column = Column(name: string, sqlType: string)

  /** The columns of the `students` table, in the order the prompt lists them. */
  const StudentColumns: seq<Column> := [
    Column("Name", "TEXT"),
    Column("CGPA", "REAL"),
    Column("Location", "TEXT"),
    Column("Email", "TEXT"),
    Column("Phone_Number", "TEXT"),
    Column("Preferred_Work_Location", "TEXT"),
    Column("Specialization_in_degree", "TEXT")
  ]

  /** The f-string is indented four spaces inside the function body. */
  const Indent: string := "    "

  const Preamble: string :=
    "\n" +
    Indent + "You are an assistant that converts natural language questions into SQL queries.\n" +
    Indent + "The SQLite table is named 'students' with these columns:\n"

  const Instruction: string :=
    "\n" +
    Indent + "Convert the following user question into an SQL SELECT query only (no explanation):\n" +
    "\n" +
    Indent + "\""

  const Closing: string := "\"\n" + Indent

  function ColumnLine(c: Column): string
  {
    Indent + "- " + c.name + " (" + c.sqlType + ")\n"
  }

  /** The column lines, one after the other. */
  function Listing(cols: seq<Column>): string
  {
    if cols == [] then [] else ColumnLine(cols[0]) + Listing(cols[1..])
  }

  /** The shape of the f-string: fixed text, the column listing, more fixed
      text, the question, and the closing quote. */
  datatype Template = Template(preamble: string, columns: seq<Column>, instruction: string, closing: string)

  const StudentTemplate: Template := Template(Preamble, StudentColumns, Instruction, Closing)

  /** Everything in front of the question; it does not depend on the question. */
  function Lead(t: Template): string
  {
    t.preamble + Listing(t.columns) + t.instruction
  }

  function Fill(t: Template, question: string): string
  {
    Lead(t) + question + t.closing
  }

  /** The prompt for one question. */
  function Prompt(question: string): string
  {
    Fill(StudentTemplate, question)
  }

  /** `sub` appears in `s` starting at position `k`. */
  predicate OccursAt(s: string, sub: string, k: nat)
  {
    k + |sub| <= |s| && s[k..k + |sub|] == sub
  }

  /** Reads the question back out of a filled template. */
  function QuestionOf(t: Template, prompt: string): (q: string)
    requires |prompt| >= |Lead(t)| + |t.closing|
    ensures |q| == |prompt| - |Lead(t)| - |t.closing|
  {
    prompt[|Lead(t)|..|prompt| - |t.closing|]
  }

  /** The question appears unmodified right after the lead, and can be read
      back out: `QuestionOf` inverts `Fill`. */
  lemma FillHoldsQuestion(t: Template, question: string)
    ensures OccursAt(Fill(t, question), question, |Lead(t)|)
    ensures QuestionOf(t, Fill(t, question)) == question
  {
    var p := Fill(t, question);
    assert p[|Lead(t)|..|Lead(t)| + |question|] == question;
  }

  /** The text in front of the question ends with a double quote, and the
      text after it starts with one. */
  predicate Quoting(t: Template)
  {
    t.instruction != [] && t.instruction[|t.instruction| - 1] == '"' &&
    t.closing != [] && t.closing[0] == '"'
  }

  /** Where the opening quote sits in a filled template. */
  function QuoteOffset(t: Template): nat
    requires Quoting(t)
  {
    |Lead(t)| - 1
  }

  lemma StudentTemplateQuotes()
    ensures Quoting(StudentTemplate)
  {
    assert Instruction == "\n" + Indent + "Convert the following user question into an SQL SELECT query only (no explanation):\n" + "\n" + Indent + "\"";
  }

  /** In a template that quotes, the question appears between the two double
      quotes, unmodified. */
  lemma FillQuotesQuestion(t: Template, question: string)
    requires Quoting(t)
    ensures OccursAt(Fill(t, question), "\"" + question + "\"", QuoteOffset(t))
  {
    var lead := Lead(t);
    var p := Fill(t, question);
    assert lead[|lead| - 1] == '"';
    assert p[|lead| - 1..|lead| + |question| + 1] == "\"" + question + "\"";
  }

  /** In the prompt the question is enclosed in double quotes, unmodified, and
      `QuestionOf` reads it back. */
  lemma PromptQuotesQuestion(question: string)
    ensures Quoting(StudentTemplate)
    ensures OccursAt(Prompt(question), "\"" + question + "\"", QuoteOffset(StudentTemplate))
    ensures QuestionOf(StudentTemplate, Prompt(question)) == question
  {
    StudentTemplateQuotes();
    FillQuotesQuestion(StudentTemplate, question);
    FillHoldsQuestion(StudentTemplate, question);
  }

  /** Two different questions never give the same prompt. */
  lemma PromptInjective(q1: string, q2: string)
    requires Prompt(q1) == Prompt(q2)
    ensures q1 == q2
  {
    FillHoldsQuestion(StudentTemplate, q1);
    FillHoldsQuestion(StudentTemplate, q2);
  }

  /** Where the line of column `i` starts within a listing. */
  function ListingOffset(cols: seq<Column>, i: nat): nat
    requires i <= |cols|
  {
    |Listing(cols[..i])|
  }

  /** Text that occurs in `rest` occurs in `first + rest`, shifted by `|first|`. */
  lemma OccursAfter(first: string, rest: string, sub: string, k: nat)
    requires OccursAt(rest, sub, k)
    ensures OccursAt(first + rest, sub, |first| + k)
  {
    assert (first + rest)[|first| + k..|first| + k + |sub|] == rest[k..k + |sub|];
  }

  /** Text that occurs in `first` still occurs there in `first + rest`. */
  lemma OccursBefore(first: string, rest: string, sub: string, k: nat)
    requires OccursAt(first, sub, k)
    ensures OccursAt(first + rest, sub, k)
  {
    assert (first + rest)[k..k + |sub|] == first[k..k + |sub|];
  }

  lemma ListingOffsetStep(cols: seq<Column>, i: nat)
    requires 0 < i <= |cols|
    ensures ListingOffset(cols, i) == |ColumnLine(cols[0])| + ListingOffset(cols[1..], i - 1)
  {
    assert cols[..i][0] == cols[0];
    assert cols[..i][1..] == cols[1..][..i - 1];
  }

  /** Every column's line appears in the listing, at increasing offsets in
      the declared order. */
  lemma {:induction false} ListingHoldsColumn(cols: seq<Column>, i: nat)
    requires i < |cols|
    ensures OccursAt(Listing(cols), ColumnLine(cols[i]), ListingOffset(cols, i))
    ensures ListingOffset(cols, i) < ListingOffset(cols, i + 1)
  {
    var first := ColumnLine(cols[0]);
    var rest := Listing(cols[1..]);
    assert Listing(cols) == first + rest;
    ListingOffsetStep(cols, i + 1);
    if i == 0 {
      assert cols[..0] == [];
      assert (first + rest)[..|first|] == first;
    } else {
      ListingHoldsColumn(cols[1..], i - 1);
      ListingOffsetStep(cols, i);
      OccursAfter(first, rest, ColumnLine(cols[i]), ListingOffset(cols[1..], i - 1));
    }
  }

  /** Offsets grow with the column index. */
  lemma {:induction false} ListingOffsetMonotone(cols: seq<Column>, i: nat, j: nat)
    requires i < j <= |cols|
    ensures ListingOffset(cols, i) < ListingOffset(cols, j)
    decreases j - i
  {
    ListingHoldsColumn(cols, i);
    if i + 1 < j {
      ListingOffsetMonotone(cols, i + 1, j);
    }
  }

  /** Position of the line of column `i` within a filled template. */
  function ColumnOffset(t: Template, i: nat): nat
    requires i <= |t.columns|
  {
    |t.preamble| + ListingOffset(t.columns, i)
  }

  /** Every column line of the template appears in each filled prompt, in
      front of the question, and lines of later columns come later. */
  lemma FillListsColumns(t: Template, question: string, i: nat, j: nat)
    requires i < j <= |t.columns|
    ensures OccursAt(Fill(t, question), ColumnLine(t.columns[i]), ColumnOffset(t, i))
    ensures ColumnOffset(t, i) + |ColumnLine(t.columns[i])| <= |Lead(t)|
    ensures ColumnOffset(t, i) < ColumnOffset(t, j)
  {
    ListingHoldsColumn(t.columns, i);
    ListingOffsetMonotone(t.columns, i, j);
    var listing := Listing(t.columns);
    var rest := t.instruction + question + t.closing;
    OccursBefore(listing, rest, ColumnLine(t.columns[i]), ListingOffset(t.columns, i));
    OccursAfter(t.preamble, listing + rest, ColumnLine(t.columns[i]), ListingOffset(t.columns, i));
    assert Fill(t, question) == t.preamble + (listing + rest);
  }

  /** Every prompt lists each of the seven columns with its type, in the
      declared order, all of it in front of the question. */
  lemma PromptListsColumns(question: string, i: nat, j: nat)
    requires i < j <= |StudentColumns|
    ensures OccursAt(Prompt(question), ColumnLine(StudentColumns[i]), ColumnOffset(StudentTemplate, i))
    ensures ColumnOffset(StudentTemplate, i) + |ColumnLine(StudentColumns[i])| <= |Lead(StudentTemplate)|
    ensures ColumnOffset(StudentTemplate, i) < ColumnOffset(StudentTemplate, j)
  {
    FillListsColumns(StudentTemplate, question, i, j);
  }
}
