# Student query chat: a Dafny model of its translation pipeline

The program is a console chat over a SQLite table of student records
(`main.py`). Each question typed by the user goes into a fixed prompt for a
language model. The model's reply is cut down to a single SQL statement. The
statement runs against the database, and the result is printed as a table.
The session ends at the first line that reads "exit" or "quit".

This project models the text-processing core of that pipeline and proves
properties of it:

- `Text`: Python's `strip()`, `lower()`, `split(c)[0]`, `sep.join(...)` and
  `c * n`, restricted to ASCII.
- `Extraction`: `Extract`, the SQL clean-up of `call_llm_to_get_sql`, and
  `Translate`, its status branch.
- `Prompting`: the prompt f-string, as a template with a preamble, the
  seven-column schema listing, an instruction and a closing quote.
- `Results`: what `execute_sql` hands back for each thing the engine can do,
  and the printing block of `chat` (rules, header, one line per row, or the
  info message). `ShowResults` is the printing loop as a method.
- `Session`: the exit test, one turn of the pipeline, the trace of turns, and
  `Chat`, the `while True` loop as a two-state machine (awaiting input /
  terminated) over a sequence of input lines.

The language model and the database are oracles passed in as function
parameters:

- The model maps (turn index, prompt) to a response: a status code, the body
  text, and the "response" field if there is one. The turn index lets the
  same prompt get different answers at different times.
- The database maps (store, statement) to the next store and what the engine
  did: it produced rows and a column description (or no description), or it
  raised.

Printed output is a sequence of lines, one per `print` call. `Chat` takes the
banner, the farewell and the prompt builder as parameters. `StudentChat`
instantiates it with the program's own banner, "Goodbye!" and the students
prompt.

Two behaviours of the code matter for reading the model:

- The code has no SELECT-only check, so any statement the model produces
  reaches the database oracle.
- Several failures are uncaught and crash the program: an exception from
  `requests`, a body that is not JSON, a "response" field that is not a
  string, and end of input. These crashes are not modelled (see Left out).

## Model

| member | source | states |
|---|---|---|
| Text.Strip | main.py:44 | `strip()`: definition; characterised by `StripSpec`, `StripOfPadded` and `StripIdempotent` |
| Text.TrimStartSpec | main.py:44 | `lstrip` removes exactly the leading run of whitespace; the result is empty or starts with a non-space |
| Text.TrimEndSpec | main.py:44 | `rstrip` removes exactly the trailing run of whitespace; the result is empty or ends with a non-space |
| Text.StripSpec | main.py:44 | `strip()` returns a contiguous middle slice of its input, with only whitespace cut off on each side, and the slice neither starts nor ends with whitespace |
| Text.StripOfPadded | main.py:44 | for any trimmed string surrounded by any whitespace, `strip()` gives back exactly that string |
| Text.StripIdempotent | main.py:44 | stripping twice is stripping once |
| Text.ToLower | main.py:72 | `lower()` keeps the length and lower-cases each character on its own |
| Text.LowerChar | main.py:72 | ASCII capitals map to the matching small letter; every other character is unchanged |
| Text.IndexOf | main.py:46 | the position of the first occurrence of the character, or the length when it is absent |
| Text.BeforeFirst | main.py:46 | `split(c)[0]` is a prefix without `c`, followed in the input by `c` unless it is the whole input |
| Text.Repeat | main.py:81 | `c * n` has length `n` and consists only of `c` |
| Text.JoinLength | main.py:82 | a join has the total length of the parts plus one separator between each neighbouring pair, and starts with the first part |
| Text.Join | main.py:82-85 | `sep.join(parts)`: definition; characterised by `JoinLength` and `JoinSnoc` |
| Text.JoinSnoc | main.py:82-85 | joining one more part appends the separator and then that part, so the parts appear in order with one separator between neighbours |
| Extraction.Extract | main.py:44-46 | the extracted statement ends with `;` and holds exactly one `;`, so it is never empty; before the `;` it is a prefix of the stripped reply that stops at the reply's first `;`; a stripped reply without `;` is kept whole, with `;` appended |
| Extraction.ExtractOfStatement | main.py:44-46 | a `;`-free body with no leading whitespace, followed by one `;`, is extracted unchanged |
| Extraction.ExtractIdempotent | main.py:44-46 | extracting an extracted statement changes nothing |
| Extraction.Translate | main.py:42-50 | a statement is returned exactly when the status is 200, and it is the extraction of the "response" field (empty when missing) |
| Extraction.TranslateTruthy | main.py:76-77 | a returned statement is always truthy, so the `if sql:` test fails exactly when the status is not 200 |
| Prompting.Listing | main.py:24-30 | the schema listing, one `- Name (TYPE)` line per column: definition; characterised by `ListingHoldsColumn` and `ListingOffsetMonotone` |
| Prompting.Fill | main.py:21-35 | a template filled with a question: definition; characterised by `FillHoldsQuestion`, `FillQuotesQuestion` and `FillListsColumns` |
| Prompting.Prompt | main.py:21-35 | the students prompt: definition; characterised by `PromptQuotesQuestion`, `PromptInjective` and `PromptListsColumns` |
| Prompting.QuestionOf | main.py:34 | reading the question back takes everything between the lead and the closing text |
| Prompting.FillHoldsQuestion | main.py:21-35 | the question appears unmodified right after the fixed lead, and `QuestionOf` recovers it from the prompt |
| Prompting.StudentTemplateQuotes | main.py:34 | the text before the question ends with `"` and the text after it starts with `"` |
| Prompting.FillQuotesQuestion | main.py:34 | in a template that quotes, the prompt holds `"` + question + `"` just before the closing text |
| Prompting.PromptQuotesQuestion | main.py:21-35 | the students prompt holds the question verbatim between double quotes, and the question can be read back out of the prompt |
| Prompting.PromptInjective | main.py:21-35 | different questions give different prompts |
| Prompting.ListingOffsetStep | main.py:24-30 | the offset of a column line is the first line's length plus its offset in the rest of the listing |
| Prompting.ListingHoldsColumn | main.py:24-30 | each column's line `- Name (TYPE)` appears in the listing at its offset, and the next column's offset is larger |
| Prompting.ListingOffsetMonotone | main.py:24-30 | column lines appear in the declared order |
| Prompting.FillListsColumns | main.py:21-35 | every column line of a template appears in the filled prompt, entirely before the question, in declared order |
| Prompting.PromptListsColumns | main.py:23-30 | the students prompt lists each of the seven columns with its type, in declared order, before the question |
| Results.ExecuteSql | main.py:52-65 | no error exactly when the engine produced a result with a column description, and then the columns and rows pass through unchanged; otherwise empty columns, empty rows and an error line beginning "[ERROR] SQL execution failed: " |
| Results.RowLines | main.py:84-85 | one line per row, in row order, each being the row's cells joined by the `Separator` string (space, bar, space) |
| Results.Presentation | main.py:80-88 | the printed result block: definition; characterised by `PresentationShape` and `FailureLooksEmpty`, and computed by `ShowResults` |
| Results.PresentationShape | main.py:80-88 | a non-empty result is the number of rows plus 4 lines: a 50-dash rule, the header, a rule, the rows in order, and a rule; an empty result is the single info message |
| Results.FailureLooksEmpty | main.py:62-65 | a failed execution prints the same as a query that matched nothing |
| Results.ShowResults | main.py:80-88 | the printing loop emits exactly the presentation of the result |
| Session.IsExit | main.py:72 | the exit test: definition; characterised by `IsExitCharacterization` |
| Session.LowerSpells | main.py:72 | a word whose `lower()` is a keyword spells that keyword in some mix of cases |
| Session.SpellsLower | main.py:72 | a word spelling a keyword in some mix of cases lower-cases to that keyword |
| Session.KeywordIsTrimmed | main.py:72 | a keyword in any case neither starts nor ends with whitespace |
| Session.IsExitCharacterization | main.py:72 | a line ends the session if and only if it is "exit" or "quit" in any case surrounded by any whitespace; the empty line does not |
| Session.ExitIsPadded | main.py:72 | an exit line is a keyword with whitespace around it |
| Session.PaddedIsExit | main.py:72 | a keyword with whitespace around it is an exit line |
| Session.FirstExit | main.py:70-74 | the index of the first exit line (or the input length): no earlier line is an exit line, and the line at that index is one |
| Session.FirstExitIgnoresLater | main.py:70-74 | lines after the first exit line do not change where the session stops |
| Session.Turn | main.py:76-90 | one turn over a prompt: definition; characterised by `TurnOutcome` and `TurnPrints`, and performed by `RunPipeline` |
| Session.TurnOutcome | main.py:76-90 | a turn prints the model error and "Could not generate SQL" exactly when the status is not 200, and then leaves the store alone; otherwise it first prints the generated statement, which ends with `;`, and the store becomes the one that statement produces |
| Session.TurnPrints | main.py:76-90 | every turn prints at least two lines |
| Session.Prompts | main.py:76 | the `k`-th prompt sent is the prompt for the `k`-th question |
| Session.PromptsStep | main.py:76 | one more question appends its prompt |
| Session.Trace | main.py:70-90 | the store and the lines after a run of turns: definition; characterised by `TraceSnoc` and `TraceExtends`, and reached by `Chat` |
| Session.TraceSnoc | main.py:70-90 | one more prompt appends its turn's lines and moves to its turn's store |
| Session.TraceStep | main.py:70-90 | after a turn, the store and the lines printed so far are those of the trace one prompt longer |
| Session.TraceExtends | main.py:70-90 | output only grows: an earlier trace's lines are a prefix of a later one's, and each extra prompt adds at least two lines |
| Session.RunPipeline | main.py:76-90 | one pass builds the prompt from the question and prints, and changes the store, exactly as the turn for that prompt says |
| Session.ReachedStart | main.py:67-70 | before any input, nothing has been sent or printed after the banner and the store is the initial one |
| Session.ReachedExit | main.py:72-74 | an exit line moves the machine to Terminated with the farewell appended, and sends nothing |
| Session.ReachedTurn | main.py:72-90 | any other line runs the pipeline once, as the next turn of the trace |
| Session.Chat | main.py:67-90 | the loop runs the pipeline once for every line before the first exit line and for no other; it terminates exactly when an exit line exists; it sends the prompts of those lines in order; it leaves the store and prints the banner, the turns' lines and, if terminated, the farewell, exactly as the trace of those prompts says |
| Session.StudentChat | main.py:67-90 | the same, for the program's banner, "Goodbye!" and the students prompt |

## Left out

- `load_excel_to_db` (main.py:11-18) reads a spreadsheet and writes the SQLite file. This is start-up I/O; the initial store is a parameter.
- The HTTP call and JSON decoding (main.py:36-43) are not modelled. A reply is its status, its body text and its optional "response" field. Some inputs make the code crash: a network exception from `requests`, a 200 body that is not JSON, or a "response" value that is not a string. The model does not cover these crashes.
- SQLite itself (main.py:53-57) is an oracle. What it does with a statement is given, not computed, and so are the strings `str()` makes of cells and exceptions (main.py:64, 85).
- Text.IsSpace and Text.ToLower cover ASCII only. Python also strips Unicode whitespace such as U+00A0 and U+2003, so a line like "exit" followed by a no-break space ends the real session but not the model.
- Session.Chat takes its input as a finite sequence. When it runs out of lines it stops in AwaitingInput, where Python's `input()` would raise `EOFError`. The "You: " prompt that `input()` writes is not an output line.
- Session.Turn takes the turn index as the model's only source of nondeterminism. Timeouts, retries and concurrency do not exist in the code and are not modelled.
- A SELECT-only check before execution is not modelled, because the code has none.
