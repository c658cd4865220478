/**
  The interactive loop `chat` (main.py:67-90) as a two-state machine over a
  sequence of input lines. The language model and the database are oracles
  passed in as functions: the model answers the `k`-th prompt of the session,
  and the database maps a store and a statement to the next store and what
  the engine did. Printed text is returned as a sequence of lines, one per
  `print` call.
*/
module Session {
  import opened Optional
  import opened Text
  import opened Extraction
  import opened Prompting
  import opened Results

  datatype Phase = AwaitingInput | Terminated

  /** The store after a number of turns, and everything printed by them. */
  datatype Step<S> = Step(store: S, lines: seq<string>)

  const Banner: seq<string> := [
    "\n\U{1F4DA} Student Query Chat Interface",
    "Type your query in natural language (or type 'exit' to quit):\n"
  ]
  const Goodbye: string := "Goodbye!"
  const TranslationErrorPrefix: string := "[ERROR] Failed to get response from LLM: "
  const CouldNotGenerate: string := "[INFO] Could not generate SQL from your input."

  function GeneratedSqlLine(sql: string): string
  {
    "\n[Generated SQL]: " + sql + "\n"
  }

  /** The exit test of `chat`: the line, trimmed and lower-cased, is one of
      the two keywords. */
  predicate IsExit(line: string)
  {
    var w := ToLower(Strip(line));
    w == "exit" || w == "quit"
  }

  /** `w` is `keyword` with any of its letters in upper case. */
  predicate SpellsIgnoringCase(w: string, keyword: string)
  {
    |w| == |keyword| && forall i :: 0 <= i < |w| ==> LowerChar(w[i]) == keyword[i]
  }

  predicate IsKeyword(w: string)
  {
    SpellsIgnoringCase(w, "exit") || SpellsIgnoringCase(w, "quit")
  }

  /** Whitespace, then "exit" or "quit" in any mix of cases, then whitespace. */
  ghost predicate PaddedKeyword(line: string)
  {
    exists i, j :: 0 <= i <= j <= |line| && AllSpace(line[..i]) && AllSpace(line[j..]) && IsKeyword(line[i..j])
  }

  lemma KeywordIsTrimmed(w: string)
    requires IsKeyword(w)
    ensures Trimmed(w)
  {
    assert LowerChar(w[0]) in "eq" && LowerChar(w[|w| - 1]) == 't';
  }

  lemma LowerSpells(w: string, keyword: string)
    requires ToLower(w) == keyword
    ensures SpellsIgnoringCase(w, keyword)
  {
  }

  lemma SpellsLower(w: string, keyword: string)
    requires SpellsIgnoringCase(w, keyword)
    ensures ToLower(w) == keyword
  {
  }

  /** A line ends the session exactly when it is an exit keyword, in any case,
      with any whitespace around it. The empty line is not one. */
  lemma IsExitCharacterization(line: string)
    ensures IsExit(line) <==> PaddedKeyword(line)
    ensures !IsExit([])
  {
    if IsExit(line) {
      ExitIsPadded(line);
    }
    if PaddedKeyword(line) {
      var i, j :| 0 <= i <= j <= |line| && AllSpace(line[..i]) && AllSpace(line[j..]) && IsKeyword(line[i..j]);
      PaddedIsExit(line, i, j);
    }
    assert Strip([]) == [];
  }

  /** An exit line is its stripped keyword with the stripped whitespace
      around it. */
  lemma ExitIsPadded(line: string)
    requires IsExit(line)
    ensures PaddedKeyword(line)
  {
    var k, w := StripStart(line), Strip(line);
    StripSpec(line);
    assert IsKeyword(w) by {
      LowerSpells(w, ToLower(w));
    }
    assert line[k..k + |w|] == w;
  }

  /** Stripping a padded keyword leaves the keyword, which lower-cases to
      "exit" or "quit". */
  lemma PaddedIsExit(line: string, i: nat, j: nat)
    requires i <= j <= |line| && AllSpace(line[..i]) && AllSpace(line[j..]) && IsKeyword(line[i..j])
    ensures IsExit(line)
  {
    var v := line[i..j];
    assert Strip(line) == v by {
      KeywordIsTrimmed(v);
      assert line == line[..i] + v + line[j..];
      StripOfPadded(line[..i], v, line[j..]);
    }
    if SpellsIgnoringCase(v, "exit") {
      SpellsLower(v, "exit");
    } else {
      SpellsLower(v, "quit");
    }
  }

  /** Index of the first exit line, or the number of lines when there is none. */
  function FirstExit(inputs: seq<string>): (n: nat)
    ensures n <= |inputs|
    ensures forall k :: 0 <= k < n ==> !IsExit(inputs[k])
    ensures n < |inputs| ==> IsExit(inputs[n])
  {
    if inputs == [] || IsExit(inputs[0]) then 0 else 1 + FirstExit(inputs[1..])
  }

  /** Lines after the first exit keyword have no influence on the session. */
  lemma {:induction false} FirstExitIgnoresLater(inputs: seq<string>, later: seq<string>)
    requires FirstExit(inputs) < |inputs|
    ensures FirstExit(inputs + later) == FirstExit(inputs)
  {
    if !IsExit(inputs[0]) {
      assert (inputs + later)[1..] == inputs[1..] + later;
      FirstExitIgnoresLater(inputs[1..], later);
    }
  }

  /** One pass of the pipeline for the `k`-th prompt of the session. */
  function Turn<S>(k: nat, prompt: string, llm: (nat, string) -> Response,
                   db: (S, string) -> (S, EngineOutcome), store: S): Step<S>
  {
    var response := llm(k, prompt);
    match Translate(response)
    case None => Step(store, [TranslationErrorPrefix + response.text, CouldNotGenerate])
    case Some(sql) =>
      var (after, outcome) := db(store, sql);
      var e := ExecuteSql(outcome);
      Step(after, [GeneratedSqlLine(sql)] + ErrorLines(e) + Presentation(e.columns, e.rows))
  }

  /** A turn reports that no SQL could be generated exactly when the model
      answered with a status other than 200; otherwise it shows a statement
      that ends with the terminator and runs that statement, and nothing else,
      against the store. */
  lemma TurnOutcome<S>(k: nat, prompt: string, llm: (nat, string) -> Response,
                       db: (S, string) -> (S, EngineOutcome), store: S)
    ensures var response := llm(k, prompt);
      var turn := Turn(k, prompt, llm, db, store);
      && (turn.lines == [TranslationErrorPrefix + response.text, CouldNotGenerate] <==> response.status != 200)
      && (response.status != 200 ==> turn.store == store)
      && (response.status == 200 ==>
            var sql := Extract(Field(response));
            && turn.lines[0] == GeneratedSqlLine(sql)
            && sql[|sql| - 1] == Terminator
            && turn.store == db(store, sql).0)
  {
    var response := llm(k, prompt);
    if response.status == 200 {
      var lines := Turn(k, prompt, llm, db, store).lines;
      var sql := Extract(Field(response));
      assert lines[0] == GeneratedSqlLine(sql);
      assert lines[0][0] == '\n';
      assert TranslationErrorPrefix[0] == '[';
      assert (TranslationErrorPrefix + response.text)[0] == TranslationErrorPrefix[0];
    }
  }

  /** Every turn prints at least two lines. */
  lemma TurnPrints<S>(k: nat, prompt: string, llm: (nat, string) -> Response,
                      db: (S, string) -> (S, EngineOutcome), store: S)
    ensures |Turn(k, prompt, llm, db, store).lines| >= 2
  {
  }

  /** The prompts `build` makes for a sequence of questions, in order. */
  function Prompts(build: string -> string, questions: seq<string>): (prompts: seq<string>)
    ensures |prompts| == |questions|
    ensures forall k :: 0 <= k < |questions| ==> prompts[k] == build(questions[k])
  {
    if questions == [] then [] else Prompts(build, questions[..|questions| - 1]) + [build(questions[|questions| - 1])]
  }

  /** The turns for a sequence of prompts, the `k`-th answered by the `k`-th
      call to the model, each one starting from the store the previous one
      left. */
  function Trace<S>(prompts: seq<string>, llm: (nat, string) -> Response,
                    db: (S, string) -> (S, EngineOutcome), initial: S): Step<S>
    decreases |prompts|
  {
    if prompts == [] then Step(initial, [])
    else
      var before := Trace(prompts[..|prompts| - 1], llm, db, initial);
      var turn := Turn(|prompts| - 1, prompts[|prompts| - 1], llm, db, before.store);
      Step(turn.store, before.lines + turn.lines)
  }

  /** Sending one more prompt appends that prompt's turn. */
  lemma TraceSnoc<S>(prompts: seq<string>, prompt: string, llm: (nat, string) -> Response,
                     db: (S, string) -> (S, EngineOutcome), initial: S)
    ensures var before := Trace(prompts, llm, db, initial);
      var turn := Turn(|prompts|, prompt, llm, db, before.store);
      Trace(prompts + [prompt], llm, db, initial) == Step(turn.store, before.lines + turn.lines)
  {
    assert (prompts + [prompt])[..|prompts|] == prompts;
  }

  /** Later turns only add output: what earlier prompts printed stays at the
      front, and each prompt adds at least two lines. */
  lemma {:induction false} TraceExtends<S>(prompts: seq<string>, m: nat, llm: (nat, string) -> Response,
                                          db: (S, string) -> (S, EngineOutcome), initial: S)
    requires m <= |prompts|
    ensures Trace(prompts[..m], llm, db, initial).lines <= Trace(prompts, llm, db, initial).lines
    ensures |Trace(prompts, llm, db, initial).lines| >= |Trace(prompts[..m], llm, db, initial).lines| + 2 * (|prompts| - m)
    decreases |prompts|
  {
    if m < |prompts| {
      var n := |prompts| - 1;
      var front := prompts[..n];
      assert front[..m] == prompts[..m];
      TraceExtends(front, m, llm, db, initial);
      assert front + [prompts[n]] == prompts;
      TraceSnoc(front, prompts[n], llm, db, initial);
      TurnPrints(n, prompts[n], llm, db, Trace(front, llm, db, initial).store);
    } else {
      assert prompts[..m] == prompts;
    }
  }

  /** Concatenation is associative. */
  lemma AppendAssociates<T>(a: seq<T>, b: seq<T>, c: seq<T>)
    ensures a + b + c == a + (b + c)
  {
  }

  /** One pass of the pipeline (main.py:76-90): build the prompt, ask the
      model, and either run and show the statement or report that none could
      be generated. */
  method RunPipeline<S>(k: nat, question: string, build: string -> string, llm: (nat, string) -> Response,
                        db: (S, string) -> (S, EngineOutcome), store: S)
    returns (printed: seq<string>, prompt: string, after: S)
    ensures prompt == build(question)
    ensures Turn(k, prompt, llm, db, store) == Step(after, printed)
  {
    prompt := build(question);
    var response := llm(k, prompt);
    var sql := Translate(response);
    if sql.Some? {
      var outcome;
      after, outcome := db(store, sql.value).0, db(store, sql.value).1;
      var e := ExecuteSql(outcome);
      var shown := ShowResults(e.columns, e.rows);
      printed := [GeneratedSqlLine(sql.value)] + ErrorLines(e) + shown;
    } else {
      after := store;
      printed := [TranslationErrorPrefix + response.text, CouldNotGenerate];
    }
  }

  /** The state of the `chat` loop after it has read `runs` lines: either
      awaiting input with no exit keyword among them, or terminated by an exit
      keyword at index `runs`. It has sent the prompts in `asked`, left the
      store the statements produced, and printed `shown` after the banner. */
  ghost predicate Reached<S>(inputs: seq<string>, goodbye: string, build: string -> string,
                             llm: (nat, string) -> Response, db: (S, string) -> (S, EngineOutcome), initial: S,
                             phase: Phase, runs: nat, asked: seq<string>, store: S, shown: seq<string>)
  {
    && runs <= FirstExit(inputs)
    && (phase == Terminated ==> runs == FirstExit(inputs) < |inputs|)
    && asked == Prompts(build, inputs[..runs])
    && store == Trace(asked, llm, db, initial).store
    && shown == Trace(asked, llm, db, initial).lines + (if phase == Terminated then [goodbye] else [])
  }

  lemma ReachedStart<S>(inputs: seq<string>, goodbye: string, build: string -> string,
                        llm: (nat, string) -> Response, db: (S, string) -> (S, EngineOutcome), initial: S)
    ensures Reached(inputs, goodbye, build, llm, db, initial, AwaitingInput, 0, [], initial, [])
  {
    assert inputs[..0] == [];
  }

  /** An exit keyword ends the session with the farewell. */
  lemma ReachedExit<S>(inputs: seq<string>, goodbye: string, build: string -> string,
                       llm: (nat, string) -> Response, db: (S, string) -> (S, EngineOutcome), initial: S,
                       runs: nat, asked: seq<string>, store: S, shown: seq<string>)
    requires Reached(inputs, goodbye, build, llm, db, initial, AwaitingInput, runs, asked, store, shown)
    requires runs < |inputs| && IsExit(inputs[runs])
    ensures Reached(inputs, goodbye, build, llm, db, initial, Terminated, runs, asked, store, shown + [goodbye])
  {
  }

  /** Any other line is the next turn. */
  lemma ReachedTurn<S>(inputs: seq<string>, goodbye: string, build: string -> string,
                       llm: (nat, string) -> Response, db: (S, string) -> (S, EngineOutcome), initial: S,
                       runs: nat, asked: seq<string>, store: S, shown: seq<string>,
                       prompt: string, after: S, printed: seq<string>)
    requires Reached(inputs, goodbye, build, llm, db, initial, AwaitingInput, runs, asked, store, shown)
    requires runs < |inputs| && !IsExit(inputs[runs])
    requires prompt == build(inputs[runs])
    requires Turn(runs, prompt, llm, db, store) == Step(after, printed)
    ensures Reached(inputs, goodbye, build, llm, db, initial, AwaitingInput, runs + 1, asked + [prompt], after, shown + printed)
  {
    PromptsStep(build, inputs, runs);
    TraceStep(asked, prompt, llm, db, initial, store, shown, after, printed);
  }

  /** One more question adds its prompt at the end. */
  lemma PromptsStep(build: string -> string, inputs: seq<string>, runs: nat)
    requires runs < |inputs|
    ensures Prompts(build, inputs[..runs + 1]) == Prompts(build, inputs[..runs]) + [build(inputs[runs])]
  {
    assert inputs[..runs + 1][..runs] == inputs[..runs];
  }

  /** The state and output after a turn are those of the trace one prompt
      longer. */
  lemma TraceStep<S>(asked: seq<string>, prompt: string, llm: (nat, string) -> Response,
                     db: (S, string) -> (S, EngineOutcome), initial: S,
                     store: S, shown: seq<string>, after: S, printed: seq<string>)
    requires store == Trace(asked, llm, db, initial).store && shown == Trace(asked, llm, db, initial).lines
    requires Turn(|asked|, prompt, llm, db, store) == Step(after, printed)
    ensures after == Trace(asked + [prompt], llm, db, initial).store
    ensures shown + printed == Trace(asked + [prompt], llm, db, initial).lines
  {
    TraceSnoc(asked, prompt, llm, db, initial);
  }

  /** The `chat` loop for any banner, farewell and way `build` of turning a
      question into a prompt: the banner, then a turn per line up to the first
      exit keyword, then the farewell if there was one. `asked` lists the
      prompts sent to the model, `runs` counts the pipeline runs. Running out
      of input leaves the machine awaiting input. */
  method Chat<S>(inputs: seq<string>, banner: seq<string>, goodbye: string, build: string -> string,
                 llm: (nat, string) -> Response, db: (S, string) -> (S, EngineOutcome), initial: S)
    returns (out: seq<string>, phase: Phase, runs: nat, asked: seq<string>, store: S)
    ensures runs == FirstExit(inputs)
    ensures phase == Terminated <==> runs < |inputs|
    ensures asked == Prompts(build, inputs[..runs])
    ensures store == Trace(asked, llm, db, initial).store
    ensures out == banner + Trace(asked, llm, db, initial).lines
                   + (if phase == Terminated then [goodbye] else [])
  {
    var shown: seq<string> := [];
    phase, runs, asked, store := AwaitingInput, 0, [], initial;
    ReachedStart(inputs, goodbye, build, llm, db, initial);
    while phase == AwaitingInput && runs < |inputs|
      invariant runs <= |inputs|
      invariant Reached(inputs, goodbye, build, llm, db, initial, phase, runs, asked, store, shown)
      decreases |inputs| - runs, phase == AwaitingInput
    {
      var line := inputs[runs];
      if IsExit(line) {
        ReachedExit(inputs, goodbye, build, llm, db, initial, runs, asked, store, shown);
        shown := shown + [goodbye];
        phase := Terminated;
      } else {
        var printed, prompt, after;
        printed, prompt, after := RunPipeline(runs, line, build, llm, db, store);
        ReachedTurn(inputs, goodbye, build, llm, db, initial, runs, asked, store, shown, prompt, after, printed);
        asked, store, shown, runs := asked + [prompt], after, shown + printed, runs + 1;
      }
    }
    out := banner + shown;
    AppendAssociates(banner, Trace(asked, llm, db, initial).lines, if phase == Terminated then [goodbye] else []);
  }

  /** `chat` itself: the loop with the students prompt. */
  method StudentChat<S>(inputs: seq<string>, llm: (nat, string) -> Response,
                        db: (S, string) -> (S, EngineOutcome), initial: S)
    returns (out: seq<string>, phase: Phase, runs: nat, asked: seq<string>, store: S)
    ensures runs == FirstExit(inputs)
    ensures phase == Terminated <==> runs < |inputs|
    ensures asked == Prompts(Prompt, inputs[..runs])
    ensures store == Trace(asked, llm, db, initial).store
    ensures out == Banner + Trace(asked, llm, db, initial).lines
                   + (if phase == Terminated then [Goodbye] else [])
  {
    out, phase, runs, asked, store := Chat(inputs, Banner, Goodbye, Prompt, llm, db, initial);
  }
}
