/**
  SQL extraction from the language model's reply (`call_llm_to_get_sql`,
  main.py:42-50): the reply is stripped, cut before its first `;`, and given
  exactly one `;` back. The HTTP transport and JSON decoding are not modelled;
  a reply is its status code, its raw body text and the value of its
  "response" field, if it has one.
*/
module Extraction {
  import opened Optional
  import opened Text

  const Terminator: char := ';'

  /** What the text-generation service sent back. */
  datatype Response = Response(status: int, text: string, field: Option<string>)

  /** The statement kept from a raw reply. It always ends with the terminator
      and holds exactly one; what precedes the terminator is a prefix of the
      stripped reply that runs up to the reply's first terminator (or to its
      end when it has none). */
  function Extract(reply: string): (sql: string)
    ensures |sql| >= 1 && sql[|sql| - 1] == Terminator
    ensures multiset(sql)[Terminator] == 1
    ensures sql[..|sql| - 1] <= Strip(reply)
    ensures |sql| - 1 < |Strip(reply)| ==> Strip(reply)[|sql| - 1] == Terminator
    ensures Terminator !in Strip(reply) ==> sql == Strip(reply) + [Terminator]
  {
    var body := BeforeFirst(Strip(reply), Terminator);
    assert multiset(body)[Terminator] == 0;
    body + [Terminator]
  }

  /** A statement made of a terminator-free body and one terminator, with no
      whitespace at its start, is extracted unchanged. */
  lemma ExtractOfStatement(body: string)
    requires Terminator !in body
    requires body == [] || !IsSpace(body[0])
    ensures Extract(body + [Terminator]) == body + [Terminator]
  {
    var sql := body + [Terminator];
    assert Strip(sql) == sql by {
      assert [] + sql + [] == sql;
      StripOfPadded([], sql, []);
    }
    assert BeforeFirst(sql, Terminator) == body by {
      assert sql[..|body|] == body;
    }
  }

  /** Extracting from an already extracted statement changes nothing. */
  lemma ExtractIdempotent(reply: string)
    ensures Extract(Extract(reply)) == Extract(reply)
  {
    var stripped := Strip(reply);
    StripSpec(reply);
    var body := BeforeFirst(stripped, Terminator);
    assert Extract(reply) == body + [Terminator];
    assert body == [] || body[0] == stripped[0];
    ExtractOfStatement(body);
  }

  /** A reply's "response" field, defaulting to the empty string when absent. */
  function Field(r: Response): string
  {
    r.field.GetOr([])
  }

  /** The status branch of `call_llm_to_get_sql`: no statement unless the status
      is 200, and then the statement extracted from the "response" field. */
  function Translate(r: Response): (sql: Option<string>)
    ensures sql.Some? <==> r.status == 200
    ensures sql.Some? ==> sql.value == Extract(Field(r))
  {
    if r.status == 200 then Some(Extract(Field(r))) else None
  }

  /** A successful translation is never the empty string, so Python's
      truthiness test on it fails exactly when the status is not 200. */
  lemma TranslateTruthy(r: Response)
    ensures (Translate(r).Some? && Translate(r).value != []) <==> r.status == 200
  {
  }
}
