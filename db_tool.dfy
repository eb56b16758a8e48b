/**
 * The database tool: a question that mentions a cross-table keyword goes to
 * the cross-table handler; any other question is translated into query
 * parameters, executed, and the rows are turned into an answer. Any exception
 * becomes an apology that carries the exception text. The database agent
 * wraps every question in a fixed description of the database first.
 */
module DbTool {
  import opened Outcomes
  import opened JsonValues
  import SchemaLayout
  import QueryTranslation
  import Text

  /** Words whose presence, in any letter case, marks a cross-table question. */
  const Keywords := ["join", "related", "between", "purchase history", "transaction", "user who",
                     "customer who", "bought", "purchased", "order"]

  /** The lower-cased question contains one of the keywords. */
  predicate IsCrossTable(question: string) {
    exists k :: 0 <= k < |Keywords| && Text.Contains(Text.Lower(question), Keywords[k])
  }

  /** What the tool answers when any step raises, before the exception text. */
  const ErrorPrefix := "I encountered an error while searching the database: "

  /** The external calls a lookup makes, in the order it makes them. */
  datatype Step =
    | CrossTable(question: string)
    | Generate(question: string)
    | Execute(params: Json)
    | Respond(question: string, rows: Json)

  /**
   * The services a lookup depends on: the cross-table handler, the table
   * fetch, the language model's completion and the JSON decoder used to
   * generate parameters, the client creation and query execution of the data
   * service, and the model call that phrases the answer.
   */
  datatype Services = Services(
    crossTable: string -> Result<string>,
    fetch: (string, nat) -> Result<SchemaLayout.TableData>,
    complete: (string, string) -> Result<string>,
    decode: string -> Option<Json>,
    connect: Result<()>,
    run: seq<QueryTranslation.Call> -> Result<Json>,
    respond: (string, Json) -> Result<string>)

  /** What the body of the `try` produced, with the calls it made. */
  datatype Attempt = Attempt(outcome: Result<string>, steps: seq<Step>)

  /** The answer handed back, with the calls made on the way. */
  datatype Answer = Answer(text: string, steps: seq<Step>)

  /** The table the standard path generates parameters for. */
  const QueryTable := "products"

  /** The standard path: generate parameters, execute them, phrase the rows; the first exception ends it. */
  function Standard(question: string, s: Services): Attempt {
    match QueryTranslation.GenerateSupabaseQuery(question, QueryTable, s.fetch, s.complete, s.decode)
    case Raised(m) => Attempt(Raised(m), [Generate(question)])
    case Ok(params) =>
      match QueryTranslation.Execute(params, s.connect, s.run)
      case Raised(m) => Attempt(Raised(m), [Generate(question), Execute(params)])
      case Ok(rows) => Attempt(s.respond(question, rows), [Generate(question), Execute(params), Respond(question, rows)])
  }

  /** The `except` clause: an exception becomes the apology followed by `str(e)`. */
  function Caught(outcome: Result<string>): string {
    match outcome
    case Ok(text) => text
    case Raised(m) => ErrorPrefix + m
  }

  /** The position of a step kind in the standard path. */
  function Rank(step: Step): nat {
    match step
    case CrossTable(_) => 0
    case Generate(_) => 1
    case Execute(_) => 2
    case Respond(_, _) => 3
  }

  /** `db_lookup`. */
  function DbLookup(question: string, s: Services): (a: Answer)
    ensures IsCrossTable(question) <==> a.steps == [CrossTable(question)]
    ensures IsCrossTable(question) ==> a.text == Caught(s.crossTable(question))
    ensures !IsCrossTable(question) ==>
      1 <= |a.steps| <= 3 && a.steps[0] == Generate(question)
      && forall k :: 0 <= k < |a.steps| ==> Rank(a.steps[k]) == k + 1
  {
    var attempt := if IsCrossTable(question) then Attempt(s.crossTable(question), [CrossTable(question)])
                   else Standard(question, s);
    Answer(Caught(attempt.outcome), attempt.steps)
  }

  /** On the standard path, the answer is the phrased rows when every step succeeds. */
  lemma StandardAnswer(question: string, s: Services, params: Json, rows: Json, text: string)
    requires !IsCrossTable(question)
    requires QueryTranslation.GenerateSupabaseQuery(question, QueryTable, s.fetch, s.complete, s.decode) == Ok(params)
    requires QueryTranslation.Execute(params, s.connect, s.run) == Ok(rows)
    requires s.respond(question, rows) == Ok(text)
    ensures DbLookup(question, s) == Answer(text, [Generate(question), Execute(params), Respond(question, rows)])
  {
  }

  /** A cross-table handler that raises is reported with the fixed prefix, after that one call. */
  lemma CrossTableFails(question: string, s: Services)
    requires IsCrossTable(question) && s.crossTable(question).Raised?
    ensures DbLookup(question, s) == Answer(ErrorPrefix + s.crossTable(question).message, [CrossTable(question)])
  {
  }

  /** When generating the parameters raises, the error is reported and nothing is executed. */
  lemma GenerateFails(question: string, s: Services)
    requires !IsCrossTable(question)
    requires QueryTranslation.GenerateSupabaseQuery(question, QueryTable, s.fetch, s.complete, s.decode).Raised?
    ensures DbLookup(question, s) == Answer(
      ErrorPrefix + QueryTranslation.GenerateSupabaseQuery(question, QueryTable, s.fetch, s.complete, s.decode).message,
      [Generate(question)])
  {
  }

  /** When executing the parameters raises, the error is reported and no answer is phrased. */
  lemma ExecuteFails(question: string, s: Services, params: Json)
    requires !IsCrossTable(question)
    requires QueryTranslation.GenerateSupabaseQuery(question, QueryTable, s.fetch, s.complete, s.decode) == Ok(params)
    requires QueryTranslation.Execute(params, s.connect, s.run).Raised?
    ensures DbLookup(question, s) == Answer(
      ErrorPrefix + QueryTranslation.Execute(params, s.connect, s.run).message,
      [Generate(question), Execute(params)])
  {
  }

  /** When phrasing the rows raises, the error is reported after all three calls. */
  lemma RespondFails(question: string, s: Services, params: Json, rows: Json)
    requires !IsCrossTable(question)
    requires QueryTranslation.GenerateSupabaseQuery(question, QueryTable, s.fetch, s.complete, s.decode) == Ok(params)
    requires QueryTranslation.Execute(params, s.connect, s.run) == Ok(rows)
    requires s.respond(question, rows).Raised?
    ensures DbLookup(question, s) == Answer(
      ErrorPrefix + s.respond(question, rows).message,
      [Generate(question), Execute(params), Respond(question, rows)])
  {
  }

  /** Letter case does not change the route. */
  lemma RouteIgnoresCase(question: string)
    ensures IsCrossTable(Text.Lower(question)) <==> IsCrossTable(question)
  {
    Text.LowerIdempotent(question);
  }

  /** Adding text around a cross-table question keeps it a cross-table question. */
  lemma CrossTableWithin(a: string, question: string, b: string)
    requires IsCrossTable(question)
    ensures IsCrossTable(a + question + b)
  {
    var k :| 0 <= k < |Keywords| && Text.Contains(Text.Lower(question), Keywords[k]);
    Text.LowerAppend(a, question);
    Text.LowerAppend(a + question, b);
    Text.ContainsWithin(Text.Lower(a), Text.Lower(question), Text.Lower(b), Keywords[k]);
  }

  /** The text before the question in the database agent's enriched query. */
  const EnrichHead := "\n        Query: "

  /** The text after the question, split just before its mention of the transactions table. */
  const EnrichTailBefore := "\n        \n        Context: The user is asking about information in our database, which contains:\n        - Product information (products table)\n        - User/customer details (users table)\n        - Transaction/order history ("
  const EnrichTailAfter := "s table)\n        \n        Be thorough in your search across all relevant tables.\n        "

  /** `db_agent`'s enrichment of a question before it is handed to the tool. */
  function EnrichQuery(query: string): string {
    EnrichHead + query + EnrichTailBefore + "transaction" + EnrichTailAfter
  }

  /** Every enriched question mentions transactions, so the database agent always takes the cross-table path. */
  lemma EnrichedIsCrossTable(query: string, s: Services)
    ensures IsCrossTable(EnrichQuery(query))
    ensures DbLookup(EnrichQuery(query), s).steps == [CrossTable(EnrichQuery(query))]
  {
    var pre := EnrichHead + query + EnrichTailBefore;
    var word := "transaction";
    assert EnrichQuery(query) == pre + word + EnrichTailAfter;
    Text.LowerAppend(pre, word);
    Text.LowerAppend(pre + word, EnrichTailAfter);
    assert Text.Lower(word) == word;
    assert Text.ContainsAt(word, word, 0);
    Text.ContainsWithin(Text.Lower(pre), word, Text.Lower(EnrichTailAfter), word);
    assert Keywords[4] == word;
  }
}
