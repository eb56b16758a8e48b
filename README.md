# E-commerce chatbot core, modelled in Dafny

The chatbot answers shop questions. A head agent asks a language model to classify each question as
"policy", "database" or "both". It then calls the policy agent and/or the database agent, and hands
their outputs to a reflection agent. The reflection agent asks the model for an answer and then asks
it to review that answer, for up to three rounds.

- The database tool has two paths. Its standard path (realtime_db_agent/tools/realtime_db_tool.py:27-29)
  translates a question into parameters for the data service's query builder, executes them, and has
  the rows phrased as an answer; the model proposes the parameters as JSON inside a code fence. A
  question holding one of its keywords goes to a cross-table handler instead. The database agent
  never reaches the standard path, because the text it wraps every question in holds a keyword
  (see below).
- The policy agent answers from retrieved policy passages.

This project models the deterministic routines around those calls, each in its own module:

- **Text**: Python's string operations as the core uses them: `strip`, `lower`, `upper`, `in`,
  `split` and `join`.
- **JsonValues**: the values `json.loads` produces, with Python truthiness, `dict.get` and `str()`.
- **SchemaLayout** and **SchemaRetrieval**: the table list, the text description of a table, the
  combined description of all tables, and the check of the two known foreign keys.
- **QueryTranslation**: code-fence extraction and the parse fallback. It also compiles the
  parameters into the list of builder calls: table, select, filters, order, limit.
- **DbTool**: the keyword routing of the database tool and its error message.
- **PolicyTool**: the policy lookup with its empty-retrieval answer and its model-failure fallback.
- **Reflection**: the greeting shortcut and the generate/review loop.
- **HeadAgent**: label normalisation, dispatch to sub-agents, the context for reflection, and the
  apology on any exception.

Every call to the language model, the data service, the retriever or the JSON decoder is a parameter
of the function that makes it. An exception is the value `Raised(message)`. Where the order of calls
matters, the model records the calls made as a trace and the contracts speak about that trace. The
reflection model is indexed by call number, so different calls may answer differently.

Imperative code is modelled with Dafny methods. Each method is proved equal to a specification
function, and the properties are proved about that function. These methods are:

- `GetTableSchema`, `GetAllSchemas` and `GetTableRelationships`;
- `ExecuteSupabaseQuery` with its builder steps;
- `ReflectionAgent`.

One consequence is proved in `DbTool.EnrichedIsCrossTable`. The database agent wraps every question
in a text that mentions "transaction". So every question that reaches the database tool through the
database agent takes the cross-table path (realtime_db_agent/agent.py:10-20).

## Model

| member | source | states |
|---|---|---|
| Text.Strip | head_agent.py:34 | the result has no leading or trailing whitespace and is the slice of the input that starts after its leading whitespace |
| Text.StripFrame | head_agent.py:34 | what `strip` removes is whitespace on both sides |
| Text.StripUnique | head_agent.py:34 | any split of a text into whitespace, a trimmed core and whitespace strips to that core |
| Text.StripPadded | head_agent.py:34 | whitespace added on either side does not change the stripped text |
| Text.StripIdempotent | head_agent.py:34 | stripping twice is stripping once |
| Text.Lower | head_agent.py:34 | lower-casing keeps the length and maps each character on its own |
| Text.LowerIdempotent | head_agent.py:34 | lower-casing twice is lower-casing once |
| Text.StripLower | head_agent.py:34 | stripping and lower-casing commute |
| Text.FindFrom | realtime_db_agent/part2_generating_and_executing_sql.py:51-52 | the search returns the first occurrence at or after the start, or reports that there is none |
| Text.ContainsWithin | realtime_db_agent/tools/realtime_db_tool.py:20 | a substring of a text is a substring of any text around it |
| Text.ContainsShift | reflection_agent/agent.py:63 | a pattern occurs in a text exactly when it starts the text or occurs in its tail |
| Text.Split | realtime_db_agent/part1_schema_retreival.py:11 | `split` gives at least one part and no part holds the separator |
| Text.JoinSplit | realtime_db_agent/part1_schema_retreival.py:11 | joining the parts of a split with the separator gives back the text |
| Text.SplitJoin | realtime_db_agent/part1_schema_retreival.py:11 | splitting a join of separator-free parts gives back the parts |
| Text.JoinPlaces | policy/tools/policy_tool.py:45 | every part stands whole in the joined text at its computed offset |
| Text.OffsetsOrdered | policy/tools/policy_tool.py:45 | the parts lie in the joined text in list order, without overlap, at least a separator's width apart |
| Text.JoinSeparator | policy/tools/policy_tool.py:45 | the separator stands right after every part but the last |
| Text.JoinLength | policy/tools/policy_tool.py:45 | the joined text ends with the last part |
| Text.Join | policy/tools/policy_tool.py:45 | defines `sep.join(parts)`; `JoinPlaces`, `JoinSeparator` and `JoinLength` together fix every character of the result |
| Text.Upper | reflection_agent/agent.py:63 | defines `str.upper` on ASCII letters and the four characters whose upper case holds an S; used by `Reflection.AcceptsIffYes` |
| Text.ConcatSnoc | realtime_db_agent/part1_schema_retreival.py:56 | a concatenation is the concatenation of all but the last part, followed by the last part |
| JsonValues.Lookup | realtime_db_agent/part2_generating_and_executing_sql.py:74-80 | `get` finds a value exactly when some member has the key. The value found is that of the last member with the key, as `json.loads` keeps the last duplicate |
| JsonValues.Truthy | realtime_db_agent/part2_generating_and_executing_sql.py:82 | defines Python's `bool(v)`: false exactly for None, False, 0, 0.0 and an empty string, list or dict; used by `QueryTranslation.FilterCallSpec` and `OrderCalls` |
| JsonValues.Repr | realtime_db_agent/part1_schema_retreival.py:42 | defines Python's `repr(v)`: None, True/False, decimal integers, quoted and escaped strings, lists with ", " between items, and dicts as `json.loads` builds them: each name once, at its first place |
| JsonValues.ReprMemberIsLookup | realtime_db_agent/part1_schema_retreival.py:42 | the value shown for a name in a dict is the value `get` finds for it, the last one given |
| JsonValues.DistinctNamesShown | realtime_db_agent/part1_schema_retreival.py:42 | with no repeated names every member is shown, with its own value |
| JsonValues.RepeatedNameShownOnce | realtime_db_agent/part2_generating_and_executing_sql.py:97-98 | `{"a": 1, "a": 2}` shows as `{'a': 2}` |
| JsonValues.LastIndexIsLookup | realtime_db_agent/part2_generating_and_executing_sql.py:78-80 | `get` finds a value exactly when some member has the name, and it is the last such member's |
| JsonValues.Keys | realtime_db_agent/part2_generating_and_executing_sql.py:77 | defines the keys of the dict `json.loads` builds: each name once, at its first place; see `KeysAreNames` |
| JsonValues.KeysAreNames | realtime_db_agent/part2_generating_and_executing_sql.py:77 | the keys are exactly the members' names, each once, no more of them than members, and some when there are members |
| JsonValues.Display | realtime_db_agent/part1_schema_retreival.py:42 | defines `str(v)` as an f-string inserts it: a string as it is, any other value as its `repr` |
| SchemaLayout.Descriptions | realtime_db_agent/part1_schema_retreival.py:24 | the description dictionary has a key exactly for each column named by some description row |
| SchemaLayout.SchemaText | realtime_db_agent/part1_schema_retreival.py:27-45 | defines the table description: header, column lines, example heading, row lines; computed by `SchemaRetrieval.GetTableSchema` |
| SchemaLayout.ColumnLine | realtime_db_agent/part1_schema_retreival.py:34 | defines the line of one column: name, type and its description as `str` shows it; the text of a column no row describes is fixed by `SchemaRetrieval.ColumnWithoutDescription` |
| SchemaLayout.RowText | realtime_db_agent/part1_schema_retreival.py:42 | defines one example row: "name: value" for each member, joined with ", "; its pieces are placed by `Text.JoinPlaces` and `Text.JoinSeparator` |
| SchemaLayout.DescriptionLastWins | realtime_db_agent/part1_schema_retreival.py:24 | when several rows name a column, the last of them gives its description |
| SchemaLayout.ColumnLinesAppend | realtime_db_agent/part1_schema_retreival.py:29-34 | the column lines follow column order: those of a concatenation are those of each part, in order |
| SchemaRetrieval.AvailableTables | realtime_db_agent/part1_schema_retreival.py:11 | the table list is nonempty and free of commas, and joins back with commas to the `DB_TABLES` value or its default; with no value set it is products, users, transactions |
| SchemaRetrieval.DefaultTablesSplit | realtime_db_agent/part1_schema_retreival.py:11 | the default value splits into the three shop tables |
| SchemaRetrieval.ColumnWithoutDescription | realtime_db_agent/part1_schema_retreival.py:33 | a column named by no description row is described as "No description available" |
| SchemaRetrieval.GetTableSchema | realtime_db_agent/part1_schema_retreival.py:13-45 | the text the loops build is the header, one line per column in order, the example heading, and one line per row in order |
| SchemaRetrieval.AppendColumnLines | realtime_db_agent/part1_schema_retreival.py:29-34 | the column loop appends one line per column in column order |
| SchemaRetrieval.AppendRowLines | realtime_db_agent/part1_schema_retreival.py:41-43 | the row loop appends one line per example row in row order |
| SchemaRetrieval.BlockList | realtime_db_agent/part1_schema_retreival.py:53-56 | there is one description block per table |
| SchemaRetrieval.AllSchemas | realtime_db_agent/part1_schema_retreival.py:47-58 | defines the combined description, or the first fetch error; computed by `GetAllSchemas`, characterised by `AllSchemasConcatenates` and `RaisedPersists` |
| SchemaRetrieval.AllSchemasConcatenates | realtime_db_agent/part1_schema_retreival.py:47-58 | when every fetch succeeds, the result is "\n\n" followed by a table's description, for each table in list order |
| SchemaRetrieval.GetAllSchemas | realtime_db_agent/part1_schema_retreival.py:47-58 | the accumulating loop computes that concatenation, with three sample rows per table, or raises the first fetch error |
| SchemaRetrieval.RaisedPersists | realtime_db_agent/part1_schema_retreival.py:53-56 | once a table's fetch raises, no later table changes the outcome |
| SchemaRetrieval.KeepConfirmed | realtime_db_agent/part1_schema_retreival.py:74-95 | defines the candidate filter, or the first column-list error; characterised by `KeepConfirmedSpec` and computed by `GetTableRelationships` |
| SchemaRetrieval.KeepConfirmedSpec | realtime_db_agent/part1_schema_retreival.py:68-95 | the relationships kept are an order-preserving subsequence of the candidates. A candidate is kept exactly when both tables are listed and both columns exist |
| SchemaRetrieval.GetTableRelationships | realtime_db_agent/part1_schema_retreival.py:60-97 | the loop over the two candidates returns exactly those kept relationships, or the error of the column-list call that raised |
| SchemaRetrieval.RelationshipsRaisedPersist | realtime_db_agent/part1_schema_retreival.py:82-83 | once a column-list call raises, later candidates do not change the outcome |
| QueryTranslation.FirstBlock | realtime_db_agent/part2_generating_and_executing_sql.py:51-53 | the block found opens at the first fence and closes at the next fence after it; when none is found, no fenced block exists |
| QueryTranslation.ExtractJsonText | realtime_db_agent/part2_generating_and_executing_sql.py:50-54 | with a fenced block the text parsed is its body, the optional `json` tag removed and whitespace stripped; without one it is the reply unchanged |
| QueryTranslation.ExtractTaggedBlock | realtime_db_agent/part2_generating_and_executing_sql.py:50-54 | a reply holding one ```json block yields that block's stripped body |
| QueryTranslation.ParseQueryParams | realtime_db_agent/part2_generating_and_executing_sql.py:56-61 | decoded parameters are returned as they are; text that does not decode gives exactly `{"select": "*", "filters": []}` |
| QueryTranslation.GenerateSupabaseQuery | realtime_db_agent/part2_generating_and_executing_sql.py:16-61 | the model sees the table's description with five sample rows. A failing fetch or model call raises its own error; otherwise the reply is parsed |
| QueryTranslation.OpOf | realtime_db_agent/part2_generating_and_executing_sql.py:85-100 | exactly the eight operator strings name an operator |
| QueryTranslation.OpOfName | realtime_db_agent/part2_generating_and_executing_sql.py:85-100 | each operator's name names that operator |
| QueryTranslation.FilterCallSpec | realtime_db_agent/part2_generating_and_executing_sql.py:78-100 | a filter adds one call exactly when its column and operator are truthy, its value is not None and its operator is one of the eight. The call carries that operator and column, and the value wrapped as "%v%" for like/ilike |
| QueryTranslation.FilterCall | realtime_db_agent/part2_generating_and_executing_sql.py:78-100 | defines the builder call one filter adds, or none; characterised by `FilterCallSpec`, `FalsyValueKept` and `UnknownOperatorSkipped` |
| QueryTranslation.Wrapped | realtime_db_agent/part2_generating_and_executing_sql.py:97-100 | defines the `like`/`ilike` pattern: the value as `str` shows it between two "%"; a dict value shows as `JsonValues.Repr` fixes it |
| QueryTranslation.FalsyValueKept | realtime_db_agent/part2_generating_and_executing_sql.py:82-83 | a value of 0, "" or False still adds its call |
| QueryTranslation.UnknownOperatorSkipped | realtime_db_agent/part2_generating_and_executing_sql.py:85-100 | the operator "in" adds nothing |
| QueryTranslation.FilterItems | realtime_db_agent/part2_generating_and_executing_sql.py:77 | iterating the `filters` value gives a list's items, the dict's keys in the dict's order, or a string's one-character strings, in order; any other value raises the not-iterable error |
| QueryTranslation.FilterCalls | realtime_db_agent/part2_generating_and_executing_sql.py:77-100 | the filter loop succeeds exactly when every item is a dict, and then emits each filter's calls in order; otherwise it raises the `get` error of the first item that is not a dict |
| QueryTranslation.EmittedAppend | realtime_db_agent/part2_generating_and_executing_sql.py:77-100 | the calls of two filter lists in a row are the calls of each, in order |
| QueryTranslation.EmittedFromItems | realtime_db_agent/part2_generating_and_executing_sql.py:77-100 | every emitted call comes from one filter, and every filter's call is emitted |
| QueryTranslation.EmittedAreFilters | realtime_db_agent/part2_generating_and_executing_sql.py:77-100 | the filter loop emits only filter calls |
| QueryTranslation.OrderCalls | realtime_db_agent/part2_generating_and_executing_sql.py:103-108 | an order call is added exactly when `order` is present and truthy. It is on that column, and is descending exactly when the direction is given and is not "asc" |
| QueryTranslation.LimitCalls | realtime_db_agent/part2_generating_and_executing_sql.py:111-113 | a limit call is added exactly when `limit` is an int (a bool included) greater than 0 |
| QueryTranslation.CompileQuery | realtime_db_agent/part2_generating_and_executing_sql.py:71-113 | defines the builder calls of a parameter dict, or the error raised while building; characterised by `CompileQueryShape`, `CompileQueryInOrder` and `CompileRaisesIffMalformed` |
| QueryTranslation.CompileQueryShape | realtime_db_agent/part2_generating_and_executing_sql.py:71-113 | a compiled query is `table("products")`, then `select`, then the filter calls, then at most one order call, then at most one limit call |
| QueryTranslation.CompileQueryInOrder | realtime_db_agent/part2_generating_and_executing_sql.py:71-113 | the calls never go back to an earlier builder stage |
| QueryTranslation.CompileRaisesIffMalformed | realtime_db_agent/part2_generating_and_executing_sql.py:74-80 | building raises exactly when the parameters are not a dict, `filters` is not iterable, or one filter is not a dict |
| QueryTranslation.DefaultParamsCompile | realtime_db_agent/part2_generating_and_executing_sql.py:59-61 | the fallback parameters compile to `table("products").select("*")` |
| QueryTranslation.Execute | realtime_db_agent/part2_generating_and_executing_sql.py:63-117 | defines the query run: a client error, else the build error, else the data of the compiled calls; `ExecuteSupabaseQuery` is proved equal to it and `CompileQuery`'s lemmas describe the calls |
| QueryTranslation.ExecuteSupabaseQuery | realtime_db_agent/part2_generating_and_executing_sql.py:63-117 | the builder, reassigned step by step, records the compiled calls. A failing client creation or build raises its own error, and otherwise the calls are executed |
| QueryTranslation.AddFilter | realtime_db_agent/part2_generating_and_executing_sql.py:78-100 | one loop step appends exactly that filter's calls to the builder |
| QueryTranslation.AddOrder | realtime_db_agent/part2_generating_and_executing_sql.py:103-108 | the order step appends exactly the order calls |
| QueryTranslation.AddLimit | realtime_db_agent/part2_generating_and_executing_sql.py:111-113 | the limit step appends exactly the limit calls |
| DbTool.DbLookup | realtime_db_agent/tools/realtime_db_tool.py:16-32 | the cross-table handler is the only call exactly when the lower-cased question holds a keyword, and its result or error is the answer. Otherwise the calls are generate, then execute, then respond, in that order and stopping at the first failure |
| DbTool.Standard | realtime_db_agent/tools/realtime_db_tool.py:27-29 | defines the standard path: generate, execute, respond, ending at the first exception |
| DbTool.Caught | realtime_db_agent/tools/realtime_db_tool.py:31-32 | defines the `except` clause: a result as it is, an exception as the fixed prefix and its text |
| DbTool.StandardAnswer | realtime_db_agent/tools/realtime_db_tool.py:27-29 | when every step of the standard path succeeds, the answer is the phrased rows, after exactly those three calls |
| DbTool.CrossTableFails | realtime_db_agent/tools/realtime_db_tool.py:24-32 | a raising cross-table handler gives the fixed prefix and its error, after that one call |
| DbTool.GenerateFails | realtime_db_agent/tools/realtime_db_tool.py:27-32 | a raising parameter generation gives the fixed prefix and its error, and nothing is executed |
| DbTool.ExecuteFails | realtime_db_agent/tools/realtime_db_tool.py:28-32 | a raising execution gives the fixed prefix and its error, and no answer is phrased |
| DbTool.RespondFails | realtime_db_agent/tools/realtime_db_tool.py:29-32 | a raising phrasing call gives the fixed prefix and its error, after all three calls |
| DbTool.IsCrossTable | realtime_db_agent/tools/realtime_db_tool.py:20-23 | defines the keyword test on the lower-cased question; see `RouteIgnoresCase`, `CrossTableWithin` and `DbLookup` |
| DbTool.RouteIgnoresCase | realtime_db_agent/tools/realtime_db_tool.py:20 | letter case does not change the route |
| DbTool.CrossTableWithin | realtime_db_agent/tools/realtime_db_tool.py:20-23 | a question stays cross-table whatever text surrounds it |
| DbTool.EnrichQuery | realtime_db_agent/agent.py:10-19 | defines the database agent's enriched question: the question inside the fixed description of the database; see `EnrichedIsCrossTable` |
| DbTool.EnrichedIsCrossTable | realtime_db_agent/agent.py:10-20 | every question the database agent enriches takes the cross-table path |
| PolicyTool.PolicyLookup | policy/tools/policy_tool.py:35-66 | retrieval comes first, and its error propagates. An empty result gives the fixed sentence without a model call. Otherwise the model is asked with the joined passages; its answer is returned as it is, or on failure "Based on our policies: " and the passages |
| PolicyTool.AskedIffFound | policy/tools/policy_tool.py:41-62 | the model is asked exactly when retrieval found passages |
| PolicyTool.Context | policy/tools/policy_tool.py:45 | defines the context as the passages joined with "\n\n"; pinned down by `ContextHoldsPassages` |
| PolicyTool.ContextHoldsPassages | policy/tools/policy_tool.py:45 | every passage stands whole in the context, in retrieval order. "\n\n" follows every passage but the last, the next passage starts right after it, and the context ends with the last passage |
| PolicyTool.FallbackHoldsPassages | policy/tools/policy_tool.py:64-66 | when the model fails, the answer still contains every retrieved passage |
| Reflection.HasYesContains | reflection_agent/agent.py:63 | the verdict search finds "YES" exactly when it occurs |
| Reflection.AcceptsIffYes | reflection_agent/agent.py:63 | a verdict accepts exactly when its upper-cased text contains "YES" |
| Reflection.Accepts | reflection_agent/agent.py:63 | defines the verdict test; `AcceptsIffYes` shows it is `"YES" in verdict.upper()` |
| Reflection.IsGreeting | reflection_agent/agent.py:21-22 | defines the greeting shortcut: both outputs empty and the context empty or under 50 characters; see `GreetingMakesNoCall` and `LongContextIsAnswered` |
| Reflection.ReviewTextFaithful | reflection_agent/agent.py:57-60 | the review prompt is the fixed question followed by the candidate, and two review prompts agree exactly when their candidates do |
| Reflection.Reflect | reflection_agent/agent.py:14-66 | defines the agent's reply and prompts; computed by `ReflectionAgent`, characterised by the lemmas below |
| Reflection.Iterate | reflection_agent/agent.py:48-66 | defines the rounds from a given one on: compose, review, stop on acceptance or a raised call; characterised by `IteratePrompts` and `IterateOutcome` |
| Reflection.ReflectionAgent | reflection_agent/agent.py:14-66 | the `for` loop with `break` gives the reply and the prompts of the specification function |
| Reflection.IteratePrompts | reflection_agent/agent.py:49-60 | each round sends at most two prompts, the fixed composition and then the review of that round's candidate |
| Reflection.IterateOutcome | reflection_agent/agent.py:49-66 | a run without errors rejects every round but its last. The last round was accepted or was the final one, and the reply is its candidate |
| Reflection.GreetingMakesNoCall | reflection_agent/agent.py:21-25 | empty outputs with a context under 50 characters give the greeting and make no model call |
| Reflection.LongContextIsAnswered | reflection_agent/agent.py:21-22 | empty outputs with a context of 50 characters or more go to the model |
| Reflection.NoRoundsGiveEmpty | reflection_agent/agent.py:48-49 | with no round to run and no greeting, the reply is "" |
| Reflection.ReflectPrompts | reflection_agent/agent.py:49-60 | at most `max_iterations` generations, each from the same prompt of the three inputs and each followed by one review of its candidate |
| Reflection.ReflectOutcome | reflection_agent/agent.py:49-66 | the loop stops after the first accepted round or after the last round, and returns that round's candidate |
| HeadAgent.Normalise | head_agent.py:34-38 | the route is always one of the three. It is the stripped, lower-cased label when that is one of them, and "both" otherwise |
| HeadAgent.NormaliseIdempotent | head_agent.py:34-38 | normalising a route gives it back |
| HeadAgent.NormalisePadded | head_agent.py:34 | whitespace around the label does not change the route |
| HeadAgent.NormaliseIgnoresCase | head_agent.py:34 | letter case of the label does not change the route |
| HeadAgent.PaddedCapitalisedPolicy | head_agent.py:34 | the label " Policy\n" gives "policy" |
| HeadAgent.DetermineAgent | head_agent.py:20-40 | the classifier's reply becomes a route in the closed set, and the classifier's exception propagates |
| HeadAgent.Gather | head_agent.py:49-57 | the database agent is called exactly when the route is not "policy", and first. The policy agent is called for "policy", and for "both" once the database agent has answered. No agent is called twice, and the agent not called contributes "" |
| HeadAgent.ReflectionContext | head_agent.py:65 | defines the context handed to reflection; characterised by `ContextShape` |
| HeadAgent.ContextShape | head_agent.py:65 | the reflection context is the question alone, or the previous context, one space and the question |
| HeadAgent.Answer | head_agent.py:42-70 | a turn classifies first and makes at most four calls |
| HeadAgent.ClassifierFailure | head_agent.py:44-46 | a classifier exception gives the apology, with no other call |
| HeadAgent.RoutedAgents | head_agent.py:49-57 | the sub-agent calls of a turn are exactly those the route implies, the first right after classification, and no call of the turn is repeated |
| HeadAgent.AgentFailure | head_agent.py:49-57 | a sub-agent exception gives the apology, and reflection is not called |
| HeadAgent.RefinedReply | head_agent.py:62-70 | reflection gets the route's outputs and the composed context. Its reply is returned as it is, or the apology when it raised |

## Left out

- Prompt wording: the text of the classifier, generation and policy prompts is not modelled. The
  model receives the values that fill the prompt (question, table description, passages). The
  reflection composition is the prompt `Compose(db, policy, context)`. The review prompt is modelled
  as the review question followed by the candidate.
- The language model, the data-service client (`create_client`, `rpc`, `execute`), the retriever
  with its embeddings, and `json.loads` are parameters. Their own behaviour, the retriever's number
  of passages, and any validation of builder arguments are not modelled. The data-service and
  retriever parameters are functions, so two identical calls get the same answer: a service whose
  answer changes between calls is not modelled. For example `get_table_relationships` asks for the
  columns of `transactions` once per candidate (realtime_db_agent/part1_schema_retreival.py:82-83),
  and `SchemaRetrieval.KeepConfirmed` uses one answer for both.
- `handle_cross_table_query` is imported at realtime_db_agent/tools/realtime_db_tool.py:9 but none of the
  files shown defines it, so that import fails as written. The model takes the cross-table
  handler as a parameter.
- `generate_human_response` only builds a prompt for the model, so it is the parameter `respond`.
- The `hasattr(..., "data")` guards in `get_table_schema` are not modelled: fetched data is given as
  columns, description rows and rows. The unused `column_names` list is left out.
- `Text.Lower` and `Text.Upper` cover ASCII letters, and `Upper` also the non-ASCII characters whose
  upper case contains an `S`. Other Unicode case mappings are not modelled. `Text.Strip` uses Python's
  whitespace set.
- `JsonValues.Repr` escapes backslash, the quote, newline, carriage return and tab. Other
  non-printable characters are not escaped. The `repr` of a float is supplied with the value, not
  computed.
- `SchemaLayout.RowText` shows every member of a row in order. A fetched row is taken to hold each
  column name once, as a row of the data service does; a row with a repeated name is not collapsed
  the way a Python dict would collapse it.
- The `select` default follows the code: `get("select", "*")` uses "*" only when the key is missing,
  so a `null` select is passed on.
- The policy agent and the database agent are parameters of the head agent; the reflection agent is
  modelled and called by it, with only its language model as a parameter. The two sub-agents' `except` wrappers (policy/agent.py, realtime_db_agent/agent.py:21-22) are therefore not
  modelled. The database agent's enrichment text is modelled separately, in `DbTool.EnrichQuery`.
- The command-line loop of head_agent.py:72-86, the web interface in app.py, the ingestion scripts,
  and test_db.py, test_policy_agent.py and test_reflection_agent.py, are console, UI or live-service I/O.
- The code does no context trimming, de-duplication, join planning, `in` operator or
  identifier coercion, so neither does the model.
