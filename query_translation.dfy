/**
 * Turning a question into data: the reply of the language model is cut out of
 * its code fence and decoded into query parameters (with a fixed fallback
 * when decoding fails), and the parameters are compiled into the sequence of
 * query-builder calls that the data service then executes. The model, the
 * decoder, the client and the execution are parameters; the builder is the
 * list of calls it has recorded.
 */
module QueryTranslation {
  import opened Outcomes
  import opened JsonValues
  import SchemaLayout
  import Text

  /** The code-fence marker. */
  const Fence := "```"

  /** The optional language tag the fence pattern allows straight after the opening fence. */
  function DropJsonTag(s: string): string {
    if |s| >= 4 && s[..4] == "json" then s[4..] else s
  }

  /** `p` is the first place a fence occurs in `content`. */
  ghost predicate FirstFence(content: string, p: nat) {
    Text.ContainsAt(content, Fence, p)
    && forall j: nat :: j < p ==> !Text.ContainsAt(content, Fence, j)
  }

  /**
   * The first fenced block of `content` opens at `p` and closes at `q`: `p` is
   * the first fence and `q` the first fence that starts after it ends. This is
   * where the leftmost, shortest match of the fence pattern lies; the optional
   * `json` tag cannot reach into the closing fence, because a fence starts with
   * a backtick and the tag holds none.
   */
  ghost predicate FencedBlock(content: string, p: nat, q: nat) {
    FirstFence(content, p) && p + |Fence| <= q && Text.ContainsAt(content, Fence, q)
    && forall j: nat :: p + |Fence| <= j < q ==> !Text.ContainsAt(content, Fence, j)
  }

  /** Any two descriptions of the first fenced block agree. */
  lemma FencedBlockUnique(content: string, p: nat, q: nat, p': nat, q': nat)
    requires FencedBlock(content, p, q) && FencedBlock(content, p', q')
    ensures p == p' && q == q'
  {
  }

  /** Where the first fenced block lies, found as the pattern search finds it. */
  function FirstBlock(content: string): (b: Option<(nat, nat)>)
    ensures b.Some? ==> FencedBlock(content, b.value.0, b.value.1)
    ensures b.None? ==> forall p: nat, q: nat :: !FencedBlock(content, p, q)
  {
    match Text.FindFrom(content, Fence, 0)
    case None => None
    case Some(p) =>
      match Text.FindFrom(content, Fence, p + 3)
      case None => None
      case Some(q) => Some((p, q))
  }

  /**
   * The text handed to the decoder: the stripped body of the first fenced
   * block, without a leading `json` tag, or the reply unchanged when it holds
   * no complete fenced block.
   */
  function ExtractJsonText(content: string): (r: string)
    ensures forall p: nat, q: nat :: FencedBlock(content, p, q) ==> p + 3 <= q <= |content| && r == Text.Strip(DropJsonTag(content[p + 3..q]))
    ensures (forall p: nat, q: nat :: !FencedBlock(content, p, q)) ==> r == content
  {
    match FirstBlock(content)
    case None => content
    case Some((p, q)) =>
      OnlyBlock(content, p, q);
      Text.Strip(DropJsonTag(content[p + 3..q]))
  }

  lemma OnlyBlock(content: string, p: nat, q: nat)
    requires FencedBlock(content, p, q)
    ensures p + 3 <= q <= |content|
    ensures forall p': nat, q': nat :: FencedBlock(content, p', q') ==> p' == p && q' == q
  {
    forall p': nat, q': nat | FencedBlock(content, p', q') ensures p' == p && q' == q {
      FencedBlockUnique(content, p, q, p', q');
    }
  }

  /** A fence starts with a backtick. */
  lemma FenceStart(s: string, j: nat)
    ensures Text.ContainsAt(s, Fence, j) ==> s[j] == '`'
  {
    if j + 3 <= |s| {
      assert s[j..j + 3][0] == s[j];
    }
  }

  /** No fence starts inside a stretch without backticks. */
  lemma NoFenceWithin(c: string, lo: nat, hi: nat)
    requires lo <= hi <= |c| && '`' !in c[lo..hi]
    ensures forall j: nat :: lo <= j < hi ==> !Text.ContainsAt(c, Fence, j)
  {
    forall j: nat | lo <= j < hi ensures !Text.ContainsAt(c, Fence, j) {
      assert c[j] == c[lo..hi][j - lo];
      FenceStart(c, j);
    }
  }

  /** A reply of the usual form, prose then a `json`-tagged block, yields the stripped block body. */
  lemma ExtractTaggedBlock(pre: string, body: string, post: string)
    requires '`' !in pre && '`' !in body
    ensures ExtractJsonText(pre + "```json" + body + "```" + post) == Text.Strip(body)
  {
    var tagged := "json" + body;
    assert '`' !in tagged;
    assert pre + "```json" + body + "```" + post == pre + Fence + tagged + Fence + post;
    BlockBetween(pre, tagged, post);
    assert tagged[..4] == "json" && tagged[4..] == body;
  }

  /** Fences around a stretch without backticks, after prose without backticks, make the first fenced block. */
  lemma BlockBetween(pre: string, inner: string, post: string)
    requires '`' !in pre && '`' !in inner
    ensures var c := pre + Fence + inner + Fence + post;
      FencedBlock(c, |pre|, |pre| + 3 + |inner|) && c[|pre| + 3..|pre| + 3 + |inner|] == inner
  {
    var c := pre + Fence + inner + Fence + post;
    var p := |pre|;
    var q := |pre| + 3 + |inner|;
    assert c[..p] == pre;
    assert c[p..p + 3] == Fence;
    assert c[p + 3..q] == inner;
    assert c[q..q + 3] == Fence;
    NoFenceWithin(c, 0, p);
    NoFenceWithin(c, p + 3, q);
  }

  /** The parameters used when the reply does not decode. */
  const DefaultParams := JObj([("select", JStr("*")), ("filters", JArr([]))])

  /** The decoded parameters, or the fallback when `decode` (the JSON decoder) rejects the text. */
  function ParseQueryParams(content: string, decode: string -> Option<Json>): (params: Json)
    ensures decode(ExtractJsonText(content)).None? ==> params == DefaultParams
    ensures decode(ExtractJsonText(content)).Some? ==> params == decode(ExtractJsonText(content)).value
  {
    decode(ExtractJsonText(content)).GetOr(DefaultParams)
  }

  /** Rows fetched for the table description shown to the model. */
  const TableSchemaSampleRows := 5

  /**
   * `generate_supabase_query`: describe the table, ask the model (`complete`
   * receives the table description and the question) and decode its reply.
   * A failing fetch or model call raises.
   */
  function GenerateSupabaseQuery(question: string, table: string, fetch: (string, nat) -> Result<SchemaLayout.TableData>,
                                 complete: (string, string) -> Result<string>, decode: string -> Option<Json>): (r: Result<Json>)
    ensures fetch(table, TableSchemaSampleRows).Raised? ==> r == Raised(fetch(table, TableSchemaSampleRows).message)
    ensures fetch(table, TableSchemaSampleRows).Ok? ==>
      var reply := complete(SchemaLayout.SchemaText(table, fetch(table, TableSchemaSampleRows).value), question);
      (reply.Raised? ==> r == Raised(reply.message))
      && (reply.Ok? ==> r == Ok(ParseQueryParams(reply.value, decode)))
  {
    match fetch(table, TableSchemaSampleRows)
    case Raised(m) => Raised(m)
    case Ok(data) =>
      match complete(SchemaLayout.SchemaText(table, data), question)
      case Raised(m) => Raised(m)
      case Ok(reply) => Ok(ParseQueryParams(reply, decode))
  }

  /** The comparison operators the translation knows. */
  datatype Op = Eq | Neq | Gt | Lt | Gte | Lte | Like | Ilike

  /** The builder method, and the operator string, of each operator. */
  function OpName(op: Op): string {
    match op
    case Eq => "eq"
    case Neq => "neq"
    case Gt => "gt"
    case Lt => "lt"
    case Gte => "gte"
    case Lte => "lte"
    case Like => "like"
    case Ilike => "ilike"
  }

  /** The two operators whose value becomes a pattern. */
  predicate IsPattern(op: Op) {
    op == Like || op == Ilike
  }

  /** A call recorded by the query builder, with the values it was given. */
  datatype Call =
    | From(table: string)
    | Select(columns: Json)
    | Filter(op: Op, column: Json, value: Json)
    | Order(column: Json, desc: bool)
    | Limit(count: Json)

  /** The operator a filter names: exactly the eight operator strings name one. */
  function OpOf(operator: Json): (r: Option<Op>)
    ensures r.Some? ==> operator == JStr(OpName(r.value))
    ensures r.None? ==> forall op :: operator != JStr(OpName(op))
  {
    if operator == JStr("eq") then Some(Eq)
    else if operator == JStr("neq") then Some(Neq)
    else if operator == JStr("gt") then Some(Gt)
    else if operator == JStr("lt") then Some(Lt)
    else if operator == JStr("gte") then Some(Gte)
    else if operator == JStr("lte") then Some(Lte)
    else if operator == JStr("like") then Some(Like)
    else if operator == JStr("ilike") then Some(Ilike)
    else None
  }

  /** Naming an operator and reading the name back gives the operator. */
  lemma OpOfName(op: Op)
    ensures OpOf(JStr(OpName(op))) == Some(op)
  {
    var r := OpOf(JStr(OpName(op)));
    assert OpName(r.value) == OpName(op);
  }

  /** A value as a pattern match: `f"%{value}%"`. */
  function Wrapped(value: Json): Json {
    JStr("%" + Display(value) + "%")
  }

  /** The value passed with an operator: a pattern for `like` and `ilike`, the value itself otherwise. */
  function Argument(op: Op, value: Json): Json {
    if IsPattern(op) then Wrapped(value) else value
  }

  /** A filter needs a truthy column, a truthy operator and a value that is not None. */
  predicate Complete(filter: seq<(string, Json)>) {
    Truthy(GetOr(filter, "column", JNull))
    && Truthy(GetOr(filter, "operator", JNull))
    && GetOr(filter, "value", JNull) != JNull
  }

  /** The calls one filter dict adds to the query: one call, or none when it is skipped. */
  function FilterCall(filter: seq<(string, Json)>): seq<Call> {
    var column := GetOr(filter, "column", JNull);
    var operator := GetOr(filter, "operator", JNull);
    var value := GetOr(filter, "value", JNull);
    if !Complete(filter) then []
    else
      match OpOf(operator)
      case None => []
      case Some(op) => [Filter(op, column, Argument(op, value))]
  }

  /**
   * A filter adds a call exactly when it is complete and names one of the
   * eight operators; the call carries that operator, the column, and the value
   * (as a pattern for `like` and `ilike`).
   */
  lemma FilterCallSpec(filter: seq<(string, Json)>)
    ensures |FilterCall(filter)| <= 1
    ensures |FilterCall(filter)| == 1 <==> Complete(filter) && exists op :: GetOr(filter, "operator", JNull) == JStr(OpName(op))
    ensures forall op :: Complete(filter) && GetOr(filter, "operator", JNull) == JStr(OpName(op)) ==>
      FilterCall(filter) == [Filter(op, GetOr(filter, "column", JNull), Argument(op, GetOr(filter, "value", JNull)))]
  {
    forall op | Complete(filter) && GetOr(filter, "operator", JNull) == JStr(OpName(op))
      ensures FilterCall(filter) == [Filter(op, GetOr(filter, "column", JNull), Argument(op, GetOr(filter, "value", JNull)))]
    {
      OpOfName(op);
    }
  }

  /** A falsy value (0, "", 0.0, False) is passed on; only a missing value or None skips the filter. */
  lemma FalsyValueKept(column: string, op: Op, value: Json)
    requires column != [] && value != JNull
    ensures FilterCall([("column", JStr(column)), ("operator", JStr(OpName(op))), ("value", value)])
      == [Filter(op, JStr(column), Argument(op, value))]
  {
    var f := [("column", JStr(column)), ("operator", JStr(OpName(op))), ("value", value)];
    assert f[..2] == [f[0], f[1]];
    assert f[..2][..1] == [f[0]];
    assert GetOr(f, "column", JNull) == JStr(column);
    assert GetOr(f, "operator", JNull) == JStr(OpName(op));
    assert GetOr(f, "value", JNull) == value;
    FilterCallSpec(f);
  }

  /** An operator outside the eight, such as "in", adds nothing. */
  lemma UnknownOperatorSkipped(filter: seq<(string, Json)>)
    requires GetOr(filter, "operator", JNull) == JStr("in")
    ensures FilterCall(filter) == []
  {
  }

  /**
   * What iterating over the `filters` value produces: a list's items, the keys
   * of the dict (each name once, see `JsonValues.KeysAreNames`), a string's
   * characters.
   */
  function FilterItems(filters: Json): (r: Result<seq<Json>>)
    ensures r.Raised? <==> !(filters.JArr? || filters.JObj? || filters.JStr?)
    ensures filters.JArr? ==> r == Ok(filters.items)
    ensures filters.JObj? ==>
      r.Ok? && |r.value| == |Keys(filters.fields)|
      && forall k :: 0 <= k < |r.value| ==> r.value[k] == JStr(Keys(filters.fields)[k])
    ensures filters.JStr? ==>
      r.Ok? && |r.value| == |filters.s|
      && forall k :: 0 <= k < |r.value| ==> r.value[k] == JStr([filters.s[k]])
    ensures r.Ok? ==> forall k :: 0 <= k < |r.value| ==> filters.JArr? || r.value[k].JStr?
  {
    match filters
    case JArr(items) => Ok(items)
    case JObj(fields) =>
      var keys := Keys(fields);
      Ok(seq(|keys|, k requires 0 <= k < |keys| => JStr(keys[k])))
    case JStr(s) => Ok(seq(|s|, k requires 0 <= k < |s| => JStr([s[k]])))
    case _ => Raised("'" + TypeName(filters) + "' object is not iterable")
  }

  /** The message of the error a `.get` on a value that is not a dict raises. */
  function NoGet(v: Json): string {
    "'" + TypeName(v) + "' object has no attribute 'get'"
  }

  /** Every item is a dict. */
  predicate AllObjects(items: seq<Json>) {
    forall k :: 0 <= k < |items| ==> items[k].JObj?
  }

  /** The calls an item of `filters` adds. */
  function ItemCalls(item: Json): seq<Call>
    requires item.JObj?
  {
    FilterCall(item.fields)
  }

  /** The calls a sequence of filter dicts adds, in list order. */
  function Emitted(items: seq<Json>): seq<Call>
    requires AllObjects(items)
  {
    if items == [] then [] else ItemCalls(items[0]) + Emitted(items[1..])
  }

  /** The filter loop: the calls of the filters in order, or the error of the first item that is not a dict. */
  function FilterCalls(items: seq<Json>): (r: Result<seq<Call>>)
    ensures r.Ok? <==> AllObjects(items)
    ensures r.Ok? ==> r.value == Emitted(items)
    ensures r.Raised? ==> exists k :: 0 <= k < |items| && !items[k].JObj? && AllObjects(items[..k]) && r == Raised(NoGet(items[k]))
  {
    if items == [] then Ok([])
    else if !items[0].JObj? then
      assert items[..0] == [];
      Raised(NoGet(items[0]))
    else
      var rest := FilterCalls(items[1..]);
      assert forall k :: 1 <= k < |items| ==> items[k] == items[1..][k - 1];
      match rest
      case Raised(m) =>
        FirstNonObjectShift(items, m);
        Raised(m)
      case Ok(cs) => Ok(ItemCalls(items[0]) + cs)
  }

  /** The first item of the tail that is not a dict is the first one of the whole list when the head is a dict. */
  lemma FirstNonObjectShift(items: seq<Json>, m: string)
    requires items != [] && items[0].JObj?
    requires exists k :: 0 <= k < |items| - 1 && !items[1..][k].JObj? && AllObjects(items[1..][..k]) && m == NoGet(items[1..][k])
    ensures exists k :: 0 <= k < |items| && !items[k].JObj? && AllObjects(items[..k]) && m == NoGet(items[k])
  {
    var k :| 0 <= k < |items| - 1 && !items[1..][k].JObj? && AllObjects(items[1..][..k]) && m == NoGet(items[1..][k]);
    assert items[..k + 1] == [items[0]] + items[1..][..k];
    assert items[k + 1] == items[1..][k];
  }

  /** The filters' calls are the calls of each filter, concatenated in list order. */
  lemma {:induction false} EmittedAppend(a: seq<Json>, b: seq<Json>)
    requires AllObjects(a) && AllObjects(b)
    ensures AllObjects(a + b)
    ensures Emitted(a + b) == Emitted(a) + Emitted(b)
  {
    if a != [] {
      assert (a + b)[1..] == a[1..] + b;
      EmittedAppend(a[1..], b);
    } else {
      assert a + b == b;
    }
  }

  /** Each emitted call is the call of one of the items, and each item's calls are emitted. */
  lemma {:induction false} EmittedFromItems(items: seq<Json>)
    requires AllObjects(items)
    ensures forall c :: c in Emitted(items) ==> exists k :: 0 <= k < |items| && c in ItemCalls(items[k])
    ensures forall k, c :: 0 <= k < |items| && c in ItemCalls(items[k]) ==> c in Emitted(items)
  {
    if items != [] {
      EmittedFromItems(items[1..]);
      assert forall k :: 1 <= k < |items| ==> items[k] == items[1..][k - 1];
    }
  }

  /** Every emitted call is a filter call. */
  lemma EmittedAreFilters(items: seq<Json>)
    requires AllObjects(items)
    ensures forall k :: 0 <= k < |Emitted(items)| ==> Emitted(items)[k].Filter?
  {
    EmittedFromItems(items);
    forall k | 0 <= k < |Emitted(items)| ensures Emitted(items)[k].Filter? {
      var c := Emitted(items)[k];
      assert c in Emitted(items);
      var j :| 0 <= j < |items| && c in ItemCalls(items[j]);
      FilterCallSpec(items[j].fields);
    }
  }

  /** The order call: present only for a truthy `order`, ascending only for a missing or "asc" direction. */
  function OrderCalls(params: seq<(string, Json)>): (r: seq<Call>)
    ensures |r| <= 1
    ensures |r| == 1 <==> Lookup(params, "order").Some? && Truthy(Lookup(params, "order").value)
    ensures |r| == 1 ==> r[0].Order? && r[0].column == Lookup(params, "order").value
    ensures |r| == 1 ==> (r[0].desc <==> GetOr(params, "order_direction", JStr("asc")) != JStr("asc"))
  {
    match Lookup(params, "order")
    case None => []
    case Some(column) =>
      if !Truthy(column) then []
      else if GetOr(params, "order_direction", JStr("asc")) == JStr("asc") then [Order(column, false)]
      else [Order(column, true)]
  }

  /** `isinstance(v, int) and v > 0`; a bool is an int in Python, so `true` passes. */
  predicate PositiveInt(v: Json) {
    (v.JInt? && v.i > 0) || v == JBool(true)
  }

  /** The limit call: present only for a positive integer `limit`. */
  function LimitCalls(params: seq<(string, Json)>): (r: seq<Call>)
    ensures |r| <= 1
    ensures |r| == 1 <==> PositiveInt(GetOr(params, "limit", JNull))
    ensures |r| == 1 ==> r[0] == Limit(GetOr(params, "limit", JNull))
  {
    var limit := GetOr(params, "limit", JNull);
    if PositiveInt(limit) then [Limit(limit)] else []
  }

  /** The parameters cannot be compiled: not a dict, filters not iterable, or a filter that is not a dict. */
  predicate Malformed(params: Json) {
    !params.JObj?
    || FilterItems(GetOr(params.fields, "filters", JArr([]))).Raised?
    || !AllObjects(FilterItems(GetOr(params.fields, "filters", JArr([]))).value)
  }

  /** The first two calls of every query: the products table, then the selection ("*" when absent). */
  function Head(params: seq<(string, Json)>): seq<Call> {
    [From("products"), Select(GetOr(params, "select", JStr("*")))]
  }

  /** `execute_supabase_query` up to the execution: the calls the builder records, or the error raised while building. */
  function CompileQuery(params: Json): Result<seq<Call>> {
    if !params.JObj? then Raised(NoGet(params))
    else
      var fields := params.fields;
      match FilterItems(GetOr(fields, "filters", JArr([])))
      case Raised(m) => Raised(m)
      case Ok(items) =>
        match FilterCalls(items)
        case Raised(m) => Raised(m)
        case Ok(filters) => Ok(Head(fields) + filters + OrderCalls(fields) + LimitCalls(fields))
  }

  /** The stage of building a call belongs to. */
  function Stage(c: Call): nat {
    match c
    case From(_) => 0
    case Select(_) => 1
    case Filter(_, _, _) => 2
    case Order(_, _) => 3
    case Limit(_) => 4
  }

  /** Calls are recorded stage by stage: the table, the selection, filters, ordering, limit. */
  predicate InBuilderOrder(calls: seq<Call>) {
    forall i, j :: 0 <= i < j < |calls| ==> Stage(calls[i]) <= Stage(calls[j])
  }

  predicate AtMostStage(calls: seq<Call>, n: nat) {
    forall k :: 0 <= k < |calls| ==> Stage(calls[k]) <= n
  }

  predicate AllStage(calls: seq<Call>, n: nat) {
    forall k :: 0 <= k < |calls| ==> Stage(calls[k]) == n
  }

  /** Appending calls of one stage to calls of no later stage keeps the builder order. */
  lemma OrderedAppend(a: seq<Call>, b: seq<Call>, n: nat)
    requires InBuilderOrder(a) && AtMostStage(a, n) && AllStage(b, n)
    ensures InBuilderOrder(a + b) && AtMostStage(a + b, n)
  {
    assert forall k :: 0 <= k < |a| ==> (a + b)[k] == a[k];
    assert forall k :: |a| <= k < |a + b| ==> (a + b)[k] == b[k - |a|];
  }

  /** A compiled query is the head, the filters' calls, the order call if any and the limit call if any. */
  lemma CompiledParts(params: Json)
    requires CompileQuery(params).Ok?
    ensures params.JObj? && AllObjects(FilterItems(GetOr(params.fields, "filters", JArr([]))).value)
    ensures CompileQuery(params).value
      == Head(params.fields) + Emitted(FilterItems(GetOr(params.fields, "filters", JArr([]))).value)
         + OrderCalls(params.fields) + LimitCalls(params.fields)
  {
  }

  /** `calls` is `head`, then only filter calls, then at most one order call, then at most one limit call. */
  ghost predicate Staged(calls: seq<Call>, head: seq<Call>) {
    exists filters, order, limit ::
      calls == head + filters + order + limit
      && AllStage(filters, 2) && AllStage(order, 3) && AllStage(limit, 4)
      && |order| <= 1 && |limit| <= 1
  }

  lemma StagedIntro(head: seq<Call>, filters: seq<Call>, order: seq<Call>, limit: seq<Call>)
    requires AllStage(filters, 2) && AllStage(order, 3) && AllStage(limit, 4)
    requires |order| <= 1 && |limit| <= 1
    ensures Staged(head + filters + order + limit, head)
  {
  }

  /**
   * The shape of every compiled query: `From("products")`, the selection
   * (default "*"), then only filter calls, then at most one order call, then
   * at most one limit call.
   */
  lemma CompileQueryShape(params: Json)
    requires CompileQuery(params).Ok?
    ensures params.JObj? && Staged(CompileQuery(params).value, Head(params.fields))
  {
    CompiledParts(params);
    var fields := params.fields;
    var items := FilterItems(GetOr(fields, "filters", JArr([]))).value;
    EmittedAreFilters(items);
    StagedIntro(Head(fields), Emitted(items), OrderCalls(fields), LimitCalls(fields));
  }

  /** The calls of a compiled query follow the builder's stages. */
  lemma CompileQueryInOrder(params: Json)
    requires CompileQuery(params).Ok?
    ensures InBuilderOrder(CompileQuery(params).value)
  {
    CompiledParts(params);
    var fields := params.fields;
    var items := FilterItems(GetOr(fields, "filters", JArr([]))).value;
    EmittedAreFilters(items);
    StagesInOrder(Head(fields), Emitted(items), OrderCalls(fields), LimitCalls(fields));
  }

  /** The head, then filters, then an order, then a limit, are in builder order. */
  lemma StagesInOrder(head: seq<Call>, filters: seq<Call>, order: seq<Call>, limit: seq<Call>)
    requires |head| == 2 && head[0].From? && head[1].Select?
    requires forall k :: 0 <= k < |filters| ==> filters[k].Filter?
    requires AllStage(order, 3) && AllStage(limit, 4)
    ensures InBuilderOrder(head + filters + order + limit)
  {
    assert InBuilderOrder(head) && AtMostStage(head, 2);
    OrderedAppend(head, filters, 2);
    OrderedAppend(head + filters, order, 3);
    OrderedAppend(head + filters + order, limit, 4);
  }

  /** Compilation raises exactly on malformed parameters. */
  lemma CompileRaisesIffMalformed(params: Json)
    ensures CompileQuery(params).Raised? <==> Malformed(params)
  {
  }

  /** The fallback parameters select every column of the products table and nothing more. */
  lemma DefaultParamsCompile()
    ensures CompileQuery(DefaultParams) == Ok([From("products"), Select(JStr("*"))])
  {
    var fields := DefaultParams.fields;
    assert fields[..1] == [fields[0]];
    assert fields[..1][..0] == [];
    assert GetOr(fields, "filters", JArr([])) == JArr([]);
    assert GetOr(fields, "select", JStr("*")) == JStr("*");
    assert Lookup(fields, "order").None?;
    assert Lookup(fields, "limit").None?;
    assert OrderCalls(fields) == [] && LimitCalls(fields) == [];
    assert FilterItems(JArr([])) == Ok([]) && FilterCalls([]) == Ok([]);
    assert Head(fields) + [] + [] + [] == [From("products"), Select(JStr("*"))];
  }

  /** `execute_supabase_query`: the client is created, the query built and run. */
  function Execute(params: Json, connect: Result<()>, run: seq<Call> -> Result<Json>): Result<Json> {
    if connect.Raised? then Raised(connect.message)
    else
      match CompileQuery(params)
      case Raised(m) => Raised(m)
      case Ok(calls) => run(calls)
  }

  /**
   * `execute_supabase_query` as the source writes it: the builder is
   * reassigned call by call while the loop walks the filters.
   */
  method ExecuteSupabaseQuery(params: Json, connect: Result<()>, run: seq<Call> -> Result<Json>) returns (data: Result<Json>)
    ensures data == Execute(params, connect, run)
  {
    if connect.Raised? {
      return Raised(connect.message);
    }
    if !params.JObj? {
      return Raised(NoGet(params));
    }
    var fields := params.fields;
    var query := [From("products")];
    query := query + [Select(GetOr(fields, "select", JStr("*")))];
    var iterated := FilterItems(GetOr(fields, "filters", JArr([])));
    if iterated.Raised? {
      return Raised(iterated.message);
    }
    var items := iterated.value;
    var i := 0;
    while i < |items|
      invariant 0 <= i <= |items|
      invariant AllObjects(items[..i])
      invariant query == Head(fields) + Emitted(items[..i])
    {
      if !items[i].JObj? {
        FilterCallsRaiseAt(items, i);
        return Raised(NoGet(items[i]));
      }
      AppendOne(items, i);
      query := AddFilter(query, items[i].fields);
      i := i + 1;
    }
    assert items[..i] == items;
    query := AddOrder(query, fields);
    query := AddLimit(query, fields);
    data := run(query);
  }

  /** The body of the filter loop for one filter dict. */
  method AddFilter(query: seq<Call>, filter: seq<(string, Json)>) returns (next: seq<Call>)
    ensures next == query + FilterCall(filter)
  {
    var column := GetOr(filter, "column", JNull);
    var operator := GetOr(filter, "operator", JNull);
    var value := GetOr(filter, "value", JNull);
    next := query;
    if !(Truthy(column) && Truthy(operator) && value != JNull) {
      return;
    }
    if operator == JStr("eq") {
      next := query + [Filter(Eq, column, value)];
    } else if operator == JStr("neq") {
      next := query + [Filter(Neq, column, value)];
    } else if operator == JStr("gt") {
      next := query + [Filter(Gt, column, value)];
    } else if operator == JStr("lt") {
      next := query + [Filter(Lt, column, value)];
    } else if operator == JStr("gte") {
      next := query + [Filter(Gte, column, value)];
    } else if operator == JStr("lte") {
      next := query + [Filter(Lte, column, value)];
    } else if operator == JStr("like") {
      next := query + [Filter(Like, column, JStr("%" + Display(value) + "%"))];
    } else if operator == JStr("ilike") {
      next := query + [Filter(Ilike, column, JStr("%" + Display(value) + "%"))];
    }
  }

  /** The ordering step. */
  method AddOrder(query: seq<Call>, params: seq<(string, Json)>) returns (next: seq<Call>)
    ensures next == query + OrderCalls(params)
  {
    next := query;
    var order := Lookup(params, "order");
    if order.Some? && Truthy(order.value) {
      var direction := GetOr(params, "order_direction", JStr("asc"));
      if direction == JStr("asc") {
        next := query + [Order(order.value, false)];
      } else {
        next := query + [Order(order.value, true)];
      }
    }
  }

  /** The limit step. */
  method AddLimit(query: seq<Call>, params: seq<(string, Json)>) returns (next: seq<Call>)
    ensures next == query + LimitCalls(params)
  {
    next := query;
    var limit := GetOr(params, "limit", JNull);
    if limit != JNull && (limit.JInt? || limit.JBool?) && (if limit.JBool? then limit.b else limit.i > 0) {
      next := query + [Limit(limit)];
    }
  }

  /** The error raised at the first item that is not a dict is the error of the whole loop. */
  lemma {:induction false} FilterCallsRaiseAt(items: seq<Json>, i: nat)
    requires i < |items| && AllObjects(items[..i]) && !items[i].JObj?
    ensures FilterCalls(items) == Raised(NoGet(items[i]))
  {
    if i > 0 {
      assert items[..i][0] == items[0];
      assert items[1..][..i - 1] == items[..i][1..];
      FilterCallsRaiseAt(items[1..], i - 1);
    }
  }

  /** One more filter dict adds its calls at the end. */
  lemma AppendOne(items: seq<Json>, i: nat)
    requires i < |items| && AllObjects(items[..i]) && items[i].JObj?
    ensures AllObjects(items[..i + 1])
    ensures Emitted(items[..i + 1]) == Emitted(items[..i]) + ItemCalls(items[i])
  {
    assert items[..i + 1] == items[..i] + [items[i]];
    EmittedAppend(items[..i], [items[i]]);
    assert [items[i]][1..] == [];
  }
}
