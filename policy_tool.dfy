/**
 * The policy tool: retrieve the policy passages closest to the question,
 * answer with a fixed sentence when there are none, otherwise ask the
 * language model with the passages as context, and fall back to the raw
 * passages when the model call fails. The retriever and the model are
 * parameters.
 */
module PolicyTool {
  import opened Outcomes
  import Text

  /** The answer when retrieval finds nothing. */
  const NothingFound := "I couldn't find any relevant policy information to answer your question."

  /** What precedes the raw passages when the model call fails. */
  const FallbackPrefix := "Based on our policies: "

  /** The separator between passages in the context. */
  const PassageSeparator := "\n\n"

  /** The external calls a lookup makes. */
  datatype Step = Retrieve(query: string) | Ask(query: string, context: string)

  /** The lookup's result (retrieval errors are not caught) and the calls made. */
  datatype Lookup = Lookup(answer: Result<string>, steps: seq<Step>)

  /** The passages' page contents joined into one context. */
  function Context(passages: seq<string>): string {
    Text.Join(passages, PassageSeparator)
  }

  /**
   * `policy_lookup`. `retrieve` returns the page contents of the retrieved
   * documents in rank order; `ask` is the model call on the question and
   * the context.
   */
  function PolicyLookup(query: string, retrieve: string -> Result<seq<string>>,
                        ask: (string, string) -> Result<string>): (r: Lookup)
    ensures 1 <= |r.steps| <= 2 && r.steps[0] == Retrieve(query)
    ensures retrieve(query).Raised? ==> r == Lookup(Raised(retrieve(query).message), [Retrieve(query)])
    ensures retrieve(query) == Ok([]) ==> r == Lookup(Ok(NothingFound), [Retrieve(query)])
    ensures retrieve(query).Ok? && retrieve(query).value != [] ==>
      var context := Context(retrieve(query).value);
      r.steps == [Retrieve(query), Ask(query, context)]
      && (ask(query, context).Ok? ==> r.answer == ask(query, context))
      && (ask(query, context).Raised? ==> r.answer == Ok(FallbackPrefix + context))
  {
    match retrieve(query)
    case Raised(m) => Lookup(Raised(m), [Retrieve(query)])
    case Ok(passages) =>
      if passages == [] then Lookup(Ok(NothingFound), [Retrieve(query)])
      else
        var context := Context(passages);
        match ask(query, context)
        case Ok(content) => Lookup(Ok(content), [Retrieve(query), Ask(query, context)])
        case Raised(_) => Lookup(Ok(FallbackPrefix + context), [Retrieve(query), Ask(query, context)])
  }

  /** The model is asked only when retrieval found something. */
  lemma AskedIffFound(query: string, retrieve: string -> Result<seq<string>>, ask: (string, string) -> Result<string>)
    ensures (exists k :: 0 <= k < |PolicyLookup(query, retrieve, ask).steps| && PolicyLookup(query, retrieve, ask).steps[k].Ask?)
            <==> retrieve(query).Ok? && retrieve(query).value != []
  {
    var r := PolicyLookup(query, retrieve, ask);
    if retrieve(query).Ok? && retrieve(query).value != [] {
      assert r.steps[1].Ask?;
    }
  }

  /**
   * The context is the passages in retrieval order with "\n\n" between each
   * two: each passage stands whole at its offset, the separator follows every
   * passage but the last, the next passage starts right after it, and the
   * context ends with the last passage.
   */
  lemma ContextHoldsPassages(passages: seq<string>, k: nat)
    requires k < |passages|
    ensures Text.ContainsAt(Context(passages), passages[k], Text.Offset(passages, PassageSeparator, k))
    ensures k + 1 < |passages| ==>
      Text.ContainsAt(Context(passages), PassageSeparator, Text.Offset(passages, PassageSeparator, k) + |passages[k]|)
      && Text.Offset(passages, PassageSeparator, k + 1) == Text.Offset(passages, PassageSeparator, k) + |passages[k]| + 2
    ensures k + 1 == |passages| ==> |Context(passages)| == Text.Offset(passages, PassageSeparator, k) + |passages[k]|
    ensures forall m :: k < m <= |passages| ==>
      Text.Offset(passages, PassageSeparator, k) + |passages[k]| + 2 <= Text.Offset(passages, PassageSeparator, m)
  {
    Text.JoinPlaces(passages, PassageSeparator, k);
    if k + 1 < |passages| {
      Text.JoinSeparator(passages, PassageSeparator, k);
    } else {
      Text.JoinLength(passages, PassageSeparator);
    }
    forall m | k < m <= |passages|
      ensures Text.Offset(passages, PassageSeparator, k) + |passages[k]| + 2 <= Text.Offset(passages, PassageSeparator, m)
    {
      Text.OffsetsOrdered(passages, PassageSeparator, k, m);
    }
  }

  /** When the model fails, the answer still carries every passage, after the fixed prefix. */
  lemma FallbackHoldsPassages(query: string, retrieve: string -> Result<seq<string>>, ask: (string, string) -> Result<string>, k: nat)
    requires retrieve(query).Ok? && k < |retrieve(query).value|
    requires ask(query, Context(retrieve(query).value)).Raised?
    ensures PolicyLookup(query, retrieve, ask).answer.Ok?
    ensures Text.Contains(PolicyLookup(query, retrieve, ask).answer.value, retrieve(query).value[k])
  {
    var passages := retrieve(query).value;
    var context := Context(passages);
    var o := Text.Offset(passages, PassageSeparator, k);
    Text.JoinPlaces(passages, PassageSeparator, k);
    assert Text.Contains(context, passages[k]) by {
      assert o <= |context| && Text.ContainsAt(context, passages[k], o);
    }
    Text.ContainsWithin(FallbackPrefix, context, "", passages[k]);
    assert FallbackPrefix + context + "" == FallbackPrefix + context;
  }
}
