/**
 * The head agent: a classifier model picks which sub-agents a question
 * needs, those sub-agents answer, and the reflection agent turns their
 * outputs into the reply. Any exception on the way gives one fixed apology.
 */
module HeadAgent {
  import opened Outcomes
  import Text
  import Reflection

  /** The three routes, in the order the validation lists them. */
  const Routes: seq<string> := ["policy", "database", "both"]

  /** The route taken when the classifier's reply is none of the three. */
  const DefaultRoute := "both"

  const Fallback := "I'm not sure how to answer that. Could you rephrase your question?"

  /** How the classifier's reply becomes a route: stripped, lower-cased, and kept only if it names one. */
  function Normalise(content: string): (route: string)
    ensures route in Routes
    ensures Text.Lower(Text.Strip(content)) in Routes ==> route == Text.Lower(Text.Strip(content))
    ensures Text.Lower(Text.Strip(content)) !in Routes ==> route == DefaultRoute
  {
    var t := Text.Lower(Text.Strip(content));
    if t in Routes then t else DefaultRoute
  }

  /** Each route is its own stripped, lower-cased form. */
  lemma RouteFixed(route: string)
    requires route in Routes
    ensures Text.Lower(Text.Strip(route)) == route
  {
    if route == "policy" {
      LowerWordFixed("policy");
    } else if route == "database" {
      LowerWordFixed("database");
    } else {
      LowerWordFixed("both");
    }
  }

  /** A word of lower-case ASCII letters is unchanged by stripping and lower-casing. */
  lemma LowerWordFixed(word: string)
    requires forall k :: 0 <= k < |word| ==> 'a' <= word[k] <= 'z'
    ensures Text.Lower(Text.Strip(word)) == word
  {
    assert word == [] + word + [];
    Text.StripUnique(word, [], word, []);
    Text.LowerFixed(word);
  }

  /** A route already normalised is left as it is. */
  lemma NormaliseIdempotent(content: string)
    ensures Normalise(Normalise(content)) == Normalise(content)
  {
    RouteFixed(Normalise(content));
  }

  /** Whitespace around the classifier's reply does not change the route. */
  lemma NormalisePadded(pre: string, content: string, post: string)
    requires Text.AllSpace(pre) && Text.AllSpace(post)
    ensures Normalise(pre + content + post) == Normalise(content)
  {
    Text.StripPadded(pre, content, post);
  }

  /** The case of the classifier's reply does not change the route. */
  lemma NormaliseIgnoresCase(content: string)
    ensures Normalise(Text.Lower(content)) == Normalise(content)
  {
    Text.StripLower(content);
    Text.LowerIdempotent(Text.Strip(content));
  }

  /** A reply of " Policy" and a newline routes to the policy agent. */
  lemma PaddedCapitalisedPolicy()
    ensures Normalise(" Policy\n") == "policy"
  {
    StripPolicy();
    LowerPolicy();
  }

  lemma StripPolicy()
    ensures Text.Strip(" Policy\n") == "Policy"
  {
    var word := "Policy";
    assert " Policy\n" == " " + word + "\n";
    assert word == [] + word + [];
    Text.StripUnique(" Policy\n", " ", word, "\n");
  }

  lemma LowerPolicy()
    ensures Text.Lower("Policy") == "policy"
  {
    assert "Policy" == "P" + "olicy";
    Text.LowerAppend("P", "olicy");
    Text.LowerFixed("olicy");
    assert Text.Lower("P") == "p";
  }

  /** `determine_agent`: the classifier's reply to the question, normalised; its exception is not caught here. */
  function DetermineAgent(query: string, classify: string -> Result<string>): (r: Result<string>)
    ensures r.Ok? <==> classify(query).Ok?
    ensures r.Ok? ==> r.value in Routes && r.value == Normalise(classify(query).value)
    ensures r.Raised? ==> r.message == classify(query).message
  {
    match classify(query)
    case Raised(m) => Raised(m)
    case Ok(content) => Ok(Normalise(content))
  }

  /** The calls the head agent makes, in order. */
  datatype Call =
    | Classify(query: string)
    | AskDatabase(query: string)
    | AskPolicy(query: string)
    | Refine(db: string, policy: string, context: string)

  /** The models and sub-agents the head agent calls; each may raise. */
  datatype Agents = Agents(
    classify: string -> Result<string>,
    database: string -> Result<string>,
    policy: string -> Result<string>,
    refine: (Reflection.Prompt, nat) -> Result<string>)

  /** The sub-agents' outputs (database first, then policy), or the first exception, with the calls made. */
  datatype Gathered = Gathered(outputs: Result<(string, string)>, calls: seq<Call>)

  /** The reply of one turn and the calls it made. */
  datatype Turn = Turn(reply: string, calls: seq<Call>)

  /** The sub-agents a route calls: the database agent unless the route is "policy", then the policy agent unless it is "database". */
  function Gather(route: string, query: string, a: Agents): (g: Gathered)
    requires route in Routes
    ensures 1 <= |g.calls| <= 2
    ensures (AskDatabase(query) in g.calls) <==> route != "policy"
    ensures (AskPolicy(query) in g.calls) <==> (route == "policy" || (route == "both" && a.database(query).Ok?))
    ensures route != "policy" ==> g.calls[0] == AskDatabase(query)
    ensures forall c :: c in g.calls ==> c == AskDatabase(query) || c == AskPolicy(query)
    ensures Distinct(g.calls)
    ensures g.outputs.Ok? <==> (AskDatabase(query) in g.calls ==> a.database(query).Ok?)
                               && (AskPolicy(query) in g.calls ==> a.policy(query).Ok?)
    ensures g.outputs.Ok? ==> (route == "policy" ==> g.outputs.value.0 == "")
                              && (route == "database" ==> g.outputs.value.1 == "")
                              && (route != "policy" ==> a.database(query) == Ok(g.outputs.value.0))
                              && (route != "database" ==> a.policy(query) == Ok(g.outputs.value.1))
  {
    if route == "database" then
      match a.database(query)
      case Raised(m) => Gathered(Raised(m), [AskDatabase(query)])
      case Ok(d) => Gathered(Ok((d, "")), [AskDatabase(query)])
    else if route == "policy" then
      match a.policy(query)
      case Raised(m) => Gathered(Raised(m), [AskPolicy(query)])
      case Ok(p) => Gathered(Ok(("", p)), [AskPolicy(query)])
    else
      match a.database(query)
      case Raised(m) => Gathered(Raised(m), [AskDatabase(query)])
      case Ok(d) =>
        match a.policy(query)
        case Raised(m) => Gathered(Raised(m), [AskDatabase(query), AskPolicy(query)])
        case Ok(p) => Gathered(Ok((d, p)), [AskDatabase(query), AskPolicy(query)])
  }

  /** No call occurs twice. */
  predicate Distinct(calls: seq<Call>) {
    forall i, j :: 0 <= i < j < |calls| ==> calls[i] != calls[j]
  }

  /** The context handed to reflection: the question, after the previous context and a space when there is one. */
  function ReflectionContext(query: string, previous: string): string {
    if previous == [] then query else previous + " " + query
  }

  /** The context ends with the question; a previous context comes first, then one space. */
  lemma ContextShape(query: string, previous: string)
    ensures var c := ReflectionContext(query, previous);
      |c| >= |query| && c[|c| - |query|..] == query
      && (previous == [] ==> c == query)
      && (previous != [] ==> |c| == |previous| + 1 + |query| && c[..|previous|] == previous && c[|previous|] == ' ')
  {
  }

  /** `head_agent`: one turn, with reflection run for its default number of rounds. */
  function Answer(query: string, previous: string, a: Agents): (t: Turn)
    ensures 1 <= |t.calls| <= 4 && t.calls[0] == Classify(query)
  {
    match DetermineAgent(query, a.classify)
    case Raised(_) => Turn(Fallback, [Classify(query)])
    case Ok(route) =>
      var g := Gather(route, query, a);
      match g.outputs
      case Raised(_) => Turn(Fallback, [Classify(query)] + g.calls)
      case Ok(outputs) =>
        var context := ReflectionContext(query, previous);
        var refined := Reflection.Reflect(outputs.0, outputs.1, context, Reflection.DefaultMaxIterations, a.refine);
        var calls := [Classify(query)] + g.calls + [Refine(outputs.0, outputs.1, context)];
        match refined.reply
        case Raised(_) => Turn(Fallback, calls)
        case Ok(reply) => Turn(reply, calls)
  }

  /** When the classifier raises, nothing else is called and the reply is the apology. */
  lemma ClassifierFailure(query: string, previous: string, a: Agents)
    requires a.classify(query).Raised?
    ensures Answer(query, previous, a) == Turn(Fallback, [Classify(query)])
  {
  }

  /** The calls of a turn whose classifier answered: the classification, the route's sub-agents, then at most reflection. */
  lemma AnswerCalls(query: string, previous: string, a: Agents)
    requires a.classify(query).Ok?
    ensures var g := Gather(Normalise(a.classify(query).value), query, a);
      var t := Answer(query, previous, a);
      1 + |g.calls| <= |t.calls| <= 2 + |g.calls| && t.calls[..1 + |g.calls|] == [Classify(query)] + g.calls
      && forall k :: 1 + |g.calls| <= k < |t.calls| ==> t.calls[k].Refine?
  {
    var route := Normalise(a.classify(query).value);
    assert DetermineAgent(query, a.classify) == Ok(route);
    var g := Gather(route, query, a);
    var head := [Classify(query)] + g.calls;
    var t := Answer(query, previous, a);
    if g.outputs.Raised? {
      assert t.calls == head;
    } else {
      var c := Refine(g.outputs.value.0, g.outputs.value.1, ReflectionContext(query, previous));
      assert t.calls == head + [c];
      assert t.calls[..|head|] == head;
    }
  }

  /** The database agent is called exactly when the route is not "policy"; likewise the policy agent, after it. */
  lemma RoutedAgents(query: string, previous: string, a: Agents)
    requires a.classify(query).Ok?
    ensures var t := Answer(query, previous, a);
      var route := Normalise(a.classify(query).value);
      t.calls[1] == (if route == "policy" then AskPolicy(query) else AskDatabase(query))
      && ((AskDatabase(query) in t.calls) <==> route != "policy")
      && ((AskPolicy(query) in t.calls) <==> (route == "policy" || (route == "both" && a.database(query).Ok?)))
      && Distinct(t.calls)
  {
    var g := Gather(Normalise(a.classify(query).value), query, a);
    var calls := Answer(query, previous, a).calls;
    AnswerCalls(query, previous, a);
    MemberBetween(AskDatabase(query), Classify(query), g.calls, calls);
    MemberBetween(AskPolicy(query), Classify(query), g.calls, calls);
    DistinctTurn(Classify(query), g.calls, calls);
  }

  /** A classification, distinct sub-agent calls and at most one reflection call make no repeated call. */
  lemma DistinctTurn(first: Call, middle: seq<Call>, calls: seq<Call>)
    requires first.Classify? && Distinct(middle)
    requires forall c :: c in middle ==> c.AskDatabase? || c.AskPolicy?
    requires 1 + |middle| <= |calls| <= 2 + |middle| && calls[..1 + |middle|] == [first] + middle
    requires forall k :: 1 + |middle| <= k < |calls| ==> calls[k].Refine?
    ensures Distinct(calls)
  {
    forall i, j | 0 <= i < j < |calls| ensures calls[i] != calls[j] {
      if j < 1 + |middle| {
        assert calls[i] == ([first] + middle)[i] && calls[j] == ([first] + middle)[j];
        if i > 0 {
          assert calls[i] == middle[i - 1] && calls[j] == middle[j - 1];
        } else {
          assert middle[j - 1] in middle;
        }
      } else if i == 0 {
        assert calls[0] == first;
      } else if i < 1 + |middle| {
        assert calls[i] == middle[i - 1];
        assert middle[i - 1] in middle;
      }
    }
  }

  /** A sub-agent call is in a turn's calls exactly when its route's part holds it. */
  lemma MemberBetween(c: Call, first: Call, middle: seq<Call>, calls: seq<Call>)
    requires c != first && !c.Refine?
    requires |calls| >= 1 + |middle| && calls[..1 + |middle|] == [first] + middle
    requires forall k :: 1 + |middle| <= k < |calls| ==> calls[k].Refine?
    ensures c in calls <==> c in middle
  {
    if c in calls {
      var k :| 0 <= k < |calls| && calls[k] == c;
      assert k < 1 + |middle|;
      assert calls[..1 + |middle|][k] == c;
      assert middle[k - 1] == c;
    }
    if c in middle {
      var k :| 0 <= k < |middle| && middle[k] == c;
      assert calls[..1 + |middle|][k + 1] == c;
    }
  }

  /** A sub-agent that raises ends the turn with the apology, before reflection. */
  lemma AgentFailure(query: string, previous: string, a: Agents)
    requires a.classify(query).Ok?
    requires var route := Normalise(a.classify(query).value);
      (route != "policy" && a.database(query).Raised?) || (route != "database" && a.policy(query).Raised?)
    ensures var t := Answer(query, previous, a);
      t.reply == Fallback && forall c :: c in t.calls ==> !c.Refine?
  {
  }

  /**
   * When the route's sub-agents answer, reflection gets their outputs (the
   * empty string for the agent not called) and the composed context, and
   * the reply is reflection's reply as it is, or the apology if it raised.
   */
  lemma RefinedReply(query: string, previous: string, a: Agents)
    requires a.classify(query).Ok?
    requires var route := Normalise(a.classify(query).value);
      (route != "policy" ==> a.database(query).Ok?) && (route != "database" ==> a.policy(query).Ok?)
    ensures var t := Answer(query, previous, a);
      var route := Normalise(a.classify(query).value);
      var db := if route == "policy" then "" else a.database(query).value;
      var policy := if route == "database" then "" else a.policy(query).value;
      var context := ReflectionContext(query, previous);
      var refined := Reflection.Reflect(db, policy, context, Reflection.DefaultMaxIterations, a.refine);
      t.calls[|t.calls| - 1] == Refine(db, policy, context)
      && t.reply == (if refined.reply.Ok? then refined.reply.value else Fallback)
  {
    var route := Normalise(a.classify(query).value);
    var db := if route == "policy" then "" else a.database(query).value;
    var policy := if route == "database" then "" else a.policy(query).value;
    assert DetermineAgent(query, a.classify) == Ok(route);
    assert Gather(route, query, a).outputs == Ok((db, policy));
  }
}
