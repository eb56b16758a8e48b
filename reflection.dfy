/**
 * The reflection agent: a greeting for an empty exchange, otherwise a bounded
 * loop that asks the language model for an answer and then asks it whether
 * that answer meets the guidelines, stopping at the first verdict that says
 * YES. The model is a parameter: `llm(prompt, n)` is the reply to the `n`-th
 * call (counted from 0), so different calls may answer differently.
 */
module Reflection {
  import opened Outcomes
  import Text

  /** The reply to an empty exchange. */
  const Greeting := "Hello! I can help with product information and company policies. What would you like to know?"

  /** The number of rounds when the caller does not say. */
  const DefaultMaxIterations := 3

  /** A previous context shorter than this still counts as an empty exchange. */
  const ShortContext := 50

  /** The review question put before the candidate answer. */
  const ReviewQuestion := "Does the following response meet the guidelines (concise, relevant, persuasive if needed, no extra greetings)? Answer YES or NO.\n\nResponse:\n"

  /** Both outputs are empty and the previous context is empty or short. */
  predicate IsGreeting(db: string, policy: string, context: string) {
    db == [] && policy == [] && (context == [] || |context| < ShortContext)
  }

  /**
   * A prompt sent to the model: the answer template filled with the three
   * inputs, or the review of a candidate, whose text is `ReviewQuestion`
   * followed by the candidate.
   */
  datatype Prompt = Compose(db: string, policy: string, context: string) | Review(candidate: string)

  /** The text of a review prompt. */
  function ReviewText(p: Prompt): string
    requires p.Review?
  {
    ReviewQuestion + p.candidate
  }

  /**
   * The review prompt's text is the fixed question and then the candidate, and
   * two review prompts have the same text exactly when they carry the same
   * candidate, so `Review(candidate)` stands for the text without loss.
   */
  lemma ReviewTextFaithful(p: Prompt, q: Prompt)
    requires p.Review? && q.Review?
    ensures Text.ContainsAt(ReviewText(p), p.candidate, |ReviewQuestion|)
    ensures |ReviewText(p)| == |ReviewQuestion| + |p.candidate|
    ensures ReviewText(p) == ReviewText(q) <==> p == q
  {
    assert ReviewText(p)[|ReviewQuestion|..] == p.candidate;
    assert ReviewText(q)[|ReviewQuestion|..] == q.candidate;
  }

  /** A verdict accepts when its upper-cased text contains "YES" (see `AcceptsIffYes`). */
  predicate Accepts(verdict: string) {
    HasYes(Text.Upper(verdict))
  }

  /** "YES" occurs in `s`, searched for from the front. */
  predicate HasYes(s: string) {
    |s| >= 3 && (s[..3] == "YES" || HasYes(s[1..]))
  }

  /** The search finds "YES" exactly when it occurs somewhere. */
  lemma {:induction false} HasYesContains(s: string)
    ensures HasYes(s) <==> Text.Contains(s, "YES")
    decreases |s|
  {
    if |s| >= 3 {
      HasYesContains(s[1..]);
      Text.ContainsShift(s, "YES");
    }
  }

  /** `"YES" in evaluation.content.upper()`. */
  lemma AcceptsIffYes(verdict: string)
    ensures Accepts(verdict) <==> Text.Contains(Text.Upper(verdict), "YES")
  {
    HasYesContains(Text.Upper(verdict));
  }

  /** The agent's result (an exception from the model is not caught) and the prompts it sent, in order. */
  datatype Run = Run(reply: Result<string>, prompts: seq<Prompt>)

  /** The rounds from round `i` on, out of `n`, with `response` the latest candidate. */
  function Iterate(db: string, policy: string, context: string, llm: (Prompt, nat) -> Result<string>,
                   i: nat, n: nat, response: string): Run
    decreases n - i
  {
    if i >= n then Run(Ok(response), [])
    else
      var formatted := Compose(db, policy, context);
      match llm(formatted, 2 * i)
      case Raised(m) => Run(Raised(m), [formatted])
      case Ok(candidate) =>
        var check := Review(candidate);
        match llm(check, 2 * i + 1)
        case Raised(m) => Run(Raised(m), [formatted, check])
        case Ok(verdict) =>
          if Accepts(verdict) then Run(Ok(candidate), [formatted, check])
          else
            var rest := Iterate(db, policy, context, llm, i + 1, n, candidate);
            Run(rest.reply, [formatted, check] + rest.prompts)
  }

  /** `reflection_agent`; a count of 0 or less runs no round. */
  function Reflect(db: string, policy: string, context: string, maxIterations: int,
                   llm: (Prompt, nat) -> Result<string>): Run {
    if IsGreeting(db, policy, context) then Run(Ok(Greeting), [])
    else Iterate(db, policy, context, llm, 0, if maxIterations > 0 then maxIterations else 0, "")
  }

  /** One round of `Iterate`, spelled out for the loop that performs it. */
  lemma IterateRound(db: string, policy: string, context: string, llm: (Prompt, nat) -> Result<string>,
                     i: nat, n: nat, response: string)
    requires i < n
    ensures var formatted := Compose(db, policy, context);
      var generated := llm(formatted, 2 * i);
      var run := Iterate(db, policy, context, llm, i, n, response);
      (generated.Raised? ==> run == Run(Raised(generated.message), [formatted]))
      && (generated.Ok? ==>
            var check := Review(generated.value);
            var verdict := llm(check, 2 * i + 1);
            (verdict.Raised? ==> run == Run(Raised(verdict.message), [formatted, check]))
            && (verdict.Ok? && Accepts(verdict.value) ==> run == Run(Ok(generated.value), [formatted, check]))
            && (verdict.Ok? && !Accepts(verdict.value) ==>
                  run.reply == Iterate(db, policy, context, llm, i + 1, n, generated.value).reply
                  && run.prompts == [formatted, check] + Iterate(db, policy, context, llm, i + 1, n, generated.value).prompts))
  {
  }

  /** `reflection_agent` as the source writes it: a `for` loop that keeps the latest candidate and breaks on YES. */
  method ReflectionAgent(db: string, policy: string, context: string, maxIterations: int,
                         llm: (Prompt, nat) -> Result<string>) returns (reply: Result<string>, prompts: seq<Prompt>)
    ensures Run(reply, prompts) == Reflect(db, policy, context, maxIterations, llm)
  {
    prompts := [];
    if IsGreeting(db, policy, context) {
      return Ok(Greeting), prompts;
    }
    var n: nat := if maxIterations > 0 then maxIterations else 0;
    var response := "";
    ghost var whole := Reflect(db, policy, context, maxIterations, llm);
    assert whole == Iterate(db, policy, context, llm, 0, n, response);
    for i := 0 to n
      invariant |prompts| == 2 * i
      invariant whole.reply == Iterate(db, policy, context, llm, i, n, response).reply
      invariant whole.prompts == prompts + Iterate(db, policy, context, llm, i, n, response).prompts
    {
      IterateRound(db, policy, context, llm, i, n, response);
      ghost var rest := Iterate(db, policy, context, llm, i, n, response);
      ghost var before := prompts;
      var formatted := Compose(db, policy, context);
      var generated := llm(formatted, |prompts|);
      prompts := prompts + [formatted];
      if generated.Raised? {
        return Raised(generated.message), prompts;
      }
      var candidate := generated.value;
      var check := Review(candidate);
      var verdict := llm(check, |prompts|);
      prompts := prompts + [check];
      assert prompts == before + [formatted, check];
      if verdict.Raised? {
        return Raised(verdict.message), prompts;
      }
      response := candidate;
      if Accepts(verdict.value) {
        break;
      }
      Text.Assoc(before, [formatted, check], Iterate(db, policy, context, llm, i + 1, n, response).prompts);
    }
    reply := Ok(response);
  }

  /** The reply to the generation call of round `j`. */
  function Candidate(db: string, policy: string, context: string, llm: (Prompt, nat) -> Result<string>, j: nat): Result<string> {
    llm(Compose(db, policy, context), 2 * j)
  }

  /** The reply to the review call of round `j`. */
  function Verdict(db: string, policy: string, context: string, llm: (Prompt, nat) -> Result<string>, j: nat): Result<string>
    requires Candidate(db, policy, context, llm, j).Ok?
  {
    llm(Review(Candidate(db, policy, context, llm, j).value), 2 * j + 1)
  }

  /**
   * Prompts sent from round `i` on alternate: the same filled template each
   * round, then the review of the candidate that round produced.
   */
  ghost predicate Alternates(db: string, policy: string, context: string, llm: (Prompt, nat) -> Result<string>,
                             i: nat, ps: seq<Prompt>) {
    forall k :: 0 <= k < |ps| ==> PromptAt(db, policy, context, llm, i, k, ps[k])
  }

  /** The prompt at position `k` of the run's prompts from round `i` on. */
  ghost predicate PromptAt(db: string, policy: string, context: string, llm: (Prompt, nat) -> Result<string>,
                           i: nat, k: nat, p: Prompt) {
    (k % 2 == 0 ==> p == Compose(db, policy, context))
    && (k % 2 == 1 ==> Candidate(db, policy, context, llm, i + k / 2).Ok?
                       && p == Review(Candidate(db, policy, context, llm, i + k / 2).value))
  }

  /** A round's two prompts in front of an alternating tail keep the alternation. */
  lemma AlternatesCons(db: string, policy: string, context: string, llm: (Prompt, nat) -> Result<string>,
                       i: nat, rest: seq<Prompt>)
    requires Candidate(db, policy, context, llm, i).Ok?
    requires Alternates(db, policy, context, llm, i + 1, rest)
    ensures Alternates(db, policy, context, llm, i,
                       [Compose(db, policy, context), Review(Candidate(db, policy, context, llm, i).value)] + rest)
  {
    var ps := [Compose(db, policy, context), Review(Candidate(db, policy, context, llm, i).value)] + rest;
    forall k | 0 <= k < |ps|
      ensures PromptAt(db, policy, context, llm, i, k, ps[k])
    {
      if k >= 2 {
        assert ps[k] == rest[k - 2];
        assert PromptAt(db, policy, context, llm, i + 1, k - 2, rest[k - 2]);
        assert i + 1 + (k - 2) / 2 == i + k / 2;
        assert (k - 2) % 2 == k % 2;
      } else if k == 1 {
        assert i + k / 2 == i;
      }
    }
  }

  /** The prompts of rounds `i` and on alternate, and no round sends more than its two. */
  lemma {:induction false} IteratePrompts(db: string, policy: string, context: string,
                                          llm: (Prompt, nat) -> Result<string>, i: nat, n: nat, response: string)
    requires i <= n
    ensures var ps := Iterate(db, policy, context, llm, i, n, response).prompts;
      |ps| <= 2 * (n - i) && Alternates(db, policy, context, llm, i, ps)
    decreases n - i
  {
    if i < n {
      IterateRound(db, policy, context, llm, i, n, response);
      var formatted := Compose(db, policy, context);
      var generated := llm(formatted, 2 * i);
      var ps := Iterate(db, policy, context, llm, i, n, response).prompts;
      if generated.Raised? {
        assert ps == [formatted];
      } else {
        var check := Review(generated.value);
        var verdict := llm(check, 2 * i + 1);
        assert Candidate(db, policy, context, llm, i) == generated;
        if verdict.Ok? && !Accepts(verdict.value) {
          IteratePrompts(db, policy, context, llm, i + 1, n, generated.value);
          AlternatesCons(db, policy, context, llm, i, Iterate(db, policy, context, llm, i + 1, n, generated.value).prompts);
        } else {
          assert ps == [formatted, check];
          assert i + 1 / 2 == i;
        }
      }
    }
  }

  /**
   * A run of rounds `i` and on that ends without an exception made `m` whole
   * rounds: every one but the last was rejected, the last was accepted or was
   * the final round, and the reply is its candidate (or `response` when no
   * round ran).
   */
  lemma {:induction false} IterateOutcome(db: string, policy: string, context: string,
                                          llm: (Prompt, nat) -> Result<string>, i: nat, n: nat, response: string)
    requires i <= n
    requires Iterate(db, policy, context, llm, i, n, response).reply.Ok?
    ensures var run := Iterate(db, policy, context, llm, i, n, response);
      var m := |run.prompts| / 2;
      |run.prompts| % 2 == 0 && i + m <= n
      && (forall j :: i <= j < i + m ==>
            Candidate(db, policy, context, llm, j).Ok? && Verdict(db, policy, context, llm, j).Ok?
            && (j < i + m - 1 ==> !Accepts(Verdict(db, policy, context, llm, j).value)))
      && (m == 0 ==> i == n && run.reply == Ok(response))
      && (m > 0 ==> run.reply == Ok(Candidate(db, policy, context, llm, i + m - 1).value)
                    && (i + m == n || Accepts(Verdict(db, policy, context, llm, i + m - 1).value)))
    decreases n - i
  {
    if i < n {
      IterateRound(db, policy, context, llm, i, n, response);
      var generated := llm(Compose(db, policy, context), 2 * i);
      assert Candidate(db, policy, context, llm, i) == generated;
      var verdict := llm(Review(generated.value), 2 * i + 1);
      assert Verdict(db, policy, context, llm, i) == verdict;
      if !Accepts(verdict.value) {
        var rest := Iterate(db, policy, context, llm, i + 1, n, generated.value);
        IterateOutcome(db, policy, context, llm, i + 1, n, generated.value);
        var run := Iterate(db, policy, context, llm, i, n, response);
        assert |run.prompts| == 2 + |rest.prompts|;
        assert |run.prompts| / 2 == 1 + |rest.prompts| / 2;
      }
    }
  }

  /** An empty exchange gets the greeting and the model is never called. */
  lemma GreetingMakesNoCall(db: string, policy: string, context: string, maxIterations: int, llm: (Prompt, nat) -> Result<string>)
    requires IsGreeting(db, policy, context)
    ensures Reflect(db, policy, context, maxIterations, llm) == Run(Ok(Greeting), [])
  {
  }

  /** Empty outputs with a previous context of 50 characters or more do go to the model. */
  lemma LongContextIsAnswered(context: string, maxIterations: int, llm: (Prompt, nat) -> Result<string>)
    requires |context| >= ShortContext && maxIterations > 0
    ensures var run := Reflect("", "", context, maxIterations, llm);
      |run.prompts| >= 1 && run.prompts[0] == Compose("", "", context)
  {
  }

  /** Without the greeting and with no round to run, the reply is the empty string. */
  lemma NoRoundsGiveEmpty(db: string, policy: string, context: string, maxIterations: int, llm: (Prompt, nat) -> Result<string>)
    requires !IsGreeting(db, policy, context) && maxIterations <= 0
    ensures Reflect(db, policy, context, maxIterations, llm) == Run(Ok(""), [])
  {
  }

  /**
   * At most `maxIterations` generation calls, each followed by one review of
   * the candidate it produced; every generation uses the same prompt.
   */
  lemma ReflectPrompts(db: string, policy: string, context: string, maxIterations: int, llm: (Prompt, nat) -> Result<string>)
    ensures var ps := Reflect(db, policy, context, maxIterations, llm).prompts;
      |ps| <= 2 * (if maxIterations > 0 then maxIterations else 0) && Alternates(db, policy, context, llm, 0, ps)
  {
    if !IsGreeting(db, policy, context) {
      IteratePrompts(db, policy, context, llm, 0, if maxIterations > 0 then maxIterations else 0, "");
    }
  }

  /**
   * When no call raises and the greeting is not taken, the loop stops after
   * the first accepted round, or after the last round, and the reply is the
   * candidate of the round it stopped at.
   */
  lemma ReflectOutcome(db: string, policy: string, context: string, maxIterations: int, llm: (Prompt, nat) -> Result<string>)
    requires !IsGreeting(db, policy, context) && maxIterations > 0
    requires Reflect(db, policy, context, maxIterations, llm).reply.Ok?
    ensures var run := Reflect(db, policy, context, maxIterations, llm);
      var m := |run.prompts| / 2;
      1 <= m <= maxIterations
      && (forall j :: 0 <= j < m ==>
            Candidate(db, policy, context, llm, j).Ok? && Verdict(db, policy, context, llm, j).Ok?
            && (j < m - 1 ==> !Accepts(Verdict(db, policy, context, llm, j).value)))
      && run.reply == Ok(Candidate(db, policy, context, llm, m - 1).value)
      && (m == maxIterations || Accepts(Verdict(db, policy, context, llm, m - 1).value))
  {
    IterateOutcome(db, policy, context, llm, 0, maxIterations, "");
  }
}
