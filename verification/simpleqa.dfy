/** The SimpleQA evaluation: choosing the examples, asking the model under test,
    grading every answer and aggregating the grades. */
module SimpleQA {
  import opened Wrappers
  import opened Classes
  import opened Sequences
  import opened GraderTemplate
  import opened Grading
  import opened Metrics

  /** One row of the question set: the question and its gold answer. */
  datatype Example = Example(problem: string, answer: string)

  /** The exception the constructor raises while choosing the examples. */
  datatype LoadError =
    | AssertionError  // a subsample was asked for together with repeats
    | ValueError      // `random.sample` was asked for a negative count or more rows than exist

  /** `if num_examples:` holds: a count is given and it is not zero. */
  predicate Subsampling(numExamples: Option<int>) {
    numExamples.Some? && numExamples.value != 0
  }

  /** `draw` is what `random.sample` picks when asked for `k` of `n` rows: `k` distinct
      positions among the `n`. */
  predicate IsDraw(draw: seq<nat>, k: int, n: nat) {
    |draw| == k && InRange(draw, n) && Distinct(draw)
  }

  /** The examples the evaluation runs on. With a non-zero `numExamples` the repeat count
      must be 1 and the rows at the positions `draw` are taken; otherwise every row is
      taken. Either way the list is then repeated `nRepeats` times. The seeded generator
      is not modelled: `draw` stands for the positions it picks. */
  function LoadExamples(rows: seq<Example>, numExamples: Option<int>, nRepeats: int, draw: seq<nat>)
    : (r: Result<seq<Example>, LoadError>)
    requires Subsampling(numExamples) && nRepeats == 1 && 0 <= numExamples.value <= |rows|
      ==> IsDraw(draw, numExamples.value, |rows|)
    ensures r.Success? <==>
      !Subsampling(numExamples) || (nRepeats == 1 && 0 <= numExamples.value <= |rows|)
    ensures Subsampling(numExamples) && nRepeats != 1 ==> r == Failure(AssertionError)
    ensures Subsampling(numExamples) && r.Failure? && nRepeats == 1 ==> r == Failure(ValueError)
    ensures !Subsampling(numExamples) ==> r.Success?
  {
    if Subsampling(numExamples) then
      if nRepeats != 1 then Failure(AssertionError)
      else if !(0 <= numExamples.value <= |rows|) then Failure(ValueError)
      else Success(Repeat(Pick(rows, draw), nRepeats))
    else Success(Repeat(rows, nRepeats))
  }

  /** Without a subsample, the examples are `nRepeats` copies of the rows in order:
      position `i` holds row `i % len(rows)`. */
  lemma LoadExamplesRepeats(rows: seq<Example>, numExamples: Option<int>, nRepeats: int, draw: seq<nat>)
    requires !Subsampling(numExamples)
    ensures LoadExamples(rows, numExamples, nRepeats, draw).Success?
    ensures var examples := LoadExamples(rows, numExamples, nRepeats, draw).value;
      && |examples| == (if nRepeats > 0 then nRepeats * |rows| else 0)
      && forall i :: 0 <= i < |examples| ==> |rows| > 0 && examples[i] == rows[i % |rows|]
  {
    var examples := Repeat(rows, nRepeats);
    RepeatLength(rows, nRepeats);
    forall i | 0 <= i < |examples|
      ensures |rows| > 0 && examples[i] == rows[i % |rows|]
    {
      RepeatIndex(rows, nRepeats, i);
    }
  }

  /** With a subsample, the examples are `numExamples` rows drawn without replacement:
      each is the row at its drawn position, and no row is taken more often than it
      occurs. */
  lemma LoadExamplesSample(rows: seq<Example>, numExamples: Option<int>, draw: seq<nat>)
    requires Subsampling(numExamples) && 0 <= numExamples.value <= |rows|
    requires IsDraw(draw, numExamples.value, |rows|)
    ensures LoadExamples(rows, numExamples, 1, draw).Success?
    ensures var examples := LoadExamples(rows, numExamples, 1, draw).value;
      && |examples| == numExamples.value
      && (forall i :: 0 <= i < |examples| ==> examples[i] == rows[draw[i]])
      && multiset(examples) <= multiset(rows)
  {
    var picked := Pick(rows, draw);
    RepeatSucc(picked, 1);
    assert Repeat(picked, 1) == picked;
    PickSubMultiset(rows, draw);
  }

  /** One entry of the list `generate_responses` builds. */
  datatype GeneratedResponse = GeneratedResponse(
    promptMessages: seq<Message>,
    problem: string,
    answer: string,
    response: string)

  /** The model under test answers one example, asked as a single user message. */
  function Respond(sampler: Sampler, ex: Example): GeneratedResponse {
    var promptMessages := [PackMessage("user", ex.problem)];
    GeneratedResponse(promptMessages, ex.problem, ex.answer, sampler(promptMessages))
  }

  /** `generate_responses` as a list comprehension. */
  function GenerateAll(sampler: Sampler, examples: seq<Example>): seq<GeneratedResponse> {
    Map(ex => Respond(sampler, ex), examples)
  }

  /** `generate_responses`: one entry per example, in order, each holding the question
      asked as one user message, the gold answer and the model's reply to that message. */
  method GenerateResponses(sampler: Sampler, examples: seq<Example>) returns (responses: seq<GeneratedResponse>)
    ensures |responses| == |examples|
    ensures forall i :: 0 <= i < |examples| ==>
      && responses[i].promptMessages == [Message("user", examples[i].problem)]
      && responses[i].problem == examples[i].problem
      && responses[i].answer == examples[i].answer
      && responses[i].response == sampler(responses[i].promptMessages)
    ensures responses == GenerateAll(sampler, examples)
  {
    responses := [];
    var i := 0;
    while i < |examples|
      invariant 0 <= i <= |examples|
      invariant responses == GenerateAll(sampler, examples[..i])
    {
      var ex := examples[i];
      var promptMessages := [PackMessage("user", ex.problem)];
      var response := sampler(promptMessages);
      responses := responses + [GeneratedResponse(promptMessages, ex.problem, ex.answer, response)];
      assert examples[..i + 1] == examples[..i] + [ex];
      i := i + 1;
    }
    assert examples[..i] == examples;
  }

  /** With a sampler that answers the same messages the same way, answering `n` copies of
      the examples gives `n` copies of the answers. */
  lemma GenerateRepeat(sampler: Sampler, examples: seq<Example>, n: int)
    ensures GenerateAll(sampler, Repeat(examples, n)) == Repeat(GenerateAll(sampler, examples), n)
  {
    MapRepeat(ex => Respond(sampler, ex), examples, n);
  }

  /** What a sample's HTML report is rendered from. */
  datatype ReportContext = ReportContext(
    promptMessages: seq<Message>,
    nextMessage: Message,
    score: bool,
    correctAnswer: string,
    extractedAnswer: string)

  /** The report template, as a function of what it shows. */
  type HtmlRenderer = ReportContext -> string

  /** The grade the grading model gives one generated response. */
  function Verdict(grader: Sampler, template: seq<Piece>, g: GeneratedResponse): (letter: char)
    requires UsesGraderFields(template)
    ensures IsGradeLetter(letter)
    ensures Format(template, GraderArgs(g.problem, g.answer, g.response)).Success?
    ensures letter == GradeLetter(grader([Message("user",
      Format(template, GraderArgs(g.problem, g.answer, g.response)).value)]))
  {
    GradeResponse(grader, template, g.problem, g.answer, g.response).letter
  }

  /** With the harness's own template, the grading model is asked the grading prompt for
      the question, the gold target and the response, in that order, and the verdict is
      the grade letter of its reply. */
  lemma VerdictAsksGraderPrompt(grader: Sampler, g: GeneratedResponse)
    ensures UsesGraderFields(GraderTemplatePieces)
    ensures Verdict(grader, GraderTemplatePieces, g)
      == GradeLetter(grader([Message("user", GraderPrompt(g.problem, g.answer, g.response))]))
  {
    GradeResponseAsksGraderPrompt(grader, g.problem, g.answer, g.response);
  }

  /** The per-sample step of `evaluate`: grade the response, record which of the three
      outcomes it is, score 1 exactly when correct, and keep the conversation with the
      reply appended as an assistant message. */
  function EvaluateOne(grader: Sampler, template: seq<Piece>, render: HtmlRenderer, g: GeneratedResponse)
    : (r: SingleEvalResult)
    requires UsesGraderFields(template)
    ensures IsOutcome(r.metrics)
    ensures r.metrics.Keys == {"is_correct", "is_incorrect", "is_not_attempted"}
    ensures var letter := Verdict(grader, template, g);
      && (r.metrics["is_correct"] == 1.0 <==> letter == 'A')
      && (r.metrics["is_incorrect"] == 1.0 <==> letter == 'B')
      && (r.metrics["is_not_attempted"] == 1.0 <==> letter == 'C')
    ensures r.score == Some(r.metrics["is_correct"])
    ensures r.convo == Some(g.promptMessages + [Message("assistant", g.response)])
    ensures r.html == Some(render(ReportContext(g.promptMessages, Message("assistant", g.response),
      Verdict(grader, template, g) == 'A', g.answer, g.response)))
  {
    var letter := Verdict(grader, template, g);
    var isCorrect := Indicator(letter == 'A');
    var isIncorrect := Indicator(letter == 'B');
    var isNotAttempted := Indicator(letter == 'C');
    var reply := Message("assistant", g.response);
    var html := render(ReportContext(g.promptMessages, reply, letter == 'A', g.answer, g.response));
    SingleEvalResult(
      Some(isCorrect),
      map["is_correct" := isCorrect, "is_incorrect" := isIncorrect, "is_not_attempted" := isNotAttempted],
      Some(html),
      Some(g.promptMessages + [reply]))
  }

  /** `map_with_progress(fn, responses)`, run one sample after another. */
  function EvaluateAll(grader: Sampler, template: seq<Piece>, render: HtmlRenderer, responses: seq<GeneratedResponse>)
    : (results: seq<SingleEvalResult>)
    requires UsesGraderFields(template)
    ensures |results| == |responses|
    ensures forall i :: 0 <= i < |responses| ==> results[i] == EvaluateOne(grader, template, render, responses[i])
    ensures AllOutcomes(results)
  {
    Map(g requires UsesGraderFields(template) => EvaluateOne(grader, template, render, g), responses)
  }

  /** The grades of all responses, in order. */
  function Verdicts(grader: Sampler, template: seq<Piece>, responses: seq<GeneratedResponse>): seq<char>
    requires UsesGraderFields(template)
  {
    Map(g requires UsesGraderFields(template) => Verdict(grader, template, g), responses)
  }

  /** How many times `c` occurs in `cs`. */
  function Count(cs: seq<char>, c: char): nat {
    if |cs| == 0 then 0
    else Count(cs[..|cs| - 1], c) + (if cs[|cs| - 1] == c then 1 else 0)
  }

  /** The metric that records grade `c`. */
  function MetricKey(c: char): string {
    if c == 'A' then "is_correct" else if c == 'B' then "is_incorrect" else "is_not_attempted"
  }

  /** The sum of a grade's metric over the evaluated samples is the number of samples
      given that grade. */
  lemma MetricSumCounts(grader: Sampler, template: seq<Piece>, render: HtmlRenderer,
                        responses: seq<GeneratedResponse>, c: char)
    requires UsesGraderFields(template) && IsGradeLetter(c)
    ensures HasMetric(EvaluateAll(grader, template, render, responses), MetricKey(c))
    ensures MetricSum(EvaluateAll(grader, template, render, responses), MetricKey(c))
      == Count(Verdicts(grader, template, responses), c) as real
  {
    var results := EvaluateAll(grader, template, render, responses);
    var vs := Verdicts(grader, template, responses);
    forall i | 0 <= i < |results|
      ensures IndicatesGrade(results[i].metrics, MetricKey(c), vs[i], c)
    {
      OutcomeKey(grader, template, render, responses[i], c);
    }
    IndicatorSumIsCount(results, vs, MetricKey(c), c);
  }

  /** The metric `key` of a result is 1 when its grade `v` is `c` and 0 otherwise. */
  predicate IndicatesGrade(m: map<string, real>, key: string, v: char, c: char) {
    key in m && m[key] == if v == c then 1.0 else 0.0
  }

  /** The metric of grade `c` is 1 for a response graded `c` and 0 otherwise. */
  lemma OutcomeKey(grader: Sampler, template: seq<Piece>, render: HtmlRenderer, g: GeneratedResponse, c: char)
    requires UsesGraderFields(template) && IsGradeLetter(c)
    ensures IndicatesGrade(EvaluateOne(grader, template, render, g).metrics, MetricKey(c),
      Verdict(grader, template, g), c)
  {
  }

  /** Summing a metric that indicates grade `c` counts the grades equal to `c`. */
  lemma {:induction false} IndicatorSumIsCount(results: seq<SingleEvalResult>, vs: seq<char>, key: string, c: char)
    requires |results| == |vs|
    requires forall i :: 0 <= i < |results| ==> IndicatesGrade(results[i].metrics, key, vs[i], c)
    ensures HasMetric(results, key)
    ensures MetricSum(results, key) == Count(vs, c) as real
    decreases |results|
  {
    if |results| > 0 {
      var n := |results| - 1;
      IndicatorSumIsCount(results[..n], vs[..n], key, c);
      assert IndicatesGrade(results[n].metrics, key, vs[n], c);
    }
  }

  /** The numbers `evaluate` computes: the per-sample results, the aggregate metrics and
      the `f1` score. */
  datatype Evaluation = Evaluation(results: seq<SingleEvalResult>, metrics: AggregateMetrics, f1: real)

  /** `evaluate`: grade every response, then aggregate. An empty list of responses
      divides by zero; otherwise every metric and the `f1` score lie in [0, 1]. */
  function Evaluate(grader: Sampler, template: seq<Piece>, render: HtmlRenderer, responses: seq<GeneratedResponse>)
    : (r: Result<Evaluation, AggregateError>)
    requires UsesGraderFields(template)
    ensures r.Success? <==> |responses| > 0
    ensures |responses| == 0 ==> r == Failure(ZeroDivisionError)
    ensures r.Success? ==> WithinBounds(r.value.metrics) && 0.0 <= r.value.f1 <= 1.0
    ensures r.Success? ==> r.value.results == EvaluateAll(grader, template, render, responses)
    ensures r.Success? ==> Aggregate(r.value.results) == Success(r.value.metrics)
    ensures r.Success? ==>
      r.value.f1 == F1(r.value.metrics.accuracyGivenAttempted, r.value.metrics.isCorrect)
  {
    var results := EvaluateAll(grader, template, render, responses);
    if |results| == 0 then
      Failure(ZeroDivisionError)
    else
      AggregateOutcomes(results);
      var m := Aggregate(results).value;
      Success(Evaluation(results, m, F1(m.accuracyGivenAttempted, m.isCorrect)))
  }

  /** The metrics count grades: each rate is the number of samples with that grade over
      the number of samples; the attempted rate and the accuracy among attempted
      answers follow from those rates. */
  lemma EvaluateCounts(grader: Sampler, template: seq<Piece>, render: HtmlRenderer, responses: seq<GeneratedResponse>)
    requires UsesGraderFields(template) && |responses| > 0
    ensures var vs := Verdicts(grader, template, responses);
      MeansOf(Evaluate(grader, template, render, responses).value.metrics,
        Count(vs, 'A') as real, Count(vs, 'B') as real, Count(vs, 'C') as real, |responses| as real)
  {
    var results := EvaluateAll(grader, template, render, responses);
    MetricSumCounts(grader, template, render, responses, 'A');
    MetricSumCounts(grader, template, render, responses, 'B');
    MetricSumCounts(grader, template, render, responses, 'C');
  }

  /** The accuracy among attempted answers is the number of `A` grades over the number of
      `A` and `B` grades, and 0 when there are none. */
  lemma EvaluateAccuracy(grader: Sampler, template: seq<Piece>, render: HtmlRenderer, responses: seq<GeneratedResponse>)
    requires UsesGraderFields(template) && |responses| > 0
    ensures var vs := Verdicts(grader, template, responses);
      AccuracyOfCounts(Evaluate(grader, template, render, responses).value.metrics.accuracyGivenAttempted,
        Count(vs, 'A') as real, Count(vs, 'B') as real)
  {
    var vs := Verdicts(grader, template, responses);
    EvaluateCounts(grader, template, render, responses);
    AttemptedAccuracy(Evaluate(grader, template, render, responses).value.metrics,
      Count(vs, 'A') as real, Count(vs, 'B') as real, Count(vs, 'C') as real, |responses| as real);
  }

  /** Running the evaluation on `n` copies of the responses reports the same metrics and
      the same `f1` score as running it once. */
  lemma EvaluateRepeat(grader: Sampler, template: seq<Piece>, render: HtmlRenderer,
                       responses: seq<GeneratedResponse>, n: int)
    requires UsesGraderFields(template) && n >= 1
    ensures var once := Evaluate(grader, template, render, responses);
      var repeated := Evaluate(grader, template, render, Repeat(responses, n));
      && (repeated.Success? <==> once.Success?)
      && (once.Success? ==> repeated.value.metrics == once.value.metrics && repeated.value.f1 == once.value.f1)
  {
    var f := g requires UsesGraderFields(template) => EvaluateOne(grader, template, render, g);
    MapRepeat(f, responses, n);
    assert EvaluateAll(grader, template, render, Repeat(responses, n))
      == Repeat(EvaluateAll(grader, template, render, responses), n);
    AggregateRepeat(EvaluateAll(grader, template, render, responses), n);
    RepeatLength(responses, n);
  }

  /** With a deterministic model under test and grader, evaluating `n` copies of the
      examples reports what evaluating them once does. */
  lemma RepeatedRunSameMetrics(sampler: Sampler, grader: Sampler, template: seq<Piece>, render: HtmlRenderer,
                               examples: seq<Example>, n: int)
    requires UsesGraderFields(template) && n >= 1
    ensures var once := Evaluate(grader, template, render, GenerateAll(sampler, examples));
      var repeated := Evaluate(grader, template, render, GenerateAll(sampler, Repeat(examples, n)));
      && (repeated.Success? <==> once.Success?)
      && (once.Success? ==> repeated.value.metrics == once.value.metrics && repeated.value.f1 == once.value.f1)
  {
    GenerateRepeat(sampler, examples, n);
    EvaluateRepeat(grader, template, render, GenerateAll(sampler, examples), n);
  }

  /** Three samples graded `A`, `B` and `C`: each rate is a third, two thirds were
      attempted, half of those are correct, and `f1` is 2/5. */
  lemma ThreeGrades(grader: Sampler, template: seq<Piece>, render: HtmlRenderer, responses: seq<GeneratedResponse>)
    requires UsesGraderFields(template)
    requires Verdicts(grader, template, responses) == ['A', 'B', 'C']
    ensures Evaluate(grader, template, render, responses).Success?
    ensures var e := Evaluate(grader, template, render, responses).value;
      && e.metrics.isCorrect == 1.0 / 3.0
      && e.metrics.isIncorrect == 1.0 / 3.0
      && e.metrics.isNotAttempted == 1.0 / 3.0
      && e.metrics.isGivenAttempted == 2.0 / 3.0
      && e.metrics.accuracyGivenAttempted == 0.5
      && e.f1 == 0.4
  {
    CountThree('A', 'B', 'C', 'A');
    CountThree('A', 'B', 'C', 'B');
    CountThree('A', 'B', 'C', 'C');
    EvaluateCounts(grader, template, render, responses);
    OneOfEach(Evaluate(grader, template, render, responses).value.metrics);
  }

  /** Counting in a list of three. */
  lemma CountThree(x: char, y: char, z: char, c: char)
    ensures Count([x, y, z], c) == (if x == c then 1 else 0) + (if y == c then 1 else 0) + (if z == c then 1 else 0)
  {
    assert [x, y, z][..2] == [x, y];
    assert [x, y][..1] == [x];
    assert [x][..0] == [];
    assert Count([x], c) == (if x == c then 1 else 0);
    assert Count([x, y], c) == Count([x], c) + (if y == c then 1 else 0);
  }
}
