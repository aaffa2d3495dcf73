/** Grading one response: the grading model is asked with the filled-in template, and
    the first grade letter in its reply decides the grade. */
module Grading {
  import opened Wrappers
  import opened Classes
  import opened GraderTemplate

  /** A chat model as the harness sees it: messages in, reply text out. */
  type Sampler = seq<Message> -> string

  /** One of the letters the pattern `(A|B|C)` matches. */
  predicate IsGradeLetter(c: char) {
    c == 'A' || c == 'B' || c == 'C'
  }

  /** Where `re.search(r"(A|B|C)", s)` matches: the first index holding a grade letter,
      or `None` when the reply holds none. */
  function FirstGradeIndex(s: string): (k: Option<nat>)
    ensures k.Some? ==>
      && k.value < |s| && IsGradeLetter(s[k.value])
      && forall j :: 0 <= j < k.value ==> !IsGradeLetter(s[j])
    ensures k.None? <==> forall j :: 0 <= j < |s| ==> !IsGradeLetter(s[j])
  {
    if |s| == 0 then None
    else if IsGradeLetter(s[0]) then Some(0)
    else
      match FirstGradeIndex(s[1..])
      case None => None
      case Some(k) => Some(k + 1)
  }

  /** The grade `grade_response` returns: the first grade letter of the reply, or `C`
      (not attempted) when the reply has none. */
  function GradeLetter(reply: string): (letter: char)
    ensures IsGradeLetter(letter)
    ensures (forall j :: 0 <= j < |reply| ==> !IsGradeLetter(reply[j])) ==> letter == 'C'
    ensures forall k ::
      0 <= k < |reply| && IsGradeLetter(reply[k]) && (forall j :: 0 <= j < k ==> !IsGradeLetter(reply[j]))
      ==> letter == reply[k]
  {
    match FirstGradeIndex(reply)
    case None => 'C'
    case Some(k) => reply[k]
  }

  /** One call of the grading model. */
  datatype Grading = Grading(request: seq<Message>, reply: string, letter: char)

  /** `grade_response`: a single user message carrying `template` filled in with the
      question, the gold target and the predicted answer goes to the grading model, and the
      reply's first grade letter is the grade. The harness always passes
      `GraderTemplatePieces`; taking the template as a value keeps its long text out of
      the proofs that do not look at it. */
  function GradeResponse(grader: Sampler, template: seq<Piece>, question: string, target: string,
                         predictedAnswer: string): (g: Grading)
    requires UsesGraderFields(template)
    ensures |g.request| == 1 && g.request[0].role == "user"
    ensures Format(template, GraderArgs(question, target, predictedAnswer)) == Success(g.request[0].content)
    ensures g.reply == grader(g.request)
    ensures IsGradeLetter(g.letter)
    ensures g.letter == GradeLetter(g.reply)
  {
    GraderArgsBindAll(template, question, target, predictedAnswer);
    var prompt := Format(template, GraderArgs(question, target, predictedAnswer)).value;
    var request := [PackMessage("user", prompt)];
    var reply := grader(request);
    Grading(request, reply, GradeLetter(reply))
  }

  /** With the harness's own template, the grading model is asked exactly the grading prompt. */
  lemma GradeResponseAsksGraderPrompt(grader: Sampler, question: string, target: string, predictedAnswer: string)
    ensures UsesGraderFields(GraderTemplatePieces)
    ensures GradeResponse(grader, GraderTemplatePieces, question, target, predictedAnswer).request
      == [Message("user", GraderPrompt(question, target, predictedAnswer))]
  {
    GraderTemplateUsesGraderFields();
  }
}
