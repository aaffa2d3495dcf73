/** The grading prompt of the SimpleQA harness, and Python's `str.format` with keyword
    arguments for templates whose replacement fields are plain names. */
module GraderTemplate {
  import opened Wrappers

  /** A template after parsing: literal text, or a replacement field `{name}`. */
  datatype Piece = Literal(text: string) | Field(name: string)

  /** Every replacement field of `template` has an argument. */
  predicate AllFieldsBound(template: seq<Piece>, args: map<string, string>) {
    forall k :: 0 <= k < |template| && template[k].Field? ==> template[k].name in args
  }

  /** `template.format(**args)`: the pieces are filled in left to right, and the first
      field without an argument raises `KeyError` carrying its name. */
  function Format(template: seq<Piece>, args: map<string, string>): (r: Result<string, string>)
    ensures r.Success? <==> AllFieldsBound(template, args)
    ensures r.Failure? ==>
      exists k :: 0 <= k < |template| && template[k] == Field(r.error)
        && r.error !in args && AllFieldsBound(template[..k], args)
  {
    if |template| == 0 then Success("")
    else
      var rest := Format(template[1..], args);
      var p := template[0];
      if p.Field? && p.name !in args then
        assert template[..0] == [];
        Failure(p.name)
      else if rest.Failure? then
        var k :| 0 <= k < |template[1..]| && template[1..][k] == Field(rest.error)
          && rest.error !in args && AllFieldsBound(template[1..][..k], args);
        assert template[..k + 1] == [p] + template[1..][..k];
        Failure(rest.error)
      else
        Success(Fill(p, args) + rest.value)
  }

  /** The text of a piece once every field has an argument. */
  function Fill(p: Piece, args: map<string, string>): string
    requires p.Field? ==> p.name in args
  {
    if p.Literal? then p.text else args[p.name]
  }

  /** Formatting a template with a literal or bound field in front puts that piece's
      text in front of the rest. */
  lemma FormatCons(p: Piece, rest: seq<Piece>, args: map<string, string>)
    requires p.Field? ==> p.name in args
    requires AllFieldsBound(rest, args)
    ensures Format([p] + rest, args) == Success(Fill(p, args) + Format(rest, args).value)
  {
    assert ([p] + rest)[1..] == rest;
  }

  /** The template text before `{question}`, after `.strip()` has removed the leading
      newline of the triple-quoted string. */
  const GraderPreamble: string :=
    "Your job is to look at a question, a gold target, and a predicted answer, and then assign a grade of either [\"CORRECT\", \"INCORRECT\", \"NOT_ATTEMPTED\"].\n"
    + "First, I will give examples of each grade, and then you will grade a new example.\n"
    + "\n"
    + "\n"
    + "The following are examples of CORRECT predicted answers.\n"
    + "```\n"
    + "Question: What are the names of Barack Obama's children?\n"
    + "Gold target: Malia Obama and Sasha Obama\n"
    + "Predicted answer 1: sasha and malia obama\n"
    + "Predicted answer 2: most people would say Malia and Sasha, but I'm not sure and would have to double check\n"
    + "Predicted answer 3: Barack Obama has two daughters. Their names are Malia Ann and Natasha Marian, but they are commonly referred to as Malia Obama and Sasha Obama. Malia was born on July 4, 1998, and Sasha was born on June 10, 2001.\n"
    + "```\n"
    + "These predicted answers are all CORRECT because:\n"
    + "    - They fully contain the important information in the gold target.\n"
    + "    - They do not contain any information that contradicts the gold target.\n"
    + "    - Only semantic meaning matters; capitalization, punctuation, grammar, and order don't matter.\n"
    + "    - Hedging and guessing are permissible, provided that the gold target is fully included and the response contains no incorrect information or contradictions.\n"
    + "\n"
    + "\n"
    + "The following are examples of INCORRECT predicted answers.\n"
    + "```\n"
    + "Question: What are the names of Barack Obama's children?\n"
    + "Gold target: Malia and Sasha\n"
    + "Predicted answer 1: Malia.\n"
    + "Predicted answer 2: Malia, Sasha, and Susan.\n"
    + "Predicted answer 3: Barack Obama does not have any children.\n"
    + "Predicted answer 4: I think it's either Malia and Sasha. Or it could be Malia and Jackie. Or it could be Joey and Malia.\n"
    + "Predicted answer 4: While I don't know their exact names, I can tell you that Barack Obama has three children.\n"
    + "Predicted answer 5: It's possible you may mean Betsy and Olivia. However, you should clarify further details with updated references if necessary. Is that the correct answer?\n"
    + "Predicted answer 6: It may be the case that Obama's child is named James. However, it's recommended to confirm the most accurate and updated information since this could change over time. This model may not always reflect the most current information.\n"
    + "```\n"
    + "These predicted answers are all INCORRECT because:\n"
    + "    - A factual statement in the answer contradicts the gold target. Incorrect statements that have some hedging (e.g., \"it is possible that\", \"although i'm not sure, i think\") are also considered incorrect.\n"
    + "\n"
    + "\n"
    + "The following are examples of NOT_ATTEMPTED predicted answers.\n"
    + "```\n"
    + "Question: What are the names of Barack Obama's children?\n"
    + "Gold target: Malia and Sasha\n"
    + "Predicted answer 1: I don't know.\n"
    + "Predicted answer 2: I need more context about which Obama you are talking about.\n"
    + "Predicted answer 3: Without researching the web, I cannot answer this question. However, I can tell you that Barack Obama has two children.\n"
    + "Predicted answer 4: Barack Obama has two children. I know that one of them is Malia, but I'm not sure about the other one.\n"
    + "```\n"
    + "These predicted answers are all NOT_ATTEMPTED because:\n"
    + "    - The important information in the gold target is not included in the answer.\n"
    + "    - No statements in the answer contradict the gold target.\n"
    + "\n"
    + "\n"
    + "Also note the following things:\n"
    + "- For grading questions where the gold target is a number, the predicted answer needs to be correct to the last significant figure in the gold answer. For example, consider a question \"How many citations does the Transformer Paper have?\" with gold target \"120k\".\n"
    + "    - Predicted answers \"120k\", \"124k\", and 115k\" are all CORRECT.\n"
    + "    - Predicted answers \"100k\" and \"113k\" are INCORRECT.\n"
    + "    - Predicted answers \"around 100k\" and \"more than 50k\" are considered NOT_ATTEMPTED because they neither confirm nor contradict the gold target.\n"
    + "- The gold target may contain more information than the question. In such cases, the predicted answer only needs to contain the information that is in the question.\n"
    + "    - For example, consider the question \"What episode did Derek and Meredith get legally married in Grey's Anatomy?\" with gold target \"Season 7, Episode 20: White Wedding\". Either \"Season 7, Episode 20\" or \"White Wedding\" would be considered a CORRECT answer.\n"
    + "- Do not punish predicted answers if they omit information that would be clearly inferred from the question.\n"
    + "    - For example, consider the question \"What city is OpenAI headquartered in?\" and the gold target \"San Francisco, California\". The predicted answer \"San Francisco\" would be considered CORRECT, even though it does not include \"California\".\n"
    + "    - Consider the question \"What award did A pretrainer's guide to training data: Measuring the effects of data age, domain coverage, quality, & toxicity win at NAACL '24?\", the gold target is \"Outstanding Paper Award\". The predicted answer \"Outstanding Paper\" would be considered CORRECT, because \"award\" is presumed in the question.\n"
    + "    - For the question \"What is the height of Jason Wei in meters?\", the gold target is \"1.73 m\". The predicted answer \"1.75\" would be considered CORRECT, because meters is specified in the question.\n"
    + "    - For the question \"What is the name of Barack Obama's wife?\", the gold target is \"Michelle Obama\". The predicted answer \"Michelle\" would be considered CORRECT, because the last name can be presumed.\n"
    + "- Do not punish for typos in people's name if it's clearly the same name.\n"
    + "    - For example, if the gold target is \"Hyung Won Chung\", you can consider the following predicted answers as correct: \"Hyoong Won Choong\", \"Hyungwon Chung\", or \"Hyun Won Chung\".\n"
    + "\n"
    + "\n"
    + "Here is a new example. Simply reply with either CORRECT, INCORRECT, NOT ATTEMPTED. Don't apologize or correct yourself if there was a mistake; we are just trying to grade the answer.\n"
    + "```\n"
    + "Question: "

  /** The template text after `{predicted_answer}`, after `.strip()` has removed the
      trailing newline. */
  const GraderClosing: string :=
    "\n"
    + "```\n"
    + "\n"
    + "Grade the predicted answer of this new question as one of:\n"
    + "A: CORRECT\n"
    + "B: INCORRECT\n"
    + "C: NOT_ATTEMPTED\n"
    + "\n"
    + "Just return the letters \"A\", \"B\", or \"C\", with no text around it."

  /** `GRADER_TEMPLATE`, parsed into pieces. */
  const GraderTemplatePieces: seq<Piece> := [
    Literal(GraderPreamble), Field("question"),
    Literal("\nGold target: "), Field("target"),
    Literal("\nPredicted answer: "), Field("predicted_answer"),
    Literal(GraderClosing)]

  /** The keyword arguments `grade_response` passes to `format`. */
  function GraderArgs(question: string, target: string, predictedAnswer: string): map<string, string> {
    map["question" := question, "target" := target, "predicted_answer" := predictedAnswer]
  }

  /** A name `grade_response` supplies an argument for. */
  predicate IsGraderField(name: string) {
    name == "question" || name == "target" || name == "predicted_answer"
  }

  /** A template whose replacement fields are all among those `grade_response` supplies. */
  predicate UsesGraderFields(template: seq<Piece>) {
    forall k :: 0 <= k < |template| && template[k].Field? ==> IsGraderField(template[k].name)
  }

  /** Such a template formats without `KeyError`, whatever the three texts are. */
  lemma GraderArgsBindAll(template: seq<Piece>, question: string, target: string, predictedAnswer: string)
    requires UsesGraderFields(template)
    ensures Format(template, GraderArgs(question, target, predictedAnswer)).Success?
  {
    var args := GraderArgs(question, target, predictedAnswer);
    assert AllFieldsBound(template, args) by {
      forall k | 0 <= k < |template| && template[k].Field?
        ensures template[k].name in args
      {
        assert IsGraderField(template[k].name);
      }
    }
  }

  /** `GRADER_TEMPLATE` asks only for the three fields `grade_response` supplies. */
  lemma GraderTemplateUsesGraderFields()
    ensures UsesGraderFields(GraderTemplatePieces)
  {
  }

  /** The prompt `grade_response` sends: the template with the question, the gold target
      and the predicted answer substituted verbatim, each in its own slot. */
  function GraderPrompt(question: string, target: string, predictedAnswer: string): (prompt: string)
    ensures prompt == GraderPreamble + question + "\nGold target: " + target
      + "\nPredicted answer: " + predictedAnswer + GraderClosing
  {
    var args := GraderArgs(question, target, predictedAnswer);
    FormatGraderShape(GraderPreamble, "\nGold target: ", "\nPredicted answer: ", GraderClosing, args);
    assert args["question"] == question && args["target"] == target;
    assert args["predicted_answer"] == predictedAnswer;
    Format(GraderTemplatePieces, args).value
  }

  /** Any template shaped like the grading template fills its three slots with the three
      arguments, in order, between its literal texts. */
  lemma FormatGraderShape(a: string, b: string, c: string, d: string, args: map<string, string>)
    requires "question" in args && "target" in args && "predicted_answer" in args
    ensures Format([Literal(a), Field("question"), Literal(b), Field("target"),
                    Literal(c), Field("predicted_answer"), Literal(d)], args)
      == Success(a + args["question"] + b + args["target"] + c + args["predicted_answer"] + d)
  {
    var last := [Literal(d)];
    assert Format([], args) == Success("");
    FormatCons(Literal(d), [], args);
    assert [Literal(d)] + [] == last;
    assert d + "" == d;
    var third := [Literal(c), Field("predicted_answer")] + last;
    FormatPair(c, "predicted_answer", last, args);
    var second := [Literal(b), Field("target")] + third;
    FormatPair(b, "target", third, args);
    var first := [Literal(a), Field("question")] + second;
    FormatPair(a, "question", second, args);
    assert first == [Literal(a), Field("question"), Literal(b), Field("target"),
                     Literal(c), Field("predicted_answer"), Literal(d)];
    var q, t, p := args["question"], args["target"], args["predicted_answer"];
    assert a + q + (b + t + (c + p + d)) == a + q + b + t + c + p + d;
  }

  /** Putting a bound piece in front of a template whose fields are all bound keeps
      every field bound. */
  lemma BoundCons(p: Piece, rest: seq<Piece>, args: map<string, string>)
    requires p.Field? ==> p.name in args
    requires AllFieldsBound(rest, args)
    ensures AllFieldsBound([p] + rest, args)
  {
    var t := [p] + rest;
    forall k | 0 <= k < |t| && t[k].Field?
      ensures t[k].name in args
    {
      if k > 0 {
        assert t[k] == rest[k - 1];
      }
    }
  }

  /** A literal followed by a bound field contributes the literal text and then the
      field's argument. */
  lemma FormatPair(lit: string, name: string, rest: seq<Piece>, args: map<string, string>)
    requires name in args
    requires AllFieldsBound(rest, args)
    ensures Format([Literal(lit), Field(name)] + rest, args)
      == Success(lit + args[name] + Format(rest, args).value)
  {
    var tail := [Field(name)] + rest;
    FormatCons(Field(name), rest, args);
    var r := Format(rest, args).value;
    assert Format(tail, args) == Success(args[name] + r);
    BoundCons(Field(name), rest, args);
    FormatCons(Literal(lit), tail, args);
    assert [Literal(lit), Field(name)] + rest == [Literal(lit)] + tail;
    assert lit + (args[name] + r) == lit + args[name] + r;
  }
}
