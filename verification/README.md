# SimpleQA evaluation harness in Dafny

This project models the pure core of a SimpleQA evaluation harness. The harness
works in four steps:

1. It picks examples from the question set: all of them repeated `n_repeats` times, or a seeded subsample.
2. It asks the model under test each question as one user message.
3. It asks a grading model to grade each answer by filling a fixed rubric template. The first `A`, `B` or `C` in the grading model's reply is the grade; the default is `C`.
4. It aggregates the grades into three rates, the rate of attempted answers, the accuracy among attempted answers, and an F1-style score.

The project also models the prompt handling of the local chat-completion sampler:

- How a message list is rendered into one prompt string.
- How an optional system message is put in front of it.
- How the answer is cut out of the decoded output: the text after the last `"Assistant: "`, stripped.

Both models are pure functions over immutable datatypes. Every model call is a function parameter: the sampler, the grading model, the text generator and the HTML renderer. Numbers are exact reals in place of Python floats.

Modules, one file each:

| module | file | what it holds |
|---|---|---|
| `Wrappers` | wrappers.dfy | `Option` and `Result` |
| `Classes` | classes.dfy | `Message`, `SingleEvalResult`, `EvalResult`, `_pack_message` |
| `Text` | text.dfy | `str.find`, `str.split`, `sep.join` and their laws |
| `Whitespace` | strip.dfy | `str.strip()` over an explicit whitespace set |
| `ChatSampler` | sampler.dfy | prompt rendering, system message, answer extraction |
| `Sequences` | sequences.dfy | `xs * n`, element-wise map, drawing at positions |
| `GraderTemplate` | graderprompt.dfy | the grading template and `str.format` with keyword fields |
| `Grading` | grading.dfy | `grade_response` |
| `Metrics` | metrics.dfy | means, the derived metrics, `f1`, their bounds |
| `SimpleQA` | simpleqa.dfy | example selection, generation, per-sample grading, `evaluate` |

Three points where the code's behaviour is easy to misread:

- **Grade matching.** `re.search(r"(A|B|C)", ...)` takes the first `A`, `B` or `C` character anywhere in the reply, not a whole word. A reply `CORRECT` is graded `C`, and `NOT_ATTEMPTED` is graded `A`. `Grading.GradeLetter` models exactly this.
- **Derived metrics.** `evaluate` computes the attempted rate, the accuracy among attempted answers and `f1`, but only prints them. What it returns comes from `common.aggregate_results`. The model computes these metrics as the `Evaluation` value of `SimpleQA.Evaluate` and does not claim they appear in the returned result.
- **Failing items.** The per-item function `fn` in `evaluate` catches nothing, so an exception from grading one item leaves `fn`. Whether `common.map_with_progress` isolates such a failure cannot be seen, because `common.py` is not part of this model. The model has no per-item failure.

## Model

| member | source | states |
|---|---|---|
| Classes.PackMessage | hf_chat_completion_sampler.py:29-30 | the packed message carries exactly the given role and content |
| Classes.Indicator | simpleqa_eval.py:148-152 | a boolean used as a number is 1 exactly when it is true and 0 otherwise |
| Text.IndexFromIsFirst | hf_chat_completion_sampler.py:64 | `find` reports an occurrence with none before it from the start position, or reports none when the pattern never occurs there |
| Text.SplitJoinRoundTrip | hf_chat_completion_sampler.py:64 | joining the pieces of `split(sep)` with `sep` gives back the original string |
| Text.SplitPiecesAvoidSeparator | hf_chat_completion_sampler.py:64 | no piece of `split(sep)` contains the separator |
| Text.Split | hf_chat_completion_sampler.py:64 | `split(sep)` gives at least one piece |
| Text.LastPieceIsTail | hf_chat_completion_sampler.py:64 | `split(sep)[-1]` contains no `sep`; it is the whole string when `sep` does not occur, and otherwise a suffix that directly follows an occurrence of `sep`. For a separator that cannot overlap itself, such as `"Assistant: "`, that occurrence is the last one (`ChatSampler.ExtractAnswerAfterLastTag`) |
| Whitespace.LStrip | hf_chat_completion_sampler.py:64 | `lstrip` removes a prefix made only of whitespace, and the result does not start with whitespace |
| Whitespace.RStrip | hf_chat_completion_sampler.py:64 | `rstrip` removes a suffix made only of whitespace, and the result does not end with whitespace |
| Whitespace.Strip | hf_chat_completion_sampler.py:64 | `strip` removes whitespace-only ends: the result is a slice of the input, everything cut away is whitespace, and the result neither starts nor ends with whitespace |
| Whitespace.StripUnique | hf_chat_completion_sampler.py:64 | only one slice of a string meets that description, so `strip` is fully determined by it |
| Whitespace.StripIdempotent | hf_chat_completion_sampler.py:64 | stripping twice is stripping once |
| Whitespace.StripKeepsAbsence | hf_chat_completion_sampler.py:64 | stripping never creates an occurrence of a pattern |
| ChatSampler.PackMessageListToString | hf_chat_completion_sampler.py:32-42 | the loop builds the same string as the per-message renderings concatenated left to right |
| ChatSampler.RenderSingleMessage | hf_chat_completion_sampler.py:35-40 | system renders as content plus a blank line; user as `User: ` + content + `\nAssistant: `; assistant as content plus a newline; any other role renders as nothing |
| ChatSampler.RenderAppendOne | hf_chat_completion_sampler.py:32-42 | appending a message appends its rendering to the prompt |
| ChatSampler.RenderAppend | hf_chat_completion_sampler.py:32-42 | the prompt of `xs + ys` is the prompt of `xs` followed by the prompt of `ys` |
| ChatSampler.RenderIgnoresUnknownRoles | hf_chat_completion_sampler.py:34-40 | dropping the messages whose role is not system, user or assistant leaves the prompt unchanged |
| ChatSampler.WithSystemMessage | hf_chat_completion_sampler.py:46-47 | a non-empty system message is put in front as one extra system message and the rest is unchanged; a missing or empty one leaves the list unchanged |
| ChatSampler.RenderWithSystemMessage | hf_chat_completion_sampler.py:46-49 | with a system message the prompt is that message, a blank line, then the prompt of the list |
| ChatSampler.ExtractAnswer | hf_chat_completion_sampler.py:64 | the extracted answer contains no `"Assistant: "` and neither starts nor ends with whitespace |
| ChatSampler.ExtractAnswerWithoutTag | hf_chat_completion_sampler.py:64 | decoded text without the marker is returned whole, only stripped |
| ChatSampler.ExtractAnswerAfterLastTag | hf_chat_completion_sampler.py:64 | text after a final marker, with no marker in it, is what is returned, stripped |
| ChatSampler.ExtractAnswerIdempotent | hf_chat_completion_sampler.py:64 | extracting from an extracted answer changes nothing |
| ChatSampler.Prompt | hf_chat_completion_sampler.py:46-49 | the prompt handed to the model is the configured system message and a blank line in front of the rendered list when that message is non-empty, and the rendered list alone when it is missing or empty |
| ChatSampler.SamplerCall | hf_chat_completion_sampler.py:44-64 | the model is given the prompt for the list with the system message in front, and the answer is extracted from its output; whatever the model generates, that answer holds no marker and no surrounding whitespace |
| ChatSampler.PromptEndsWithTag | hf_chat_completion_sampler.py:37-38 | a prompt for a list ending in a user message ends with `"Assistant: "` |
| ChatSampler.SamplerCallOnEcho | hf_chat_completion_sampler.py:44-64 | when the model echoes the prompt and continues with marker-free text, the answer is that continuation, stripped |
| Sequences.RepeatLength | simpleqa_eval.py:108 | `xs * n` has `n` times the length of `xs`, and is empty when `n` is not positive |
| Sequences.RepeatIndex | simpleqa_eval.py:108 | position `i` of `xs * n` holds element `i % len(xs)` of `xs` |
| Sequences.MapRepeat | simpleqa_eval.py:108 | mapping `n` copies of a list gives `n` copies of the mapped list |
| Sequences.PickSubMultiset | simpleqa_eval.py:107 | taking the elements at distinct positions takes no element more often than it occurs |
| GraderTemplate.Format | simpleqa_eval.py:127-131 | formatting succeeds exactly when every field has an argument; otherwise it fails naming a missing field with all fields before it bound |
| GraderTemplate.GraderArgsBindAll | simpleqa_eval.py:127-131 | a template using only `question`, `target` and `predicted_answer` always formats with the three arguments |
| GraderTemplate.GraderTemplateUsesGraderFields | simpleqa_eval.py:79-81 | the grading template uses only those three fields |
| GraderTemplate.FormatGraderShape | simpleqa_eval.py:79-81 | a template of that shape receives the question, the target and the predicted answer in that order, between its literal parts |
| GraderTemplate.GraderPrompt | simpleqa_eval.py:11-90 | the grading prompt is the stripped template text with the three values at the three placeholders, in order |
| Grading.FirstGradeIndex | simpleqa_eval.py:138 | the match position holds `A`, `B` or `C` and no earlier position does; there is no match exactly when the text holds none of them |
| Grading.GradeLetter | simpleqa_eval.py:138-140 | the grade is always `A`, `B` or `C`: the first such character of the reply, or `C` when there is none |
| Grading.GradeResponse | simpleqa_eval.py:126-140 | the grading model receives exactly one user message whose content is the filled template; the grade is taken from the grading model's reply to that message |
| Grading.GradeResponseAsksGraderPrompt | simpleqa_eval.py:126-136 | the harness's own template uses only the three supplied fields, and grading with it sends exactly one user message: the grading prompt for the three values |
| Metrics.MetricSumAppend | simpleqa_eval.py:175-177 | the sum of a metric over two lists joined is the sum of the two sums |
| Metrics.Mean | simpleqa_eval.py:175-177 | the mean succeeds exactly when every result has the key and the list is non-empty; a missing key raises `KeyError` and an empty list a division by zero; the mean times the count is the sum |
| Metrics.AccuracyGivenAttempted | simpleqa_eval.py:182-187 | with a positive attempted rate the accuracy times it is the correct rate, otherwise the accuracy is 0; it lies in [0, 1] when the correct rate does not exceed the attempted rate |
| Metrics.F1 | simpleqa_eval.py:194-200 | with a positive denominator the score times `a + c` is `2ac`, otherwise it is 0 |
| Metrics.F1Bounds | simpleqa_eval.py:194-200 | for two rates in [0, 1] the score is in [0, 1] and lies between them |
| Metrics.F1IsHarmonicMean | simpleqa_eval.py:194-200 | for two positive rates the score is their harmonic mean |
| Metrics.Aggregate | simpleqa_eval.py:174-187 | aggregation succeeds exactly on a non-empty list with the three keys; the first missing key is the one reported; the three rates are the means, the attempted rate is the sum of the first two, the accuracy follows from them |
| Metrics.OutcomeSums | simpleqa_eval.py:174-178 | over graded samples the three sums each lie between 0 and the count and add up to it |
| Metrics.AggregateOutcomes | simpleqa_eval.py:174-200 | over a non-empty list of graded samples, aggregation succeeds and every rate, the accuracy and `f1` lie in [0, 1], and the three rates add up to 1 |
| Metrics.MetricsWithinBounds | simpleqa_eval.py:174-200 | means of three sums that share out the samples are within those bounds |
| Metrics.ThreeRates | simpleqa_eval.py:174-178 | three rates of counts that share out the samples lie in [0, 1] and add up to 1 |
| Metrics.HasMetricRepeat | simpleqa_eval.py:108 | `n` copies of a list carry a key exactly when the list does |
| Metrics.MetricSumRepeat | simpleqa_eval.py:175-177 | summing over `n` copies multiplies the sum by `n` |
| Metrics.MeanAppendSame | simpleqa_eval.py:175-177 | joining two lists with the same mean keeps that mean |
| Metrics.MeanRepeat | simpleqa_eval.py:175-177 | the mean over `n` copies is the mean over one copy, or the same error |
| Metrics.AggregateRepeat | simpleqa_eval.py:174-187 | aggregating `n` copies gives the same metrics, or the same error, as aggregating one |
| Metrics.AttemptedAccuracy | simpleqa_eval.py:179-187 | in counts, the accuracy is the number correct over the number attempted, and 0 when nothing was attempted |
| Metrics.OneOfEach | simpleqa_eval.py:174-200 | one sample of each outcome among three gives rates of a third each, two thirds attempted, accuracy 1/2 and `f1` 2/5 |
| SimpleQA.LoadExamples | simpleqa_eval.py:104-108 | with a non-zero example count, a repeat count other than 1 fails the assertion, and a count out of range fails the sample with `ValueError`; without a count it always succeeds |
| SimpleQA.LoadExamplesRepeats | simpleqa_eval.py:108 | without a subsample the examples are `n_repeats` copies of the rows, so position `i` holds row `i % len(rows)` |
| SimpleQA.LoadExamplesSample | simpleqa_eval.py:104-107 | a subsample has the requested size, takes each example from its drawn row, and takes no row more often than it occurs |
| SimpleQA.GenerateResponses | simpleqa_eval.py:111-124 | one record per example, in order: the problem asked as exactly one user message, the example's problem and answer, and the model's reply to that message |
| SimpleQA.GenerateRepeat | simpleqa_eval.py:111-124 | with a deterministic model, answering `n` copies of the examples gives `n` copies of the answers |
| SimpleQA.Verdict | simpleqa_eval.py:144-145 | the grade of a generated response is one of `A`, `B`, `C`: the grade letter of the grading model's reply to one user message, the template filled with the problem as question, the gold answer as target and the response as predicted answer |
| SimpleQA.VerdictAsksGraderPrompt | simpleqa_eval.py:144-145 | with the harness's own template, the verdict is the grade letter of the reply to the grading prompt for problem, gold answer and response, in that order |
| SimpleQA.EvaluateOne | simpleqa_eval.py:143-169 | the metrics have exactly the keys `is_correct`, `is_incorrect` and `is_not_attempted`; exactly one of the three indicators is 1, each matching its grade letter; the score is the correct indicator; the conversation is the prompt followed by the response as an assistant message; the report is rendered from that prompt, the response, whether it is correct and the gold answer |
| SimpleQA.EvaluateAll | simpleqa_eval.py:171 | one result per response, in order: result `i` is the per-sample evaluation of response `i`, and each is one graded outcome |
| SimpleQA.MetricSumCounts | simpleqa_eval.py:174-178 | the sum of a grade's metric over the results is the number of responses given that grade |
| SimpleQA.Evaluate | simpleqa_eval.py:142-201 | `evaluate` fails with a division by zero exactly on an empty response list; otherwise the metrics are the aggregate of the per-sample results, `f1` is computed from the accuracy among attempted answers and the correct rate, every metric and `f1` lie in [0, 1] and the rates add up to 1 |
| SimpleQA.EvaluateCounts | simpleqa_eval.py:174-180 | each rate is the number of responses with that grade over the number of responses; the attempted rate is the sum of the first two |
| SimpleQA.EvaluateAccuracy | simpleqa_eval.py:182-187 | the accuracy among attempted answers is the number of `A` grades over the number of `A` and `B` grades, and 0 when there are none |
| SimpleQA.EvaluateRepeat | simpleqa_eval.py:108 | evaluating `n` copies of the responses reports the same metrics and `f1` as evaluating them once |
| SimpleQA.RepeatedRunSameMetrics | simpleqa_eval.py:108 | with a deterministic model and grader, running on `examples * n` reports what running on the examples does |
| SimpleQA.ThreeGrades | simpleqa_eval.py:174-200 | three responses graded `A`, `B` and `C` give rates of a third each, two thirds attempted, accuracy 1/2 and `f1` 2/5 |

## Left out

- Loading the model, tokenising, generating and decoding are foreign library calls. They become the `generate` parameter of `ChatSampler.SamplerCall`.
- The `try`/`except` around the answer extraction is left out: `split` and `strip` cannot raise there.
- Fetching the question set over the network with pandas is I/O. The rows are a parameter of `SimpleQA.LoadExamples`.
- The seeded generator's draw is library randomness. The positions it draws are the `draw` parameter of `SimpleQA.LoadExamples`, required to be distinct and in range, as `random.sample`'s are.
- HTML rendering uses a Jinja template defined in `common.py`, which is not part of this model. The renderer is a parameter; the model states what each report is rendered from (the prompt, the reply as an assistant message, the score, the gold answer and the response), not what HTML it produces.
- `common.map_with_progress` is not part of this model. It is modelled as a sequential map; its concurrency and progress display are left out.
- `common.aggregate_results` is not part of this model, so the `EvalResult` that `evaluate` returns is not modelled. `SimpleQA.Evaluate` reports the metrics `evaluate` computes and prints.
- Progress bars and printing are output only.
- The command-line driver is argument parsing, environment lookup and file output.
- Floating-point rounding in the means is left out: the model uses exact reals.
- `strip` does not consult Python's Unicode tables. `Whitespace.IsSpace` lists the characters `str.isspace` accepts as an explicit set.
- `_pack_message` converts role and content with `str`. In the model both are already text, so the conversion is the identity.
- Samplers are functions, so two calls with the same messages give the same reply.
- SimpleQA.GenerateRepeat: holds only for a deterministic model. A stochastic model would give different answers for the copies.
- SimpleQA.RepeatedRunSameMetrics: holds only for a deterministic model and grader, for the same reason.
- Grading.GradeResponse: takes the template as a parameter and requires that it uses only the three supplied fields. The harness always passes its own template, which meets this (`GraderTemplate.GraderTemplateUsesGraderFields`). A template with other fields would raise `KeyError` in `format`; that path is modelled by `GraderTemplate.Format` but not carried through grading.
- An exception raised while generating or grading one item is not modelled: samplers here always return text.
