/** The record shapes of the harness: chat messages, one graded sample, a whole run. */
module Classes {
  import opened Wrappers

  /** One chat message; roles are free strings, as in the dictionaries the harness builds. */
  datatype Message = Message(role: string, content: string)

  /** The result of evaluating a single sample. Metric values are the numbers the
      Python booleans stand for (True as 1, False as 0). */
  datatype SingleEvalResult = SingleEvalResult(
    score: Option<real>,
    metrics: map<string, real>,
    html: Option<string>,
    convo: Option<seq<Message>>)

  /** The result of a whole evaluation run. */
  datatype EvalResult = EvalResult(
    score: Option<real>,
    metrics: Option<map<string, real>>,
    htmls: seq<string>,
    convos: seq<seq<Message>>)

  /** `_pack_message`: a message with exactly the given role and content. The content
      is already text here, so Python's `str` conversion is the identity. */
  function PackMessage(role: string, content: string): (m: Message)
    ensures m.role == role && m.content == content
  {
    Message(role, content)
  }

  /** A Python boolean used as a number. */
  function Indicator(b: bool): (x: real)
    ensures x == 1.0 || x == 0.0
    ensures x == 1.0 <==> b
  {
    if b then 1.0 else 0.0
  }
}
