/** The prompt handling of the local chat-completion sampler: how a message list becomes
    one prompt string, the optional system message placed in front of it, and how the
    answer is cut out of the decoded model output. Tokenising, generating and decoding
    are one function parameter, `generate`. */
module ChatSampler {
  import opened Wrappers
  import opened Classes
  import opened Text
  import opened Whitespace

  /** The marker that ends every rendered user turn and introduces the model's answer. */
  const AssistantTag: string := "Assistant: "

  /** The text one message contributes to the prompt; a role other than system, user
      or assistant contributes nothing. */
  function RenderMessage(m: Message): string {
    if m.role == "system" then m.content + "\n\n"
    else if m.role == "user" then "User: " + m.content + "\nAssistant: "
    else if m.role == "assistant" then m.content + "\n"
    else ""
  }

  /** The prompt for a message list: the renderings of its messages, left to right. */
  function Render(ms: seq<Message>): string {
    ConcatMap(RenderMessage, ms)
  }

  /** `_pack_message_to_string`: the loop that appends each message's rendering to the prompt. */
  method PackMessageListToString(messageList: seq<Message>) returns (prompt: string)
    ensures prompt == Render(messageList)
  {
    prompt := "";
    var i := 0;
    while i < |messageList|
      invariant 0 <= i <= |messageList|
      invariant prompt == Render(messageList[..i])
    {
      var msg := messageList[i];
      if msg.role == "system" {
        prompt := prompt + msg.content + "\n\n";
      } else if msg.role == "user" {
        prompt := prompt + "User: " + msg.content + "\nAssistant: ";
      } else if msg.role == "assistant" {
        prompt := prompt + msg.content + "\n";
      }
      assert messageList[..i + 1] == messageList[..i] + [msg];
      RenderAppendOne(messageList[..i], msg);
      i := i + 1;
    }
    assert messageList[..i] == messageList;
  }

  /** Appending one message appends its rendering. */
  lemma RenderAppendOne(ms: seq<Message>, m: Message)
    ensures Render(ms + [m]) == Render(ms) + RenderMessage(m)
  {
    ConcatMapSnoc(RenderMessage, ms, m);
  }

  /** What a single message renders to, role by role. */
  lemma RenderSingleMessage(m: Message)
    ensures m.role == "system" ==> Render([m]) == m.content + "\n\n"
    ensures m.role == "user" ==> Render([m]) == "User: " + m.content + "\nAssistant: "
    ensures m.role == "assistant" ==> Render([m]) == m.content + "\n"
    ensures !IsKnownRole(m.role) ==> Render([m]) == ""
  {
    RenderAppendOne([], m);
    assert [] + [m] == [m];
  }

  /** Rendering is a homomorphism from list concatenation to string concatenation. */
  lemma RenderAppend(xs: seq<Message>, ys: seq<Message>)
    ensures Render(xs + ys) == Render(xs) + Render(ys)
  {
    ConcatMapAppend(RenderMessage, xs, ys);
  }

  predicate IsKnownRole(role: string) {
    role == "system" || role == "user" || role == "assistant"
  }

  /** The messages of a list whose role is one of the three the renderer knows. */
  function KnownOnly(ms: seq<Message>): seq<Message> {
    if |ms| == 0 then []
    else KnownOnly(ms[..|ms| - 1]) + (if IsKnownRole(ms[|ms| - 1].role) then [ms[|ms| - 1]] else [])
  }

  /** Messages with any other role leave the prompt unchanged. */
  lemma {:induction false} RenderIgnoresUnknownRoles(ms: seq<Message>)
    ensures Render(ms) == Render(KnownOnly(ms))
    decreases |ms|
  {
    if |ms| > 0 {
      var init := ms[..|ms| - 1];
      var m := ms[|ms| - 1];
      RenderIgnoresUnknownRoles(init);
      if IsKnownRole(m.role) {
        assert (KnownOnly(init) + [m])[..|KnownOnly(init)|] == KnownOnly(init);
      } else {
        assert KnownOnly(ms) == KnownOnly(init) + [];
        assert KnownOnly(init) + [] == KnownOnly(init);
      }
    }
  }

  /** The configured system message goes in front of the list when it is non-empty
      (Python treats `None` and `""` alike as false). */
  function WithSystemMessage(systemMessage: Option<string>, ms: seq<Message>): (out: seq<Message>)
    ensures systemMessage.Some? && systemMessage.value != "" ==>
      |out| == |ms| + 1 && out[0] == Message("system", systemMessage.value) && out[1..] == ms
    ensures systemMessage.None? || systemMessage.value == "" ==> out == ms
  {
    if systemMessage.Some? && systemMessage.value != "" then
      [PackMessage("system", systemMessage.value)] + ms
    else ms
  }

  /** A system message shows up as its content and a blank line ahead of the rest of the prompt. */
  lemma RenderWithSystemMessage(systemMessage: string, ms: seq<Message>)
    requires systemMessage != ""
    ensures Render(WithSystemMessage(Some(systemMessage), ms)) == systemMessage + "\n\n" + Render(ms)
  {
    var sys := Message("system", systemMessage);
    assert WithSystemMessage(Some(systemMessage), ms) == [sys] + ms;
    RenderAppend([sys], ms);
    RenderSingleMessage(sys);
  }

  /** The answer the sampler returns from the decoded output: the text after the last
      `"Assistant: "` with surrounding whitespace removed. */
  function ExtractAnswer(decoded: string): (answer: string)
    ensures !Contains(answer, AssistantTag)
    ensures |answer| > 0 ==> !IsSpace(answer[0]) && !IsSpace(answer[|answer| - 1])
  {
    LastPieceIsTail(decoded, AssistantTag);
    StripKeepsAbsence(LastPiece(decoded, AssistantTag), AssistantTag);
    Strip(LastPiece(decoded, AssistantTag))
  }

  /** Output without the marker is returned whole, only stripped. */
  lemma ExtractAnswerWithoutTag(decoded: string)
    requires !Contains(decoded, AssistantTag)
    ensures ExtractAnswer(decoded) == Strip(decoded)
  {
    LastPieceIsTail(decoded, AssistantTag);
  }

  /** The marker cannot overlap itself: its first character occurs nowhere else in it. */
  lemma TagIsBorderFree()
    ensures forall d :: 1 <= d < |AssistantTag| ==> AssistantTag[d] != AssistantTag[0]
  {
  }

  /** Output in which a last marker is followed by marker-free text yields that text, stripped. */
  lemma ExtractAnswerAfterLastTag(before: string, after: string)
    requires !Contains(after, AssistantTag)
    ensures ExtractAnswer(before + AssistantTag + after) == Strip(after)
  {
    var s := before + AssistantTag + after;
    var p := |before|;
    var n := |AssistantTag|;
    assert s[p..p + n] == AssistantTag;
    assert OccursAt(s, AssistantTag, p);
    assert s[p + n..] == after;
    LastPieceIsTail(s, AssistantTag);
    var t := LastPiece(s, AssistantTag);
    var q := |s| - |t| - n;
    assert OccursAt(s, AssistantTag, q) && t == s[q + n..];
    OccursInSuffix(s, AssistantTag, q + n, p);
    OccursInSuffix(s, AssistantTag, p + n, q);
    OccursAtChar(s, AssistantTag, p, q);
    OccursAtChar(s, AssistantTag, q, q);
    OccursAtChar(s, AssistantTag, q, p);
    OccursAtChar(s, AssistantTag, p, p);
    TagIsBorderFree();
    assert p == q;
  }

  /** Applying the extraction to its own result changes nothing. */
  lemma ExtractAnswerIdempotent(decoded: string)
    ensures ExtractAnswer(ExtractAnswer(decoded)) == ExtractAnswer(decoded)
  {
    var answer := ExtractAnswer(decoded);
    ExtractAnswerWithoutTag(answer);
    StripIdempotent(LastPiece(decoded, AssistantTag));
  }

  /** The sampler's configuration that shapes the prompt. */
  datatype SamplerConfig = SamplerConfig(systemMessage: Option<string>)

  /** The prompt string the sampler tokenises for a message list. */
  function Prompt(config: SamplerConfig, ms: seq<Message>): (prompt: string)
    ensures config.systemMessage.Some? && config.systemMessage.value != "" ==>
      prompt == config.systemMessage.value + "\n\n" + Render(ms)
    ensures config.systemMessage.None? || config.systemMessage.value == "" ==>
      prompt == Render(ms)
  {
    if config.systemMessage.Some? && config.systemMessage.value != "" then
      RenderWithSystemMessage(config.systemMessage.value, ms);
      Render(WithSystemMessage(config.systemMessage, ms))
    else
      Render(WithSystemMessage(config.systemMessage, ms))
  }

  /** `__call__`: render the prompt, let the model continue it, extract the answer. */
  function SamplerCall(config: SamplerConfig, generate: string -> string, ms: seq<Message>): (answer: string)
    ensures answer == ExtractAnswer(generate(Prompt(config, ms)))
    ensures !Contains(answer, AssistantTag)
    ensures |answer| > 0 ==> !IsSpace(answer[0]) && !IsSpace(answer[|answer| - 1])
  {
    ExtractAnswer(generate(Prompt(config, ms)))
  }

  /** A prompt for a list that ends with a user message ends with the marker. */
  lemma PromptEndsWithTag(config: SamplerConfig, ms: seq<Message>)
    requires |ms| > 0 && ms[|ms| - 1].role == "user"
    ensures var prompt := Prompt(config, ms);
      |prompt| >= |AssistantTag| && prompt == prompt[..|prompt| - |AssistantTag|] + AssistantTag
  {
    var full := WithSystemMessage(config.systemMessage, ms);
    var m := ms[|ms| - 1];
    assert full[|full| - 1] == m;
    assert full == full[..|full| - 1] + [m];
    RenderAppendOne(full[..|full| - 1], m);
    assert "User: " + m.content + "\nAssistant: " == ("User: " + m.content + "\n") + AssistantTag;
  }

  /** When the model echoes the prompt and continues it with marker-free text, the
      sampler answers with that continuation, stripped. */
  lemma SamplerCallOnEcho(config: SamplerConfig, generate: string -> string, ms: seq<Message>, completion: string)
    requires |ms| > 0 && ms[|ms| - 1].role == "user"
    requires generate(Prompt(config, ms)) == Prompt(config, ms) + completion
    requires !Contains(completion, AssistantTag)
    ensures SamplerCall(config, generate, ms) == Strip(completion)
  {
    var prompt := Prompt(config, ms);
    PromptEndsWithTag(config, ms);
    var before := prompt[..|prompt| - |AssistantTag|];
    assert prompt + completion == before + AssistantTag + completion;
    ExtractAnswerAfterLastTag(before, completion);
  }
}
