/**
 The generation client: one system instruction per writing type, the
 composition of system and user prompt, and the normalisation of whatever the
 external model answers into a displayable, never-empty string. The model
 itself is an oracle parameter: it maps the full prompt to an `Outcome`.
 */
module Ai {
  import opened Basics
  import opened Text
  import opened Types

  /**
   The first words of each system instruction, up to the interpolated tone.
   The program writes each as one literal; it is split into `Role` and `Duty`
   here only so that the proof telling the instructions apart reads a short
   literal. The concatenated text is the program's, character for character.
   */
  function Opening(t: WritingType): string {
    Role(t) + Duty(t)
  }

  /** Who the model is told it is; these words already tell the four instructions apart. */
  function Role(t: WritingType): string {
    match t
    case Email => "You are an assistant"
    case Blog => "You are a professional"
    case Story => "You are a creative"
    case Suggestion => "You are an AI"
  }

  /** The rest of the opening, naming the job. */
  function Duty(t: WritingType): string {
    match t
    case Email => " helping write a "
    case Blog => " content writer creating a "
    case Story => " writer crafting a "
    case Suggestion => " writing assistant helping complete sentences."
  }

  /** Everything after the interpolated tone; the suggestion instruction interpolates none. */
  function Closing(t: WritingType): string {
    match t
    case Email =>
      " email. \n" +
      "    Focus on clear communication, appropriate tone, and professional structure.\n" +
      "    Include a proper greeting and sign-off."
    case Blog =>
      " blog post.\n" +
      "    Focus on engaging content, proper structure with headings, and maintaining reader interest.\n" +
      "    Include an introduction, main points, and conclusion."
    case Story =>
      " story.\n" +
      "    Focus on narrative flow, character development, and engaging plot elements.\n" +
      "    Create an immersive experience for the reader."
    case Suggestion =>
      "\n" +
      "    Provide natural, contextually appropriate continuations that maintain the original style and tone.\n" +
      "    Keep suggestions concise and relevant to the existing text."
  }

  /** The interpolated tone; the suggestion instruction has no slot for it. */
  function ToneSlot(t: WritingType, tone: Tone): string {
    if t == Suggestion then "" else ToneName(tone)
  }

  /** The `SYSTEM_PROMPTS` table: one entry per writing type, applied to a tone. */
  function SystemPrompt(t: WritingType, tone: Tone): string {
    Opening(t) + ToneSlot(t, tone) + Closing(t)
  }

  const UserPromptLead := "Write about: \""

  /** Everything the full prompt carries in front of the user's content. */
  function PromptHead(t: WritingType, tone: Tone): string {
    SystemPrompt(t, tone) + "\n\n" + UserPromptLead
  }

  /** The single prompt sent to the model: system instruction, blank line, quoted request. */
  function FullPrompt(content: string, t: WritingType, tone: Tone): string {
    PromptHead(t, tone) + content + "\""
  }

  /** Reads the user's content back out of a full prompt built for `t` and `tone`. */
  function PromptContent(prompt: string, t: WritingType, tone: Tone): Option<string> {
    Unwrap(prompt, PromptHead(t, tone), "\"")
  }

  /** The full prompt embeds the content verbatim: it can be read back, and only a prompt built from it reads back to it. */
  lemma FullPromptRoundTrip(content: string, prompt: string, t: WritingType, tone: Tone)
    ensures PromptContent(FullPrompt(content, t, tone), t, tone) == Some(content)
    ensures PromptContent(prompt, t, tone) == Some(content) ==> prompt == FullPrompt(content, t, tone)
  {
    UnwrapWrap(PromptHead(t, tone), content, "\"");
  }

  /** Text between a fixed opening and closing determines, and is determined by, the whole. */
  lemma MiddleCancel(x: string, a: string, b: string, y: string)
    ensures x + a + y == x + b + y <==> a == b
  {
    if x + a + y == x + b + y {
      assert |a| == |b|;
      assert (x + a + y)[|x|..|x| + |a|] == a;
      assert (x + b + y)[|x|..|x| + |b|] == b;
    }
  }

  /** Two tones fill the slot alike exactly when they are equal or the type has no slot. */
  lemma ToneSlotInjective(t: WritingType, a: Tone, b: Tone)
    ensures ToneSlot(t, a) == ToneSlot(t, b) <==> (a == b || t == Suggestion)
  {
    if t != Suggestion && a != b {
      assert ToneName(a)[0] != ToneName(b)[0] || ToneName(a)[1] != ToneName(b)[1];
    }
  }

  /** The email, blog and story instructions interpolate the tone; the suggestion instruction ignores it. */
  lemma SystemPromptTone(t: WritingType, a: Tone, b: Tone)
    ensures SystemPrompt(t, a) == SystemPrompt(t, b) <==> (a == b || t == Suggestion)
  {
    MiddleCancel(Opening(t), ToneSlot(t, a), ToneSlot(t, b), Closing(t));
    ToneSlotInjective(t, a, b);
  }

  /** Each writing type has its own entry of the table: instructions for different types never coincide. */
  lemma SystemPromptsDistinct(t1: WritingType, a: Tone, t2: WritingType, b: Tone)
    ensures SystemPrompt(t1, a) == SystemPrompt(t2, b) ==> t1 == t2
  {
    if t1 != t2 {
      SystemPromptsDiffer(t1, a, t2, b);
    }
  }

  lemma SystemPromptsDiffer(t1: WritingType, a: Tone, t2: WritingType, b: Tone)
    requires t1 != t2
    ensures SystemPrompt(t1, a) != SystemPrompt(t2, b)
  {
    SystemPromptBegins(t1, a);
    SystemPromptBegins(t2, b);
    DifferentOpenings(t1, t2, SystemPrompt(t1, a), SystemPrompt(t2, b));
  }

  /** Texts that open like instructions for different types are different texts. */
  lemma DifferentOpenings(t1: WritingType, t2: WritingType, s1: string, s2: string)
    requires t1 != t2 && StartsWith(s1, Role(t1)) && StartsWith(s2, Role(t2))
    ensures s1 != s2
  {
    RolesDiverge(t1, t2);
    DivergingPrefixes(s1, s2, Role(t1), Role(t2), 10, 11);
  }

  /** Roles for different types already disagree by their twelfth character. */
  lemma RolesDiverge(t1: WritingType, t2: WritingType)
    requires t1 != t2
    ensures 12 <= |Role(t1)| && 12 <= |Role(t2)|
    ensures Role(t1)[10] != Role(t2)[10] || Role(t1)[11] != Role(t2)[11]
  {
  }

  lemma SystemPromptBegins(t: WritingType, tone: Tone)
    ensures StartsWith(SystemPrompt(t, tone), Role(t))
  {
    NestedPrefix(Role(t), Duty(t), ToneSlot(t, tone), Closing(t));
  }

  /** What the external model does with one prompt. */
  datatype Outcome = Ok(text: string) | Fail

  /** U+26A0 WARNING SIGN followed by U+FE0F VARIATION SELECTOR-16. */
  const WarningSign := "\U{26A0}\U{FE0F}"

  /**
   The words of the two fixed messages, each with its leading space. The
   program writes each message as one literal; keeping them as word lists lets
   lower-casing and the blocklist check go word by word rather than over one
   long literal. `Concat` of the words is the program's text.
   */
  const NoContentWords: seq<string> := [WarningSign, " No", " content", " was", " generated."]
  const FailureWords: seq<string> := [WarningSign, " Failed", " to", " generate", " content.", " Please", " try", " again."]

  /** "⚠️ No content was generated." */
  const NoContentMessage := Concat(NoContentWords)

  /** "⚠️ Failed to generate content. Please try again." */
  const FailureMessage := Concat(FailureWords)

  /** The same words, lower-cased. */
  const NoContentLowered: seq<string> := [WarningSign, " no", " content", " was", " generated."]
  const FailureLowered: seq<string> := [WarningSign, " failed", " to", " generate", " content.", " please", " try", " again."]

  lemma LowerMessages()
    ensures Lower(NoContentMessage) == Concat(NoContentLowered)
    ensures Lower(FailureMessage) == Concat(FailureLowered)
  {
    LowerConcat(NoContentWords, NoContentLowered);
    LowerConcat(FailureWords, FailureLowered);
  }

  /** Both messages start with the warning sign and end with a full stop, so trimming leaves them alone. */
  lemma MessagesAreTrimmed()
    ensures Trim(NoContentMessage) == NoContentMessage
    ensures Trim(FailureMessage) == FailureMessage
  {
    ConcatEnds(NoContentWords);
    ConcatEnds(FailureWords);
    TrimFixedPoint(NoContentMessage);
    TrimFixedPoint(FailureMessage);
  }

  /** The value `generateContent` resolves to for a given model outcome. */
  function Normalize(o: Outcome): (r: string)
    ensures r != ""
    ensures Trim(r) == r
    ensures o.Fail? ==> r == FailureMessage
    ensures o.Ok? && Trim(o.text) != "" ==> r == Trim(o.text)
    ensures o.Ok? && Trim(o.text) == "" ==> r == NoContentMessage
  {
    match o
    case Ok(text) =>
      var t := Trim(text);
      TrimIdempotent(text);
      MessagesAreTrimmed();
      if t != "" then t else NoContentMessage
    case Fail =>
      MessagesAreTrimmed();
      FailureMessage
  }

  /** The arguments of one `generateContent` call. */
  datatype Request = Request(content: string, wtype: WritingType, tone: Tone)

  /** The prompts sent to the model during one call, in order, and the value returned. */
  datatype Invocation = Invocation(prompts: seq<string>, result: string)

  function GenerateContent(req: Request, model: string -> Outcome): (r: Invocation)
    ensures r.prompts == [FullPrompt(req.content, req.wtype, req.tone)]
    ensures r.result == Normalize(model(r.prompts[0]))
    ensures r.result != ""
  {
    var prompt := FullPrompt(req.content, req.wtype, req.tone);
    Invocation([prompt], Normalize(model(prompt)))
  }

  /** Model output that happens to equal the failure message cannot be told apart from a failure. */
  lemma FailureIndistinguishable()
    ensures Normalize(Ok(FailureMessage)) == Normalize(Fail)
  {
    MessagesAreTrimmed();
  }
}
