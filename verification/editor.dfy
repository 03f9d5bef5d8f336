/**
 The editor's "improve prompt" action: the instruction template that asks the
 model to rewrite the user's prompt, the guard on empty input, the call made
 with it, and the clean-up of the answer.
 */
module Editor {
  import opened Basics
  import opened Text
  import opened Types
  import opened Ai
  import opened Sanitizer

  /** Per-type advice placed in the middle of the template; suggestions get the generic block. */
  function Guidance(t: WritingType): string {
    GuidanceTopic(t) + GuidanceBody(t)
  }

  /** The first line of each guidance block, naming what it is about. */
  function GuidanceTopic(t: WritingType): string {
    match t
    case Email => "Consider the following for an email:\n"
    case Blog => "Consider the following for a blog post:\n"
    case Story => "Consider the following for a story:\n"
    case Suggestion => "Consider the following for your content:\n"
  }

  /** The rest of each guidance block: what to cover, then how to structure it. */
  function GuidanceBody(t: WritingType): string {
    match t
    case Email =>
      "- Clear subject line and purpose\n" +
      "- Professional greeting and sign-off\n" +
      "- Structured paragraphs with clear points\n" +
      "- Call to action if needed\n" +
      "- Appropriate length for the context\n" +
      "\n" +
      "Structure your response with:\n" +
      "1. H1 for the main subject/title of the email\n" +
      "2. Clear headings for each section\n" +
      "3. Bullet points for key information\n" +
      "4. Numbered lists for steps or sequences\n" +
      "5. Bold text for important points\n" +
      "6. Proper spacing between sections"
    case Blog =>
      "- Engaging headline and introduction\n" +
      "- Clear main points and subheadings\n" +
      "- Supporting examples or data\n" +
      "- Engaging conclusion\n" +
      "- SEO-friendly structure\n" +
      "\n" +
      "Structure your response with:\n" +
      "1. H1 for main title\n" +
      "2. H2 for major sections\n" +
      "3. H3 for subsections\n" +
      "4. Bullet points for lists\n" +
      "5. Bold text for emphasis\n" +
      "6. Blockquotes for important quotes\n" +
      "7. Code blocks for technical content\n" +
      "8. Tables for structured data"
    case Story =>
      "- Compelling opening hook\n" +
      "- Character development\n" +
      "- Plot progression\n" +
      "- Setting and atmosphere\n" +
      "- Satisfying conclusion\n" +
      "\n" +
      "Structure your response with:\n" +
      "1. Clear scene breaks\n" +
      "2. Dialogue formatting\n" +
      "3. Character descriptions in italics\n" +
      "4. Important plot points in bold\n" +
      "5. Timeline markers\n" +
      "6. Setting descriptions in blockquotes\n" +
      "7. Emotional beats highlighted"
    case Suggestion =>
      "- Clear purpose and goals\n" +
      "- Target audience\n" +
      "- Key points to cover\n" +
      "- Desired outcome\n" +
      "- Any specific requirements\n" +
      "\n" +
      "Structure your response with:\n" +
      "1. Clear hierarchy of headings\n" +
      "2. Bullet points for lists\n" +
      "3. Numbered steps where needed\n" +
      "4. Bold text for emphasis\n" +
      "5. Blockquotes for important quotes\n" +
      "6. Tables for structured data\n" +
      "7. Code blocks for technical content"
  }

  /** The fixed closing of the template: the list of enhancements and the output instruction. */
  const EnhancementList :=
    "Please enhance the prompt by:\n" +
    "1. Adding specific details and context\n" +
    "2. Clarifying the main purpose and goals\n" +
    "3. Including any necessary background information\n" +
    "4. Specifying the target audience\n" +
    "5. Adding any relevant constraints or requirements\n" +
    "6. Ensuring proper markdown formatting for better readability\n" +
    "7. Using appropriate heading levels (H1, H2, H3)\n" +
    "8. Implementing bullet points and numbered lists\n" +
    "9. Adding emphasis where needed (bold, italic)\n" +
    "10. Including blockquotes for important information\n" +
    "\n"

  /** The instruction's first words, naming the tone and the type. */
  function Opener(t: WritingType, tone: Tone): string {
    "Improve this " + ToneName(tone) + " " + TypeName(t) + " prompt"
  }

  const Purpose := " to be more detailed and effective. \n"
  const QuoteIntro := "Current prompt: \""

  /** Everything in front of the user's prompt: tone and type, then the opening quote. */
  function ImprovementHead(t: WritingType, tone: Tone): string {
    Opener(t, tone) + Purpose + QuoteIntro
  }

  const Instruction := "Provide ONLY the improved prompt in markdown format, without any additional descriptions or explanations."

  /** Everything after the user's prompt: the closing quote, the guidance and the enhancements. */
  function ImprovementTail(t: WritingType): string {
    "\"" + TemplateClose(t)
  }

  /** After the closing quote: the guidance for the type, the enhancements and the output instruction. */
  function TemplateClose(t: WritingType): string {
    "\n\n" + Guidance(t) + "\n\n" + EnhancementList + Instruction
  }

  /** `getImprovementPrompt`: the user's prompt quoted inside the rewrite instruction. */
  function ImprovementPrompt(content: string, t: WritingType, tone: Tone): string {
    ImprovementHead(t, tone) + content + ImprovementTail(t)
  }

  /** Reads the user's prompt back out of an improvement instruction built for `t` and `tone`. */
  function QuotedPrompt(instruction: string, t: WritingType, tone: Tone): Option<string> {
    Unwrap(instruction, ImprovementHead(t, tone), ImprovementTail(t))
  }

  /** The instruction quotes the user's prompt verbatim: it reads back, and only an instruction built from it reads back to it. */
  lemma ImprovementRoundTrip(content: string, instruction: string, t: WritingType, tone: Tone)
    ensures QuotedPrompt(ImprovementPrompt(content, t, tone), t, tone) == Some(content)
    ensures QuotedPrompt(instruction, t, tone) == Some(content) ==> instruction == ImprovementPrompt(content, t, tone)
  {
    UnwrapWrap(ImprovementHead(t, tone), content, ImprovementTail(t));
  }

  /**
   The instruction opens with the tone and the type, quotes the user's prompt
   after "Current prompt: ", and closes with the markdown-only output line.
   */
  lemma ImprovementShape(content: string, t: WritingType, tone: Tone)
    ensures StartsWith(ImprovementPrompt(content, t, tone), Opener(t, tone))
    ensures Contains(ImprovementPrompt(content, t, tone), QuoteIntro + content + "\"")
    ensures EndsWith(ImprovementPrompt(content, t, tone), Instruction)
  {
    TemplateParts(Opener(t, tone), Purpose, QuoteIntro, content, "\"", "\n\n" + Guidance(t) + "\n\n" + EnhancementList, Instruction);
  }

  lemma TemplateParts(a: string, b: string, c: string, d: string, e: string, x: string, i: string)
    ensures StartsWith((a + b + c) + d + (e + (x + i)), a)
    ensures Contains((a + b + c) + d + (e + (x + i)), c + d + e)
    ensures EndsWith((a + b + c) + d + (e + (x + i)), i)
  {
    var p := (a + b + c) + d + (e + (x + i));
    assert p[..|a|] == a;
    assert p[|a + b|..|a + b| + |c + d + e|] == c + d + e;
    assert OccursAt(p, c + d + e, |a + b|);
    assert p[|p| - |i|..] == i;
  }

  /** Each writing type gets its own guidance block. */
  lemma GuidanceDistinct(t1: WritingType, t2: WritingType)
    ensures Guidance(t1) == Guidance(t2) <==> t1 == t2
  {
    if t1 != t2 {
      GuidanceBegins(t1);
      GuidanceBegins(t2);
      DifferentTopics(t1, t2, Guidance(t1), Guidance(t2));
    }
  }

  /** Texts that open with the topic lines of different types are different texts. */
  lemma DifferentTopics(t1: WritingType, t2: WritingType, s1: string, s2: string)
    requires t1 != t2 && StartsWith(s1, GuidanceTopic(t1)) && StartsWith(s2, GuidanceTopic(t2))
    ensures s1 != s2
  {
    TopicsDiverge(t1, t2);
    DivergingPrefixes(s1, s2, GuidanceTopic(t1), GuidanceTopic(t2), 28, 29);
  }

  /** Topic lines for different types already disagree by their thirtieth character. */
  lemma TopicsDiverge(t1: WritingType, t2: WritingType)
    requires t1 != t2
    ensures 30 <= |GuidanceTopic(t1)| && 30 <= |GuidanceTopic(t2)|
    ensures GuidanceTopic(t1)[28] != GuidanceTopic(t2)[28] || GuidanceTopic(t1)[29] != GuidanceTopic(t2)[29]
  {
  }

  lemma GuidanceBegins(t: WritingType)
    ensures StartsWith(Guidance(t), GuidanceTopic(t))
  {
    assert (GuidanceTopic(t) + GuidanceBody(t))[..|GuidanceTopic(t)|] == GuidanceTopic(t);
  }

  /** What one press of "improve" leaves behind: the prompts sent to the model and the editor's new content. */
  datatype Improvement = Improvement(prompts: seq<string>, content: string)

  /**
   `handleImprovePrompt`: blank input is left alone without a call; otherwise
   the instruction is sent once, as a professional suggestion, and the
   cleaned-up answer replaces the content.
   */
  function ImprovePrompt(content: string, t: WritingType, tone: Tone, model: string -> Outcome): (r: Improvement)
    ensures Trim(content) == "" <==> r.prompts == []
    ensures Trim(content) == "" ==> r.content == content
    ensures Trim(content) != "" ==>
      && r.prompts == [FullPrompt(ImprovementPrompt(content, t, tone), Suggestion, Professional)]
      && r.content == Sanitize(Normalize(model(r.prompts[0])))
      && Trim(r.content) == r.content && Clean(r.content)
      && (model(r.prompts[0]).Fail? ==> r.content == FailureMessage)
      && (model(r.prompts[0]).Ok? && Trim(model(r.prompts[0]).text) == "" ==> r.content == NoContentMessage)
  {
    if Trim(content) == "" then Improvement([], content)
    else AskToImprove(ImprovementPrompt(content, t, tone), model)
  }

  /** One generation call with the instruction as a professional suggestion, its answer run through the sanitizer. */
  function AskToImprove(instruction: string, model: string -> Outcome): (r: Improvement)
    ensures r.prompts == [FullPrompt(instruction, Suggestion, Professional)]
    ensures r.content == Sanitize(Normalize(model(r.prompts[0])))
    ensures Trim(r.content) == r.content && Clean(r.content)
    ensures model(r.prompts[0]).Fail? ==> r.content == FailureMessage
    ensures model(r.prompts[0]).Ok? && Trim(model(r.prompts[0]).text) == "" ==> r.content == NoContentMessage
  {
    var call := GenerateContent(Request(instruction, Suggestion, Professional), model);
    CleanedAnswer(call.prompts[0], model);
    Improvement(call.prompts, Sanitize(call.result))
  }

  /** Whatever the model does with a prompt, the sanitized normalised answer is trimmed and clean, and a fixed message on failure or a blank answer. */
  lemma CleanedAnswer(prompt: string, model: string -> Outcome)
    ensures var v := Sanitize(Normalize(model(prompt)));
      && Trim(v) == v && Clean(v)
      && (model(prompt).Fail? ==> v == FailureMessage)
      && (model(prompt).Ok? && Trim(model(prompt).text) == "" ==> v == NoContentMessage)
  {
    MessagesSurviveSanitize();
  }

  /** The model receives the user's prompt verbatim, quoted twice over: in the instruction, inside the full prompt. */
  lemma ImproveQuotesContent(content: string, t: WritingType, tone: Tone, model: string -> Outcome)
    requires Trim(content) != ""
    ensures var sent := ImprovePrompt(content, t, tone, model).prompts[0];
      && PromptContent(sent, Suggestion, Professional) == Some(ImprovementPrompt(content, t, tone))
      && QuotedPrompt(ImprovementPrompt(content, t, tone), t, tone) == Some(content)
  {
    FullPromptRoundTrip(ImprovementPrompt(content, t, tone), "", Suggestion, Professional);
    ImprovementRoundTrip(content, "", t, tone);
  }

  /** Neither fixed message of the generation client is taken for filler or preamble. */
  lemma MessagesSurviveSanitize()
    ensures Sanitize(NoContentMessage) == NoContentMessage
    ensures Sanitize(FailureMessage) == FailureMessage
  {
    MessagesAreTrimmed();
    MessageShape(NoContentWords);
    MessageShape(FailureWords);
    NoContentClean();
    FailureClean();
    NotMarkerByHead(NoContentMessage);
    NotMarkerByHead(FailureMessage);
    SanitizeKeepsLine(NoContentMessage);
    SanitizeKeepsLine(FailureMessage);
  }

  /** A message built from these words starts with the warning sign and has no line break. */
  lemma MessageShape(words: seq<string>)
    requires words == NoContentWords || words == FailureWords
    ensures Concat(words) != [] && Concat(words)[0] == '\U{26A0}' && '\n' !in Concat(words)
  {
    ConcatEnds(words);
    CharAbsentConcat(words, '\n');
  }

  lemma NoContentClean()
    ensures Clean(NoContentMessage)
  {
    LowerMessages();
    NoContentNoPairs();
    NoContentPairsOf();
    CleanByAbsentPairs(NoContentMessage, Blocklist, "hhbypiifcshlf", "eea l' tupoee", [0, 0, 0, 4, 0, 0, 0, 3, 0, 0, 0, 0, 0]);
  }

  lemma NoContentPairsOf()
    ensures PairsOf(Blocklist, "hhbypiifcshlf", "eea l' tupoee", [0, 0, 0, 4, 0, 0, 0, 3, 0, 0, 0, 0, 0])
  {
  }

  lemma NoContentNoPairs()
    ensures forall j :: 0 <= j < 13 ==> NoPair(Concat(NoContentLowered), "hhbypiifcshlf"[j], "eea l' tupoee"[j])
  {
    var xs, ys := "hhbypiifcshlf", "eea l' tupoee";
    NoContentNoPairsFirst();
    NoContentNoPairsSecond();
    forall j | 0 <= j < |xs| ensures NoPair(Concat(NoContentLowered), xs[j], ys[j]) {
      if j < 6 {
        assert xs[j] == "hhbypi"[j] && ys[j] == "eea l'"[j];
      } else {
        assert xs[j] == "ifcshlf"[j - 6] && ys[j] == " tupoee"[j - 6];
      }
    }
  }

  lemma NoContentNoPairsFirst()
    ensures forall j :: 0 <= j < 6 ==> NoPair(Concat(NoContentLowered), "hhbypi"[j], "eea l'"[j])
  {
    PairsAbsentEverywhere(NoContentLowered, "hhbypi", "eea l'");
  }

  lemma NoContentNoPairsSecond()
    ensures forall j :: 0 <= j < 7 ==> NoPair(Concat(NoContentLowered), "ifcshlf"[j], " tupoee"[j])
  {
    PairsAbsentEverywhere(NoContentLowered, "ifcshlf", " tupoee");
  }

  lemma FailureClean()
    ensures Clean(FailureMessage)
  {
    LowerMessages();
    FailureNoPairs();
    FailurePairsOf();
    CleanByAbsentPairs(FailureMessage, Blocklist, "hhbonihdcihmf", "eeaud'arucoer", [0, 0, 0, 11, 9, 0, 2, 0, 0, 6, 0, 4, 5]);
  }

  lemma FailurePairsOf()
    ensures PairsOf(Blocklist, "hhbonihdcihmf", "eeaud'arucoer", [0, 0, 0, 11, 9, 0, 2, 0, 0, 6, 0, 4, 5])
  {
  }

  /**
   The thirteen character pairs are checked in chunks of four or five (the
   `FailureNoPairs*` and `NoContentNoPairs*` lemmas below), each its own
   lemma, only so that every proof obligation stays small.
   */
  lemma FailureNoPairs()
    ensures forall j :: 0 <= j < 13 ==> NoPair(Concat(FailureLowered), "hhbonihdcihmf"[j], "eeaud'arucoer"[j])
  {
    var xs, ys := "hhbonihdcihmf", "eeaud'arucoer";
    FailureNoPairsFirst();
    FailureNoPairsSecond();
    FailureNoPairsThird();
    forall j | 0 <= j < |xs| ensures NoPair(Concat(FailureLowered), xs[j], ys[j]) {
      if j < 4 {
        assert xs[j] == "hhbo"[j] && ys[j] == "eeau"[j];
      } else if j < 8 {
        assert xs[j] == "nihd"[j - 4] && ys[j] == "d'ar"[j - 4];
      } else {
        assert xs[j] == "cihmf"[j - 8] && ys[j] == "ucoer"[j - 8];
      }
    }
  }

  lemma FailureNoPairsFirst()
    ensures forall j :: 0 <= j < 4 ==> NoPair(Concat(FailureLowered), "hhbo"[j], "eeau"[j])
  {
    PairsAbsentEverywhere(FailureLowered, "hhbo", "eeau");
  }

  lemma FailureNoPairsSecond()
    ensures forall j :: 0 <= j < 4 ==> NoPair(Concat(FailureLowered), "nihd"[j], "d'ar"[j])
  {
    PairsAbsentEverywhere(FailureLowered, "nihd", "d'ar");
  }

  lemma FailureNoPairsThird()
    ensures forall j :: 0 <= j < 5 ==> NoPair(Concat(FailureLowered), "cihmf"[j], "ucoer"[j])
  {
    PairsAbsentEverywhere(FailureLowered, "cihmf", "ucoer");
  }
}
