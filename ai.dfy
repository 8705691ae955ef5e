/** The decision logic of the `generateSummaryAndTags` action
    (web/convex/ai.ts): check the API key, skip content too short to be worth
    a model call, build the prompt from at most the first 15000 characters,
    and turn the model's answer — or its exception — into the action's
    result. The model itself is an oracle: a function from the prompt to what
    the call produces. */
module Ai {
  import opened Wrappers
  import opened JsString

  /** A thrown JavaScript value, as far as the action can tell them apart:
      converting it to a string in a template literal either gives its text
      or throws another value. */
  datatype Thrown = Printable(text: string) | Unprintable(raised: Thrown)

  /** What `contentAgent.generateObject` does with the prompt: the schema's
      object, or an exception. */
  datatype ModelOutcome = Generated(summary: string, tags: seq<string>) | Threw(exception: Thrown)

  /** The returned object: `null` (or a missing key) is `None`. */
  datatype AiResult = AiResult(summary: Option<string>, tags: Option<seq<string>>, error: Option<string>)

  /** The action returns a result, or rejects with the value its last catch
      block threw. */
  datatype ActionOutcome = Returned(result: AiResult) | Rejected(exception: Thrown)

  const KeyMissingError := "Required Google API Key (e.g., GOOGLE_GENERATIVE_AI_API_KEY) is not set."
  const TooShortSummary := "Content too short to process."
  const FailedSummary := "AI processing failed."
  const UnhandledSummary := "Unhandled AI error."
  const MinContentLength := 50
  const MaxPromptContent := 15000

  const PromptHead :=
    "Analyze the following text content and provide a concise summary and a list of relevant tags.\n"
    + "Format your response as a JSON object with a \"summary\" field (string) and a \"tags\" field (array of strings).\n"
    + "\nContent:\n"
  const PromptTail :=
    "\n\nPlease generate a summary (2-3 sentences) focusing on main topics and key takeaways.\n"
    + "Suggest 3 to 5 relevant tags (single words or short phrases).\n"
    + "If the content is too short, nonsensical, or primarily code/data:\n"
    + "- For summary: return a brief explanation like 'Content not suitable for summarization'.\n"
    + "- For tags: return an empty array."

  /** `!process.env.GOOGLE_GENERATIVE_AI_API_KEY`: unset or empty. */
  predicate KeyMissing(apiKey: Option<string>) {
    apiKey.None? || apiKey.value == ""
  }

  /** `!content || content.trim().length < 50`. */
  predicate TooShort(content: string) {
    content == "" || |Trim(content)| < MinContentLength
  }

  /** `s.substring(0, n)` for `n >= 0`. */
  function Prefix(s: string, n: nat): (r: string)
    ensures |r| <= n && |r| <= |s| && r == s[..|r|]
    ensures |s| <= n ==> r == s
  {
    if |s| <= n then s else s[..n]
  }

  /** The prompt, with the content cut to its first 15000 characters. */
  function Prompt(content: string): (p: string)
    ensures |p| == |PromptHead| + |Prefix(content, MaxPromptContent)| + |PromptTail|
    ensures |p| <= |PromptHead| + MaxPromptContent + |PromptTail|
  {
    PromptHead + Prefix(content, MaxPromptContent) + PromptTail
  }

  /** The outer catch: `` `Unhandled error: ${e}` `` — itself a conversion
      that can throw, and then the action rejects. */
  function Unhandled(e: Thrown): (r: ActionOutcome)
    ensures r.Returned? <==> e.Printable?
    ensures r.Returned? ==> r.result.summary == Some(UnhandledSummary) && r.result.tags == Some([])
                            && r.result.error == Some("Unhandled error: " + e.text)
    ensures r.Rejected? ==> r.exception == e.raised
  {
    match e
    case Printable(text) => Returned(AiResult(Some(UnhandledSummary), Some([]), Some("Unhandled error: " + text)))
    case Unprintable(again) => Rejected(again)
  }

  /** What the action makes of the model call's outcome: the generated object
      comes back untouched and without an error; a failure that still returns
      carries a summary, no tags and an error text; and the action rejects
      only when the exception and the value its conversion throws both defeat
      the conversion to a string. */
  function Answer(outcome: ModelOutcome): (r: ActionOutcome)
    ensures outcome.Generated? ==> r == Returned(AiResult(Some(outcome.summary), Some(outcome.tags), None))
    ensures outcome.Threw? && r.Returned? ==>
              r.result.summary.Some? && r.result.tags == Some([]) && r.result.error.Some?
    ensures r.Rejected? <==> outcome.Threw? && outcome.exception.Unprintable? && outcome.exception.raised.Unprintable?
  {
    match outcome
    case Generated(summary, tags) => Returned(AiResult(Some(summary), Some(tags), None))
    case Threw(e) =>
      // the inner catch: summary is still null and tags still []
      match e
      case Printable(text) =>
        Returned(AiResult(Some(FailedSummary), Some([]), Some("Error in combined AI call: " + text)))
      case Unprintable(raised) => Unhandled(raised)
  }

  /** The handler of `generateSummaryAndTags`. */
  function GenerateSummaryAndTags(apiKey: Option<string>, content: string, model: string -> ModelOutcome)
    : ActionOutcome
  {
    if KeyMissing(apiKey) then Returned(AiResult(None, None, Some(KeyMissingError)))
    else if TooShort(content) then Returned(AiResult(Some(TooShortSummary), Some([]), None))
    else Answer(model(Prompt(content)))
  }

  // ---------------------------------------------------------------------------
  // What the action promises

  /** Without a key, summary and tags are null, the error says why, and the
      model is not consulted — whatever the content, even too short. */
  lemma NoKey(apiKey: Option<string>, content: string, model: string -> ModelOutcome,
              other: string -> ModelOutcome)
    requires KeyMissing(apiKey)
    ensures GenerateSummaryAndTags(apiKey, content, model) == Returned(AiResult(None, None, Some(KeyMissingError)))
    ensures GenerateSummaryAndTags(apiKey, content, model) == GenerateSummaryAndTags(apiKey, content, other)
  {
  }

  /** With a key, content whose trimmed length is under 50 is answered without
      a model call, with no tags and no error. */
  lemma ShortContent(apiKey: Option<string>, content: string, model: string -> ModelOutcome,
                     other: string -> ModelOutcome)
    requires !KeyMissing(apiKey) && |Trim(content)| < MinContentLength
    ensures GenerateSummaryAndTags(apiKey, content, model) == Returned(AiResult(Some(TooShortSummary), Some([]), None))
    ensures GenerateSummaryAndTags(apiKey, content, model) == GenerateSummaryAndTags(apiKey, content, other)
  {
  }

  /** Empty content is too short, whatever `trim` does. */
  lemma EmptyIsTooShort()
    ensures TooShort("")
  {
  }

  /** Content of 50 characters or more around no whitespace reaches the model. */
  lemma LongTrimmedContentIsNotShort(content: string)
    requires IsTrimmed(content) && |content| >= MinContentLength
    ensures !TooShort(content)
  {
    TrimTrimmed(content);
  }

  /** Only the first 15000 characters reach the model: two contents that
      agree on them and both pass the length check get the same result. */
  lemma OnlyThePrefixMatters(apiKey: Option<string>, c1: string, c2: string, model: string -> ModelOutcome)
    requires !TooShort(c1) && !TooShort(c2)
    requires Prefix(c1, MaxPromptContent) == Prefix(c2, MaxPromptContent)
    ensures GenerateSummaryAndTags(apiKey, c1, model) == GenerateSummaryAndTags(apiKey, c2, model)
  {
    SamePrefixSamePrompt(c1, c2);
  }

  lemma SamePrefixSamePrompt(c1: string, c2: string)
    requires Prefix(c1, MaxPromptContent) == Prefix(c2, MaxPromptContent)
    ensures Prompt(c1) == Prompt(c2)
  {
  }

  /** The prompt holds the content whole up to 15000 characters, and its
      first 15000 characters beyond that. */
  lemma PromptEmbedsPrefix(content: string)
    ensures var p := Prompt(content);
            var n := if |content| <= MaxPromptContent then |content| else MaxPromptContent;
            p[|PromptHead|..|PromptHead| + n] == content[..n]
  {
    var n := if |content| <= MaxPromptContent then |content| else MaxPromptContent;
    assert Prefix(content, MaxPromptContent) == content[..n];
    assert (PromptHead + content[..n] + PromptTail)[|PromptHead|..|PromptHead| + n] == content[..n];
  }

  /** The model's object is returned as it is, with no error. */
  lemma ModelSuccess(apiKey: Option<string>, content: string, model: string -> ModelOutcome)
    requires !KeyMissing(apiKey) && !TooShort(content)
    requires model(Prompt(content)).Generated?
    ensures var m := model(Prompt(content));
            GenerateSummaryAndTags(apiKey, content, model) == Returned(AiResult(Some(m.summary), Some(m.tags), None))
  {
  }

  /** A failed model call degrades to a fixed summary and no tags, and says
      what went wrong. */
  lemma ModelFailure(apiKey: Option<string>, content: string, model: string -> ModelOutcome)
    requires !KeyMissing(apiKey) && !TooShort(content)
    requires model(Prompt(content)).Threw?
    ensures var r := GenerateSummaryAndTags(apiKey, content, model);
            var e := model(Prompt(content)).exception;
            && (e.Printable? ==>
                  r == Returned(AiResult(Some(FailedSummary), Some([]), Some("Error in combined AI call: " + e.text))))
            && (e.Unprintable? && e.raised.Printable? ==>
                  r == Returned(AiResult(Some(UnhandledSummary), Some([]), Some("Unhandled error: " + e.raised.text))))
            && (e.Unprintable? && e.raised.Unprintable? ==> r == Rejected(e.raised.raised))
  {
  }

  /** Every returned result either carries no error and a summary, or carries
      an error and no tags beyond `[]`. */
  lemma ErrorMeansNoTags(apiKey: Option<string>, content: string, model: string -> ModelOutcome)
    ensures var r := GenerateSummaryAndTags(apiKey, content, model);
            r.Returned? ==>
              (r.result.error.None? ==> r.result.summary.Some? && r.result.tags.Some?)
              && (r.result.error.Some? ==> r.result.tags == None || r.result.tags == Some([]))
  {
    if !KeyMissing(apiKey) && !TooShort(content) {
      var m := model(Prompt(content));
      if m.Threw? {
        ModelFailure(apiKey, content, model);
      }
    }
  }
}
