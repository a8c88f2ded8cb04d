/** The guard, prompt construction and fallbacks around the external
    summarisation service. The service is a parameter: a total function from
    prompt to reply, so whether and with what it is called is observable. */
module Summarizer {
  import opened Seqs
  import opened Text

  /** Content whose stripped length is below this is not sent to the service. */
  const MinContentLength: nat := 200

  /** At most this many characters of content are embedded in the prompt. */
  const MaxExcerptLength: nat := 8000

  const TooShortSummary: string := "内容过短，无法生成有意义的摘要。"
  const ServiceFailedSummary: string := "调用AI总结服务失败。"

  /** The fixed text before and after the excerpt in the prompt. */
  const PromptHead: string := "请将以下英文文章内容总结成一段流畅的中文摘要，专注于核心观点和主要信息，字数在150字左右。不要添加任何个人评论或解释，直接给出摘要.\n\n文章内容:\n---\n"
  const PromptTail: string := "\n---\n"

  /** What the service does with a prompt: answers with text, or raises. */
  datatype ServiceReply = Replied(text: string) | Raised

  /** Whether the service was called, and with which prompt. */
  datatype Invocation = NotInvoked | Invoked(prompt: string)

  datatype Summary = Summary(text: string, call: Invocation)

  /** The prompt template around an excerpt. */
  function Prompt(excerpt: string): (p: string)
    ensures |p| == |PromptHead| + |excerpt| + |PromptTail|
    ensures p[..|PromptHead|] == PromptHead
    ensures p[|p| - |PromptTail|..] == PromptTail
  {
    PromptHead + excerpt + PromptTail
  }

  /** Reads the excerpt back out of a prompt. */
  function PromptExcerpt(p: string): string
    requires |p| >= |PromptHead| + |PromptTail|
  {
    p[|PromptHead|..|p| - |PromptTail|]
  }

  /** The prompt carries its excerpt verbatim. */
  lemma PromptRoundTrip(excerpt: string)
    ensures PromptExcerpt(Prompt(excerpt)) == excerpt
  {
    var p := Prompt(excerpt);
    assert p[|PromptHead|..|p| - |PromptTail|] == excerpt;
  }

  /** `summarize_with_gemini`: too-short content gets a fixed placeholder and
      the service is never called; otherwise the service sees the first 8000
      characters in the prompt, and a raised call gives a second placeholder. */
  function Summarize(content: string, service: string -> ServiceReply): (s: Summary)
    ensures s.call.NotInvoked? <==> |Strip(content)| < MinContentLength
    ensures s.call.NotInvoked? ==> s.text == TooShortSummary
    ensures s.call.Invoked? ==> s.call.prompt == Prompt(content[..Min(|content|, MaxExcerptLength)])
    ensures s.call.Invoked? ==>
      && |s.call.prompt| >= |PromptHead| + |PromptTail|
      && var excerpt := PromptExcerpt(s.call.prompt);
         && |excerpt| == Min(|content|, MaxExcerptLength)
         && excerpt == content[..|excerpt|]
    ensures s.call.Invoked? && service(s.call.prompt).Replied? ==> s.text == service(s.call.prompt).text
    ensures s.call.Invoked? && service(s.call.prompt).Raised? ==> s.text == ServiceFailedSummary
  {
    if content == "" || |Strip(content)| < MinContentLength then
      Summary(TooShortSummary, NotInvoked)
    else
      var excerpt := Take(content, MaxExcerptLength);
      var prompt := Prompt(excerpt);
      PromptRoundTrip(excerpt);
      match service(prompt)
      case Replied(text) => Summary(text, Invoked(prompt))
      case Raised => Summary(ServiceFailedSummary, Invoked(prompt))
  }

  /** Empty content is too short; the separate `not content` test adds no case. */
  lemma EmptyContentIsTooShort(service: string -> ServiceReply)
    ensures Summarize("", service) == Summary(TooShortSummary, NotInvoked)
  {
  }

  /** Whatever happens, a skipped or failed call still leaves a non-empty summary. */
  lemma PlaceholdersNonEmpty(content: string, service: string -> ServiceReply)
    ensures Summarize(content, service).text == "" ==>
      Summarize(content, service).call.Invoked? && service(Summarize(content, service).call.prompt) == Replied("")
  {
  }
}
