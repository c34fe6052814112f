/** `SummarizerService`: the running story summary, refreshed from a chunk
    of the conversation by one low-temperature model call. Every failure
    falls back to the previous summary. */
module Summarizer {
  import opened Wrappers
  import opened Text
  import opened Seqs
  import opened Workspace
  import opened Types

  const TemplatePath := "scenario/prompts/summarization_prompt.md"
  const TemplateNotFound := "Summarization prompt template not found."
  const NoSummaryYet := "（まだ要約はありません）"
  const PreviousSummaryPlaceholder := "{{previous_summary}}"
  const NewLogPlaceholder := "{{new_log}}"
  const TurnSeparator := "\n\n"

  /** The sampling temperature of a summary request. */
  const SummaryTemperature: real := 0.2

  /** The service's one piece of state: the cached template (`null` as `None`). */
  datatype Summarizer = Summarizer(template: Option<string>)

  /** `loadPromptTemplate`: a cached non-empty template is returned without
      reading; otherwise the file is read and whatever it holds is cached,
      while a read failure leaves the cache alone and reports the error. */
  function LoadPromptTemplate(st: Summarizer, fs: Fs): (r: (Summarizer, Result<string, string>))
    ensures st.template.Some? && st.template.value != "" ==> r == (st, Ok(st.template.value))
    ensures (st.template.None? || st.template.value == "") && TemplatePath in fs.files ==>
              r == (Summarizer(Some(fs.files[TemplatePath])), Ok(fs.files[TemplatePath]))
    ensures (st.template.None? || st.template.value == "") && TemplatePath !in fs.files ==>
              r == (st, Err(TemplateNotFound))
  {
    if st.template.Some? && st.template.value != "" then (st, Ok(st.template.value))
    else match ReadFile(fs, TemplatePath)
      case Ok(text) => (Summarizer(Some(text)), Ok(text))
      case Err(_) => (st, Err(TemplateNotFound))
  }

  /** Once a non-empty template has been loaded it is reused: a later load
      gives the same text whatever the workspace then holds. */
  lemma TemplateCached(st: Summarizer, fs: Fs, later: Fs)
    requires LoadPromptTemplate(st, fs).1.Ok? && LoadPromptTemplate(st, fs).1.value != ""
    ensures var (cached, t) := LoadPromptTemplate(st, fs);
            LoadPromptTemplate(cached, later) == (cached, t)
  {
  }

  /** One turn of `formatLogToText`. */
  function FormatTurn(m: ChatMessage): string {
    if m.role == User then "プレイヤー: " + m.content else "NPC:\n" + m.content
  }

  /** `formatLogToText`: each turn formatted, joined by blank lines. */
  function FormatLogToText(chunk: seq<ChatMessage>): (r: string)
    ensures chunk == [] ==> r == ""
    ensures |chunk| == 1 ==> r == FormatTurn(chunk[0])
  {
    Join(Map(chunk, FormatTurn), TurnSeparator)
  }

  /** Formatting is compositional: the text of two consecutive chunks is
      the text of the first, a blank line, then the text of the second. */
  lemma FormatLogAppend(a: seq<ChatMessage>, b: seq<ChatMessage>)
    requires a != [] && b != []
    ensures FormatLogToText(a + b) == FormatLogToText(a) + TurnSeparator + FormatLogToText(b)
  {
    assert Map(a + b, FormatTurn) == Map(a, FormatTurn) + Map(b, FormatTurn);
    JoinAppend(Map(a, FormatTurn), Map(b, FormatTurn), TurnSeparator);
  }

  /** `previousSummary || '（まだ要約はありません）'`. */
  function PreviousOrPlaceholder(previous: string): (r: string)
    ensures r != ""
    ensures previous != "" ==> r == previous
    ensures previous == "" ==> r == NoSummaryYet
  {
    if previous == "" then NoSummaryYet else previous
  }

  /** The summary prompt: the first `{{previous_summary}}` filled, then the
      first `{{new_log}}` of the result. */
  function SummaryPrompt(template: string, previous: string, chunk: seq<ChatMessage>): string {
    ReplaceFirst(ReplaceFirst(template, PreviousSummaryPlaceholder, PreviousOrPlaceholder(previous)),
                 NewLogPlaceholder, FormatLogToText(chunk))
  }

  /** When the template's first previous-summary placeholder follows `a`,
      and, once the summary is in, the first log placeholder is the one the
      template put after `b`, the prompt is the template with the previous
      summary and the formatted log in their places. */
  lemma SummaryPromptFills(a: string, b: string, c: string, previous: string, chunk: seq<ChatMessage>)
    requires NoEarlierOccurrence(a, PreviousSummaryPlaceholder, b + NewLogPlaceholder + c)
    requires NoEarlierOccurrence(a + PreviousOrPlaceholder(previous) + b, NewLogPlaceholder, c)
    ensures SummaryPrompt(a + PreviousSummaryPlaceholder + b + NewLogPlaceholder + c, previous, chunk) ==
              a + PreviousOrPlaceholder(previous) + b + FormatLogToText(chunk) + c
  {
    ReplaceFirstTwice(a, PreviousSummaryPlaceholder, b, NewLogPlaceholder, c, PreviousOrPlaceholder(previous), FormatLogToText(chunk));
  }

  /** The request `summarize` sends. */
  function SummaryRequest(template: string, previous: string, chunk: seq<ChatMessage>): (r: ChatOptions)
    ensures r.messages == [ChatMessage(User, SummaryPrompt(template, previous, chunk))]
    ensures r.temperature == Some(SummaryTemperature) && !r.streaming
  {
    UserPrompt(SummaryPrompt(template, previous, chunk), Some(SummaryTemperature))
  }

  /** `summarize`: the trimmed reply, or the previous summary unchanged when
      the template cannot be loaded, the transport fails, or the reply is
      empty. Returns the service state (its template cache) as well. */
  function Summarize(st: Summarizer, fs: Fs, previous: string, chunk: seq<ChatMessage>, llm: Llm): (r: (Summarizer, string))
    ensures r.0 == LoadPromptTemplate(st, fs).0
    ensures LoadPromptTemplate(st, fs).1.Err? ==> r.1 == previous
    ensures LoadPromptTemplate(st, fs).1.Ok? ==>
              var reply := llm(SummaryRequest(LoadPromptTemplate(st, fs).1.value, previous, chunk));
              r.1 == if reply.Ok? && reply.value != "" then Trim(reply.value) else previous
  {
    var (st', template) := LoadPromptTemplate(st, fs);
    match template
    case Err(_) => (st', previous)
    case Ok(t) =>
      match llm(SummaryRequest(t, previous, chunk))
      case Err(_) => (st', previous)
      case Ok(text) => if text == "" then (st', previous) else (st', Trim(text))
  }

  /** Every failure keeps the previous summary: the result differs from it
      only when the model answered the summary request itself with a
      non-empty text, and then it is that text trimmed. A transport that
      always fails keeps the previous summary. */
  lemma SummaryFailSoft(st: Summarizer, fs: Fs, previous: string, chunk: seq<ChatMessage>, llm: Llm)
    ensures var s := Summarize(st, fs, previous, chunk, llm).1;
            s != previous ==>
              && LoadPromptTemplate(st, fs).1.Ok?
              && var reply := llm(SummaryRequest(LoadPromptTemplate(st, fs).1.value, previous, chunk));
                 reply.Ok? && reply.value != "" && s == Trim(reply.value)
    ensures (forall o: ChatOptions :: llm(o).Err?) ==> Summarize(st, fs, previous, chunk, llm).1 == previous
  {
    var (st', template) := LoadPromptTemplate(st, fs);
    if template.Ok? {
      var o := SummaryRequest(template.value, previous, chunk);
      assert llm(o) == llm(SummaryRequest(LoadPromptTemplate(st, fs).1.value, previous, chunk));
    }
  }

  /** The empty-reply guard tests the raw reply, so a reply of white space
      only passes it and trims to nothing: the previous summary is replaced
      by the empty text. */
  lemma BlankReplyErasesSummary(st: Summarizer, fs: Fs, previous: string, chunk: seq<ChatMessage>, llm: Llm)
    requires LoadPromptTemplate(st, fs).1.Ok?
    requires llm(SummaryRequest(LoadPromptTemplate(st, fs).1.value, previous, chunk)) == Ok("\n")
    ensures Summarize(st, fs, previous, chunk, llm).1 == ""
  {
    assert AllWhitespace("\n");
  }
}
