/** `summarizeChapter`: one model call turns a chapter into its summary,
    saved in the summaries folder. Every failure is reported to the caller
    and nothing is written. */
module SummarizeChapter {
  import opened Wrappers
  import opened Text
  import opened Workspace
  import opened Types
  import opened ContextExtractor
  import opened ChapterNames

  const ChapterContentPlaceholder := "{{chapter_content}}"
  const TemplateNotFound := "Summarization prompt template not found."
  const EmptySummary := "LLM returned an empty summary."
  const SummarySuffix := "_sum"

  /** A file the pipeline writes. */
  datatype Written = Written(path: string, content: string)

  /** The prompt: the first `{{chapter_content}}` of the template replaced
      by the chapter. */
  function SummaryPrompt(template: string, chapter: string): string {
    ReplaceFirst(template, ChapterContentPlaceholder, chapter)
  }

  /** For a template whose first placeholder follows `a`, the prompt is
      the template with the chapter in its place; a second placeholder
      stays as it is. */
  lemma SummaryPromptFills(a: string, c: string, chapter: string)
    requires NoEarlierOccurrence(a, ChapterContentPlaceholder, c)
    ensures SummaryPrompt(a + ChapterContentPlaceholder + c, chapter) == a + chapter + c
  {
    ReplaceFirstAt(a, ChapterContentPlaceholder, c, chapter);
  }

  /** The request: the prompt as one user message with the provider's
      default temperature. */
  function SummaryRequest(template: string, chapter: string): (r: ChatOptions)
    ensures r.messages == [ChatMessage(User, SummaryPrompt(template, chapter))]
    ensures r.temperature.None? && r.maxTokens.None? && !r.streaming
  {
    UserPrompt(SummaryPrompt(template, chapter), None)
  }

  /** Where the summary of a chapter goes: its name passed through both
      `_sum` replacements as `summarizeChapter` writes them, in the
      summaries folder. */
  function SummaryPath(paths: ProjectPaths, chapterPath: string): string {
    JoinPath(paths.summaries, DerivedNameAsWritten(Basename(chapterPath), SummarySuffix))
  }

  /** `summarizeChapter`: the chapter read error, then the missing-template
      error, then the transport's error or the empty-reply error, each
      rethrown; on success the reply, untrimmed, is the summary file. */
  function Summarize(fs: Fs, paths: ProjectPaths, chapterPath: string, llm: Llm): (r: Result<Written, string>)
    ensures chapterPath !in fs.files ==> r == Err(ReadFile(fs, chapterPath).error)
    ensures chapterPath in fs.files && PromptTemplate(fs, paths, Summarization) == "" ==> r == Err(TemplateNotFound)
    ensures r.Ok? <==>
              && chapterPath in fs.files
              && PromptTemplate(fs, paths, Summarization) != ""
              && llm(SummaryRequest(PromptTemplate(fs, paths, Summarization), fs.files[chapterPath])).Ok?
              && llm(SummaryRequest(PromptTemplate(fs, paths, Summarization), fs.files[chapterPath])).value != ""
    ensures r.Ok? ==>
              r.value == Written(SummaryPath(paths, chapterPath),
                                 llm(SummaryRequest(PromptTemplate(fs, paths, Summarization), fs.files[chapterPath])).value)
  {
    match ReadFile(fs, chapterPath)
    case Err(e) => Err(e)
    case Ok(chapter) =>
      var template := PromptTemplate(fs, paths, Summarization);
      if template == "" then Err(TemplateNotFound)
      else match llm(SummaryRequest(template, chapter))
        case Err(e) => Err(e)
        case Ok(text) =>
          if text == "" then Err(EmptySummary)
          else Ok(Written(SummaryPath(paths, chapterPath), text))
  }

  /** The template is checked before the model is asked: with no template
      the outcome does not depend on the transport at all. */
  lemma TemplateGuardPrecedesRequest(fs: Fs, paths: ProjectPaths, chapterPath: string, llm: Llm, other: Llm)
    requires PromptTemplate(fs, paths, Summarization) == ""
    ensures Summarize(fs, paths, chapterPath, llm) == Summarize(fs, paths, chapterPath, other)
    ensures Summarize(fs, paths, chapterPath, llm).Err?
  {
  }

  lemma DoubledEnding(stem: string)
    ensures stem + SummarySuffix + SummarySuffix + MdEnding == stem + "_sum_sum.md"
  {
    assert SummarySuffix + SummarySuffix + MdEnding == "_sum_sum.md";
    assert stem + SummarySuffix + SummarySuffix + MdEnding == stem + (SummarySuffix + SummarySuffix + MdEnding);
  }

  /** A draft from the chapter template is summarized as
      `summaries/<stem>_sum_sum.md`: the suffix lands twice (see
      `ChapterNames.DraftSuffixDoubled`). */
  lemma DraftSummaryPath(paths: ProjectPaths, dir: string, stem: string)
    requires '/' !in stem
    ensures SummaryPath(paths, dir + "/" + stem + DraftEnding) == JoinPath(paths.summaries, stem + "_sum_sum.md")
  {
    DraftBasename(dir, stem);
    DraftSuffixDoubled(stem, SummarySuffix);
    DoubledEnding(stem);
  }
}
