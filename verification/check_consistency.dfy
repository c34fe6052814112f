/** `checkConsistency`: the chapter is compared with the story bible by one
    model call, and the report is saved in the reports folder. Every failure
    is reported to the caller and nothing is written. */
module CheckConsistency {
  import opened Wrappers
  import opened Text
  import opened Workspace
  import opened Types
  import opened ContextExtractor
  import opened ChapterNames
  import SummarizeChapter

  const BiblePlaceholder := "{{bible_content}}"
  const ChapterContentPlaceholder := "{{chapter_content}}"
  const TemplateNotFound := "Consistency check prompt template not found."
  const EmptyReport := "LLM returned an empty consistency report."
  const ReportSuffix := "_consistency"

  /** One section: the text between an opening and a closing tag, each on
      its own line. */
  function Tagged(tag: string, body: string): string {
    "<" + tag + ">\n" + body + "\n</" + tag + ">"
  }

  /** The four sections, in order, separated by blank lines. */
  function BibleSections(chars: string, world: string, rules: string, timeline: string): string {
    Tagged("登場人物", chars)
      + ("\n\n" + Tagged("世界観ルール", world) + "\n\n" + Tagged("文体・作風ルール", rules) + "\n\n")
      + Tagged("時系列", timeline)
  }

  /** A section begins with `<` and ends with `>`, so trimming stops at it. */
  lemma TaggedEnds(tag: string, body: string)
    ensures |Tagged(tag, body)| > 0
    ensures Tagged(tag, body)[0] == '<' && Tagged(tag, body)[|Tagged(tag, body)| - 1] == '>'
  {
  }

  /** The first and last characters of a three-part text whose outer parts
      are non-empty. */
  lemma Ends(h: string, m: string, t: string)
    requires |h| > 0 && |t| > 0
    ensures (h + m + t)[0] == h[0] && (h + m + t)[|h + m + t| - 1] == t[|t| - 1]
  {
  }

  /** The end of the template literal: a line break and the sixteen spaces
      that indent its closing line. */
  const ClosingLine := "\n                "

  /** The bible as the template literal writes it, before trimming: a line
      break, the four sections, then the closing line. */
  function BibleLiteral(chars: string, world: string, rules: string, timeline: string): string {
    "\n" + BibleSections(chars, world, rules, timeline) + ClosingLine
  }

  /** The bible content: the literal, trimmed. */
  function BibleContent(chars: string, world: string, rules: string, timeline: string): string {
    Trim(BibleLiteral(chars, world, rules, timeline))
  }

  /** Trimming the literal removes only its frame, whatever the documents
      hold: the bible is the characters, world, style rules and timeline
      sections in that order. */
  lemma BibleContentSections(chars: string, world: string, rules: string, timeline: string)
    ensures BibleContent(chars, world, rules, timeline) == BibleSections(chars, world, rules, timeline)
  {
    var x := BibleSections(chars, world, rules, timeline);
    TaggedEnds("登場人物", chars);
    TaggedEnds("時系列", timeline);
    Ends(Tagged("登場人物", chars),
         "\n\n" + Tagged("世界観ルール", world) + "\n\n" + Tagged("文体・作風ルール", rules) + "\n\n",
         Tagged("時系列", timeline));
    assert AllWhitespace("\n") && AllWhitespace(ClosingLine);
    TrimFramed("\n", x, ClosingLine);
  }

  /** The bible the pipeline gathers from the project. */
  function Bible(fs: Fs, paths: ProjectPaths): string {
    BibleContent(CharactersDoc(fs, paths), WorldDoc(fs, paths), StyleRulesDoc(fs, paths), TimelineDoc(fs, paths))
  }

  /** The prompt: the first `{{bible_content}}` replaced, then the first
      `{{chapter_content}}` of the result. */
  function ConsistencyPrompt(template: string, bible: string, chapter: string): string {
    ReplaceFirst(ReplaceFirst(template, BiblePlaceholder, bible), ChapterContentPlaceholder, chapter)
  }

  /** When the template's first bible placeholder follows `a`, and, once
      the bible is in, the first chapter placeholder is the one the template
      put after `b`, the prompt is the template with the bible and the
      chapter in their places. */
  lemma ConsistencyPromptFills(a: string, b: string, c: string, bible: string, chapter: string)
    requires NoEarlierOccurrence(a, BiblePlaceholder, b + ChapterContentPlaceholder + c)
    requires NoEarlierOccurrence(a + bible + b, ChapterContentPlaceholder, c)
    ensures ConsistencyPrompt(a + BiblePlaceholder + b + ChapterContentPlaceholder + c, bible, chapter) ==
              a + bible + b + chapter + c
  {
    ReplaceFirstTwice(a, BiblePlaceholder, b, ChapterContentPlaceholder, c, bible, chapter);
  }

  function ConsistencyRequest(template: string, bible: string, chapter: string): (r: ChatOptions)
    ensures r.messages == [ChatMessage(User, ConsistencyPrompt(template, bible, chapter))]
    ensures r.temperature.None? && r.maxTokens.None? && !r.streaming
  {
    UserPrompt(ConsistencyPrompt(template, bible, chapter), None)
  }

  /** Where the report of a chapter goes: its name passed through both
      `_consistency` replacements as `checkConsistency` writes them, in the
      reports folder. */
  function ReportPath(paths: ProjectPaths, chapterPath: string): string {
    JoinPath(paths.reports, DerivedNameAsWritten(Basename(chapterPath), ReportSuffix))
  }

  /** `checkConsistency`: the chapter read error, then the missing-template
      error, then the transport's error or the empty-report error, each
      rethrown; on success the reply, untrimmed, is the report file. */
  function Check(fs: Fs, paths: ProjectPaths, chapterPath: string, llm: Llm): (r: Result<SummarizeChapter.Written, string>)
    ensures chapterPath !in fs.files ==> r == Err(ReadFile(fs, chapterPath).error)
    ensures chapterPath in fs.files && PromptTemplate(fs, paths, ConsistencyCheck) == "" ==> r == Err(TemplateNotFound)
    ensures r.Ok? <==>
              && chapterPath in fs.files
              && PromptTemplate(fs, paths, ConsistencyCheck) != ""
              && llm(ConsistencyRequest(PromptTemplate(fs, paths, ConsistencyCheck), Bible(fs, paths), fs.files[chapterPath])).Ok?
              && llm(ConsistencyRequest(PromptTemplate(fs, paths, ConsistencyCheck), Bible(fs, paths), fs.files[chapterPath])).value != ""
    ensures r.Ok? ==>
              r.value == SummarizeChapter.Written(ReportPath(paths, chapterPath),
                llm(ConsistencyRequest(PromptTemplate(fs, paths, ConsistencyCheck), Bible(fs, paths), fs.files[chapterPath])).value)
  {
    match ReadFile(fs, chapterPath)
    case Err(e) => Err(e)
    case Ok(chapter) =>
      var template := PromptTemplate(fs, paths, ConsistencyCheck);
      if template == "" then Err(TemplateNotFound)
      else match llm(ConsistencyRequest(template, Bible(fs, paths), chapter))
        case Err(e) => Err(e)
        case Ok(text) =>
          if text == "" then Err(EmptyReport)
          else Ok(SummarizeChapter.Written(ReportPath(paths, chapterPath), text))
  }

  /** The template is checked before the model is asked. */
  lemma TemplateGuardPrecedesRequest(fs: Fs, paths: ProjectPaths, chapterPath: string, llm: Llm, other: Llm)
    requires PromptTemplate(fs, paths, ConsistencyCheck) == ""
    ensures Check(fs, paths, chapterPath, llm) == Check(fs, paths, chapterPath, other)
    ensures Check(fs, paths, chapterPath, llm).Err?
  {
  }

  lemma DoubledEnding(stem: string)
    ensures stem + ReportSuffix + ReportSuffix + MdEnding == stem + "_consistency_consistency.md"
  {
    assert ReportSuffix + ReportSuffix + MdEnding == "_consistency_consistency.md";
    assert stem + ReportSuffix + ReportSuffix + MdEnding == stem + (ReportSuffix + ReportSuffix + MdEnding);
  }

  /** The report of a draft is `reports/<stem>_consistency_consistency.md`:
      the suffix lands twice. */
  lemma DraftReportPath(paths: ProjectPaths, dir: string, stem: string)
    requires '/' !in stem
    ensures ReportPath(paths, dir + "/" + stem + DraftEnding) == JoinPath(paths.reports, stem + "_consistency_consistency.md")
  {
    DraftBasename(dir, stem);
    DraftSuffixDoubled(stem, ReportSuffix);
    DoubledEnding(stem);
  }
}
