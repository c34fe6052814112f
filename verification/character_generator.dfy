/** `CharacterGeneratorService`: a new character sheet drafted by the model
    from the story transcripts, restricted to the blocks that mention the
    character and condensed into a digest first when still too long. The
    two prompt templates are cached once both are non-empty. */
module CharacterGenerator {
  import opened Wrappers
  import opened Text
  import opened Seqs
  import opened Workspace
  import opened Types

  /** Above this many characters the filtered log is condensed first. */
  const DigestThreshold := 15000
  const BlockSeparator := "\n---\n"
  const NoScenesFound := "（指定されたキャラクターの登場シーンが見つかりませんでした）"

  const StoryLogPlaceholder := "{{story_log}}"
  const CharacterNamePlaceholder := "{{character_name}}"

  const GenerationTemplateName := "character_generation_prompt.md"
  const DigestTemplateName := "log_digest_prompt.md"

  const TemplatesNotFound := "Character generation prompt templates not found."
  const NameEmpty := "Character name cannot be empty."
  const NoTranscripts := "No story logs (transcripts) found to analyze."
  const EmptyDigest := "LLM returned an empty response for log digest."
  const EmptyGeneration := "LLM returned an empty response for character generation."

  /** The digest is asked for at temperature 0, the sheet at 0.1. */
  const DigestTemperature := 0.0
  const GenerationTemperature := 0.1

  function PromptsDir(root: string): string {
    JoinPath(JoinPath(root, "scenario"), "prompts")
  }

  function CharactersDir(root: string): string {
    JoinPath(JoinPath(root, "scenario"), "characters")
  }

  /** `new RegExp(name, 'i').test(block)` for a name read literally. */
  predicate Mentions(name: string, block: string) {
    ContainsIgnoringCase(block, name)
  }

  /** The blocks of the log that mention the character, in log order. */
  function ScenesOf(log: string, name: string): (scenes: seq<string>)
    ensures forall k | 0 <= k < |scenes| :: Mentions(name, scenes[k])
    ensures forall k | 0 <= k < |Split(log, BlockSeparator)| ::
              Mentions(name, Split(log, BlockSeparator)[k]) ==> Split(log, BlockSeparator)[k] in scenes
    ensures multiset(scenes) <= multiset(Split(log, BlockSeparator))
  {
    Filter(Split(log, BlockSeparator), b => Mentions(name, b))
  }

  /** `filterLogForCharacter`: the scenes that mention the character,
      rejoined with the block separator, or a fixed notice when none does. */
  function FilterLogForCharacter(log: string, name: string): (r: string)
    ensures (forall k | 0 <= k < |Split(log, BlockSeparator)| :: !Mentions(name, Split(log, BlockSeparator)[k]))
              ==> r == NoScenesFound
    ensures ScenesOf(log, name) != [] ==> r == Join(ScenesOf(log, name), BlockSeparator)
  {
    var scenes := ScenesOf(log, name);
    if |scenes| == 0 then NoScenesFound
    else Join(scenes, BlockSeparator)
  }

  /** A log every block of which mentions the character passes the filter
      unchanged. */
  lemma WholeLogWhenEveryBlockMentions(log: string, name: string)
    requires forall k | 0 <= k < |Split(log, BlockSeparator)| :: Mentions(name, Split(log, BlockSeparator)[k])
    ensures FilterLogForCharacter(log, name) == log
  {
    var blocks := Split(log, BlockSeparator);
    FilterKeepsAll(blocks, b => Mentions(name, b));
  }

  /** A single-block log (no separator in it) is kept whole when it
      mentions the character and replaced by the notice otherwise. */
  lemma SingleBlockLog(log: string, name: string)
    requires !Contains(log, BlockSeparator)
    ensures Mentions(name, log) ==> FilterLogForCharacter(log, name) == log
    ensures !Mentions(name, log) ==> FilterLogForCharacter(log, name) == NoScenesFound
  {
    assert Split(log, BlockSeparator) == [log];
  }

  /** The cached templates, `null` until loaded. */
  datatype TemplateCache = TemplateCache(generation: Option<string>, digest: Option<string>)

  const EmptyCache := TemplateCache(None, None)

  datatype Templates = Templates(generation: string, digest: string)

  /** A step's result together with the cache it leaves behind. */
  datatype Step<T> = Step(result: Result<T, string>, cache: TemplateCache)

  /** `loadPromptTemplates`: the cache when both templates in it are
      non-empty; otherwise both files are read, and stored only when both
      reads succeed. */
  function LoadPromptTemplates(cache: TemplateCache, fs: Fs, root: string): (r: Step<Templates>)
    ensures Truthy(cache.generation) && Truthy(cache.digest) ==>
              r == Step(Ok(Templates(cache.generation.value, cache.digest.value)), cache)
    ensures r.result.Err? ==> r.result.error == TemplatesNotFound && r.cache == cache
    ensures r.result.Ok? ==> r.cache == TemplateCache(Some(r.result.value.generation), Some(r.result.value.digest))
  {
    if Truthy(cache.generation) && Truthy(cache.digest) then
      Step(Ok(Templates(cache.generation.value, cache.digest.value)), cache)
    else
      match (ReadFile(fs, JoinPath(PromptsDir(root), GenerationTemplateName)),
             ReadFile(fs, JoinPath(PromptsDir(root), DigestTemplateName)))
      case (Ok(generation), Ok(digest)) =>
        Step(Ok(Templates(generation, digest)), TemplateCache(Some(generation), Some(digest)))
      case _ => Step(Err(TemplatesNotFound), cache)
  }

  /** Once both templates have been read non-empty, later loads return them
      without looking at the workspace again. */
  lemma TemplatesCachedOnceLoaded(cache: TemplateCache, fs: Fs, other: Fs, root: string)
    requires LoadPromptTemplates(cache, fs, root).result.Ok?
    requires LoadPromptTemplates(cache, fs, root).result.value.generation != ""
    requires LoadPromptTemplates(cache, fs, root).result.value.digest != ""
    ensures var first := LoadPromptTemplates(cache, fs, root);
            LoadPromptTemplates(first.cache, other, root) == first
  {
  }

  /** An empty template file is read again on the next call. */
  lemma EmptyTemplateNotCached(fs: Fs, other: Fs, root: string)
    requires JoinPath(PromptsDir(root), GenerationTemplateName) in fs.files
    requires JoinPath(PromptsDir(root), DigestTemplateName) in fs.files
    requires fs.files[JoinPath(PromptsDir(root), GenerationTemplateName)] == ""
    ensures var first := LoadPromptTemplates(EmptyCache, fs, root);
            && first.result.Ok?
            && LoadPromptTemplates(first.cache, other, root).result == LoadPromptTemplates(EmptyCache, other, root).result
  {
  }

  /** Both prompts: every `{{story_log}}`, then every `{{character_name}}`. */
  function FillPrompt(template: string, log: string, name: string): string {
    ReplaceBoth(template, StoryLogPlaceholder, log, CharacterNamePlaceholder, name)
  }

  /** Every `{{story_log}}` of a template receives the log when neither the
      rest of the template nor the log holds a brace. */
  lemma FillPromptLogEverywhere(parts: seq<string>, log: string, name: string)
    requires |parts| >= 1 && forall k | 0 <= k < |parts| :: '{' !in parts[k]
    requires '{' !in log
    ensures FillPrompt(Join(parts, StoryLogPlaceholder), log, name) == Join(parts, log)
  {
    FirstPlaceholderEverywhere(parts, StoryLogPlaceholder, log, CharacterNamePlaceholder, name);
  }

  /** Every `{{character_name}}` of a template without a `{{story_log}}`
      receives the name. */
  lemma FillPromptNameEverywhere(parts: seq<string>, log: string, name: string)
    requires |parts| >= 1 && forall k | 0 <= k < |parts| :: '{' !in parts[k]
    requires !Contains(Join(parts, CharacterNamePlaceholder), StoryLogPlaceholder)
    ensures FillPrompt(Join(parts, CharacterNamePlaceholder), log, name) == Join(parts, name)
  {
    SecondPlaceholderEverywhere(parts, StoryLogPlaceholder, log, CharacterNamePlaceholder, name);
  }

  /** `createLogDigest`: the digest template filled with the long log, asked
      at temperature 0; an empty reply is an error, otherwise the reply is
      trimmed. */
  function CreateLogDigest(cache: TemplateCache, fs: Fs, root: string, longLog: string, name: string, llm: Llm): (r: Step<string>)
    ensures LoadPromptTemplates(cache, fs, root).result.Err? ==> r.result == Err(TemplatesNotFound)
    ensures r.cache == LoadPromptTemplates(cache, fs, root).cache
    ensures r.result.Ok? ==>
              && LoadPromptTemplates(cache, fs, root).result.Ok?
              && var reply := llm(UserPrompt(FillPrompt(LoadPromptTemplates(cache, fs, root).result.value.digest, longLog, name), Some(DigestTemperature)));
                 reply.Ok? && reply.value != "" && r.result.value == Trim(reply.value)
    ensures LoadPromptTemplates(cache, fs, root).result.Ok? ==>
              var reply := llm(UserPrompt(FillPrompt(LoadPromptTemplates(cache, fs, root).result.value.digest, longLog, name), Some(DigestTemperature)));
              && (reply.Err? ==> r.result == Err(reply.error))
              && (reply.Ok? && reply.value == "" ==> r.result == Err(EmptyDigest))
              && (reply.Ok? && reply.value != "" ==> r.result == Ok(Trim(reply.value)))
  {
    var loaded := LoadPromptTemplates(cache, fs, root);
    match loaded.result
    case Err(e) => Step(Err(e), loaded.cache)
    case Ok(templates) =>
      match llm(UserPrompt(FillPrompt(templates.digest, longLog, name), Some(DigestTemperature)))
      case Err(e) => Step(Err(e), loaded.cache)
      case Ok(text) =>
        if text == "" then Step(Err(EmptyDigest), loaded.cache)
        else Step(Ok(Trim(text)), loaded.cache)
  }

  /** The log the sheet is generated from: the filtered log, or its digest
      when the filtered log is longer than the threshold. */
  function LogForGeneration(cache: TemplateCache, fs: Fs, root: string, log: string, name: string, llm: Llm): (r: Step<string>)
    ensures |FilterLogForCharacter(log, name)| <= DigestThreshold ==>
              r == Step(Ok(FilterLogForCharacter(log, name)), cache)
    ensures |FilterLogForCharacter(log, name)| > DigestThreshold ==>
              r == CreateLogDigest(cache, fs, root, FilterLogForCharacter(log, name), name, llm)
  {
    var filtered := FilterLogForCharacter(log, name);
    if |filtered| > DigestThreshold then CreateLogDigest(cache, fs, root, filtered, name, llm)
    else Step(Ok(filtered), cache)
  }

  /** No digest, hence no model call, for a log at or under the threshold:
      the outcome is the same whatever the transport and the workspace. */
  lemma DigestOnlyWhenLong(cache: TemplateCache, fs: Fs, other: Fs, root: string, log: string, name: string, llm: Llm, otherLlm: Llm)
    requires |FilterLogForCharacter(log, name)| <= DigestThreshold
    ensures LogForGeneration(cache, fs, root, log, name, llm) == LogForGeneration(cache, other, root, log, name, otherLlm)
  {
  }

  /** A generated sheet: the file written and the message shown. */
  datatype Generated = Generated(path: string, content: string, message: string)

  function AlreadyExists(name: string): string {
    "Character file for \"" + name + "\" already exists."
  }

  function SuccessMessage(name: string): string {
    "Successfully generated and saved character sheet for \"" + name + "\"."
  }

  /** `stat` succeeds: a file or a folder is there. */
  predicate Exists(fs: Fs, path: string) {
    path in fs.files || path in fs.dirs
  }

  /** The sheet's path: `scenario/characters/<slug>.md`. */
  function SheetPath(root: string, name: string, toSlug: string -> string): string {
    JoinPath(CharactersDir(root), toSlug(name) + ".md")
  }

  /** `generateCharacter` under the project root. `toSlug` is the
      workspace helper, `transcripts` what reading every transcript gave.
      The checks run in order: the name, the existing file, the
      transcripts; then the log is filtered (and condensed when long), the
      generation template filled and the model asked at temperature 0.1. */
  function GenerateCharacter(cache: TemplateCache, fs: Fs, root: string, name: string,
                             toSlug: string -> string, transcripts: Result<string, string>, llm: Llm): (r: Step<Generated>)
    ensures IsBlank(name) ==> r == Step(Err(NameEmpty), cache)
    ensures !IsBlank(name) && Exists(fs, SheetPath(root, name, toSlug)) ==>
              r == Step(Err(AlreadyExists(name)), cache)
    ensures !IsBlank(name) && !Exists(fs, SheetPath(root, name, toSlug)) && transcripts.Ok? && IsBlank(transcripts.value) ==>
              r == Step(Err(NoTranscripts), cache)
    ensures r.result.Ok? ==>
              && !IsBlank(name)
              && !Exists(fs, SheetPath(root, name, toSlug))
              && transcripts.Ok? && !IsBlank(transcripts.value)
              && r.result.value.path == SheetPath(root, name, toSlug)
              && Trim(r.result.value.content) == r.result.value.content
    ensures r.result.Ok? ==> r.result.value.message == SuccessMessage(name)
    ensures !IsBlank(name) && !Exists(fs, SheetPath(root, name, toSlug)) && transcripts.Err? ==>
              r == Step(Err(transcripts.error), cache)
    ensures !IsBlank(name) && !Exists(fs, SheetPath(root, name, toSlug)) && transcripts.Ok? && !IsBlank(transcripts.value) ==>
              GeneratedFrom(r, LogForGeneration(cache, fs, root, transcripts.value, name, llm), fs, root, name, llm)
  {
    if IsBlank(name) then Step(Err(NameEmpty), cache)
    else
      var target := SheetPath(root, name, toSlug);
      if Exists(fs, target) then Step(Err(AlreadyExists(name)), cache)
      else match transcripts
        case Err(e) => Step(Err(e), cache)
        case Ok(fullLog) =>
          if IsBlank(fullLog) then Step(Err(NoTranscripts), cache)
          else
            var prepared := LogForGeneration(cache, fs, root, fullLog, name, llm);
            match prepared.result
            case Err(e) => Step(Err(e), prepared.cache)
            case Ok(log) =>
              var loaded := LoadPromptTemplates(prepared.cache, fs, root);
              match loaded.result
              case Err(e) => Step(Err(e), loaded.cache)
              case Ok(templates) =>
                match llm(UserPrompt(FillPrompt(templates.generation, log, name), Some(GenerationTemperature)))
                case Err(e) => Step(Err(e), loaded.cache)
                case Ok(text) =>
                  if text == "" then Step(Err(EmptyGeneration), loaded.cache)
                  else
                    TrimIdempotent(text);
                    Step(Ok(Generated(target, Trim(text), SuccessMessage(name))), loaded.cache)
  }

  /** The steps of `generateCharacter` after the guards: an error preparing
      the log is the outcome; otherwise the generation template is loaded
      with the cache the preparation left. */
  predicate GeneratedFrom(r: Step<Generated>, prepared: Step<string>, fs: Fs, root: string, name: string, llm: Llm) {
    && (prepared.result.Err? ==> r == Step(Err(prepared.result.error), prepared.cache))
    && (prepared.result.Ok? ==> GeneratedWith(r, LoadPromptTemplates(prepared.cache, fs, root), prepared.result.value, name, llm))
  }

  /** The last step once the log is prepared: the template load decides the
      cache; its error, the model's error or an empty reply is the outcome;
      otherwise the sheet holds the trimmed reply to the generation template
      filled with that log. */
  predicate GeneratedWith(r: Step<Generated>, loaded: Step<Templates>, log: string, name: string, llm: Llm) {
    && r.cache == loaded.cache
    && (loaded.result.Err? ==> r.result == Err(loaded.result.error))
    && (loaded.result.Ok? ==>
          var reply := llm(UserPrompt(FillPrompt(loaded.result.value.generation, log, name), Some(GenerationTemperature)));
          && (reply.Err? ==> r.result == Err(reply.error))
          && (reply.Ok? && reply.value == "" ==> r.result == Err(EmptyGeneration))
          && (reply.Ok? && reply.value != "" ==> r.result.Ok? && r.result.value.content == Trim(reply.value)))
  }

  /** With a log short enough to need no digest, the sheet is the trimmed
      reply to the generation template filled with the filtered log, and
      there is a sheet exactly when the model gave a non-empty reply. */
  lemma SheetFromShortLog(cache: TemplateCache, fs: Fs, root: string, name: string,
                          toSlug: string -> string, log: string, llm: Llm)
    requires !IsBlank(name) && !Exists(fs, SheetPath(root, name, toSlug)) && !IsBlank(log)
    requires |FilterLogForCharacter(log, name)| <= DigestThreshold
    requires LoadPromptTemplates(cache, fs, root).result.Ok?
    ensures var templates := LoadPromptTemplates(cache, fs, root).result.value;
            var reply := llm(UserPrompt(FillPrompt(templates.generation, FilterLogForCharacter(log, name), name), Some(GenerationTemperature)));
            var r := GenerateCharacter(cache, fs, root, name, toSlug, Ok(log), llm);
            && (r.result.Ok? <==> reply.Ok? && reply.value != "")
            && (r.result.Ok? ==> r.result.value == Generated(SheetPath(root, name, toSlug), Trim(reply.value), SuccessMessage(name)))
            && r.cache == LoadPromptTemplates(cache, fs, root).cache
  {
  }
}
