/** `CharacterUpdaterService`: after a new story summary, every character
    sheet is offered to the model with the summary and rewritten when the
    reply says something different. A failure on one sheet is swallowed and
    leaves the others alone. */
module CharacterUpdater {
  import opened Wrappers
  import opened Text
  import opened Seqs
  import opened Workspace
  import opened Types

  const NoSummaryYet := "まだ要約はありません。"
  const SheetPlaceholder := "{{character_sheet}}"
  const SummaryPlaceholder := "{{story_summary}}"
  const UpdateTemplateName := "character_update_prompt.md"
  const TemplateNotFound := "Character update prompt template not found."
  const UpdateTemperature := 0.1

  function CharactersDir(root: string): string {
    JoinPath(JoinPath(root, "scenario"), "characters")
  }

  function TemplatePath(root: string): string {
    JoinPath(JoinPath(JoinPath(root, "scenario"), "prompts"), UpdateTemplateName)
  }

  /** The contents at a path, `None` for no file. */
  function Entry(fs: Fs, path: string): (r: Option<string>)
    ensures r.Some? <==> path in fs.files
  {
    if path in fs.files then Some(fs.files[path]) else None
  }

  /** The workspace after the sheet at `path` is written. */
  function Write(fs: Fs, path: string, content: string): (r: Fs)
    ensures Entry(r, path) == Some(content)
    ensures forall q | q != path :: Entry(r, q) == Entry(fs, q)
    ensures r.dirs == fs.dirs
  {
    fs.(files := fs.files[path := content])
  }

  /** `loadPromptTemplate`: the cached template when it is non-empty,
      otherwise the file, which is then cached. */
  function LoadPromptTemplate(cache: Option<string>, fs: Fs, root: string): (r: (Result<string, string>, Option<string>))
    ensures Truthy(cache) ==> r == (Ok(cache.value), cache)
    ensures !Truthy(cache) ==> r.0 == (if TemplatePath(root) in fs.files then Ok(fs.files[TemplatePath(root)]) else Err(TemplateNotFound))
    ensures r.0.Ok? ==> r.1 == Some(r.0.value)
    ensures r.0.Err? ==> r.1 == cache
  {
    if Truthy(cache) then (Ok(cache.value), cache)
    else match ReadFile(fs, TemplatePath(root))
      case Ok(template) => (Ok(template), Some(template))
      case Err(_) => (Err(TemplateNotFound), cache)
  }

  /** A cache that holds a non-empty template holds the template file. */
  predicate CacheAgrees(cache: Option<string>, fs: Fs, root: string) {
    Truthy(cache) ==> Entry(fs, TemplatePath(root)) == cache
  }

  /** Under an agreeing cache, loading gives what reading the file gives,
      and the cache keeps agreeing. */
  lemma LoadAgrees(cache: Option<string>, fs: Fs, root: string)
    requires CacheAgrees(cache, fs, root)
    ensures LoadPromptTemplate(cache, fs, root).0 == LoadPromptTemplate(None, fs, root).0
    ensures CacheAgrees(LoadPromptTemplate(cache, fs, root).1, fs, root)
  {
  }

  /** Both placeholders filled globally: the sheet first, then the summary. */
  function UpdatePrompt(template: string, sheet: string, summary: string): string {
    ReplaceBoth(template, SheetPlaceholder, sheet, SummaryPlaceholder, summary)
  }

  /** Every `{{character_sheet}}` receives the sheet when neither the rest
      of the template nor the sheet holds a brace. */
  lemma UpdatePromptSheetEverywhere(parts: seq<string>, sheet: string, summary: string)
    requires |parts| >= 1 && forall k | 0 <= k < |parts| :: '{' !in parts[k]
    requires '{' !in sheet
    ensures UpdatePrompt(Join(parts, SheetPlaceholder), sheet, summary) == Join(parts, sheet)
  {
    FirstPlaceholderEverywhere(parts, SheetPlaceholder, sheet, SummaryPlaceholder, summary);
  }

  /** Every `{{story_summary}}` of a template without a sheet placeholder
      receives the summary. */
  lemma UpdatePromptSummaryEverywhere(parts: seq<string>, sheet: string, summary: string)
    requires |parts| >= 1 && forall k | 0 <= k < |parts| :: '{' !in parts[k]
    requires !Contains(Join(parts, SummaryPlaceholder), SheetPlaceholder)
    ensures UpdatePrompt(Join(parts, SummaryPlaceholder), sheet, summary) == Join(parts, summary)
  {
    SecondPlaceholderEverywhere(parts, SheetPlaceholder, sheet, SummaryPlaceholder, summary);
  }

  /** `result.text && result.text.trim() !== existing.trim()`. */
  predicate ShouldWrite(reply: string, existing: string) {
    reply != "" && Trim(reply) != Trim(existing)
  }

  /** A sheet written once from a reply is not written again by the same
      reply: what is written is already the reply's trim. */
  lemma SameReplyWritesOnce(reply: string, existing: string)
    requires ShouldWrite(reply, existing)
    ensures !ShouldWrite(reply, Trim(reply))
  {
    TrimIdempotent(reply);
  }

  /** A reply of white space only empties a sheet that has text. */
  lemma BlankReplyEmptiesSheet(reply: string, existing: string)
    requires reply != "" && IsBlank(reply) && !IsBlank(existing)
    ensures ShouldWrite(reply, existing) && Trim(reply) == ""
  {
  }

  /** The workspace and cache a step leaves behind. */
  datatype Pass = Pass(fs: Fs, cache: Option<string>)

  /** `updateSingleCharacter`: template, sheet, prompt, model at
      temperature 0.1, then the write-if-changed rule. Every error is
      swallowed: the workspace is then as it was. */
  function UpdateSingleCharacter(cache: Option<string>, fs: Fs, root: string, path: string, summary: string, llm: Llm): (r: Pass)
    ensures r.fs.dirs == fs.dirs
    ensures forall q | q != path :: Entry(r.fs, q) == Entry(fs, q)
    ensures Entry(r.fs, path).Some? <==> Entry(fs, path).Some?
    ensures CacheAgrees(cache, fs, root) && path != TemplatePath(root) ==> CacheAgrees(r.cache, r.fs, root)
  {
    var (loaded, cache') := LoadPromptTemplate(cache, fs, root);
    match loaded
    case Err(_) => Pass(fs, cache')
    case Ok(template) =>
      match ReadFile(fs, path)
      case Err(_) => Pass(fs, cache')
      case Ok(existing) =>
        match llm(UserPrompt(UpdatePrompt(template, existing, summary), Some(UpdateTemperature)))
        case Err(_) => Pass(fs, cache')
        case Ok(text) =>
          if ShouldWrite(text, existing) then Pass(Write(fs, path, Trim(text)), cache')
          else Pass(fs, cache')
  }

  /** The write rule for one sheet: with the template at hand, the sheet
      becomes the reply's trim exactly when the reply is non-empty and its
      trim differs from the sheet's; otherwise it stays as it was. */
  lemma SheetAfterUpdate(cache: Option<string>, fs: Fs, root: string, path: string, summary: string, llm: Llm)
    requires LoadPromptTemplate(cache, fs, root).0.Ok? && path in fs.files
    ensures var reply := llm(UserPrompt(UpdatePrompt(LoadPromptTemplate(cache, fs, root).0.value, fs.files[path], summary), Some(UpdateTemperature)));
            Entry(UpdateSingleCharacter(cache, fs, root, path, summary, llm).fs, path) ==
              if reply.Ok? && ShouldWrite(reply.value, fs.files[path]) then Some(Trim(reply.value)) else Some(fs.files[path])
  {
  }

  /** The outcome for one sheet depends only on that sheet and the template:
      two workspaces that agree on both give the sheet the same fate. */
  lemma UpdateIsLocal(cache: Option<string>, fs: Fs, cache2: Option<string>, fs2: Fs,
                      root: string, path: string, summary: string, llm: Llm)
    requires CacheAgrees(cache, fs, root) && CacheAgrees(cache2, fs2, root)
    requires Entry(fs, path) == Entry(fs2, path)
    requires Entry(fs, TemplatePath(root)) == Entry(fs2, TemplatePath(root))
    ensures Entry(UpdateSingleCharacter(cache, fs, root, path, summary, llm).fs, path) ==
            Entry(UpdateSingleCharacter(cache2, fs2, root, path, summary, llm).fs, path)
  {
    LoadAgrees(cache, fs, root);
    LoadAgrees(cache2, fs2, root);
  }

  /** The sheets updated one after the other. */
  function UpdateEach(cache: Option<string>, fs: Fs, root: string, paths: seq<string>, summary: string, llm: Llm): (r: Pass)
    ensures r.fs.dirs == fs.dirs
    ensures forall q | q !in paths :: Entry(r.fs, q) == Entry(fs, q)
    ensures forall q :: Entry(r.fs, q).Some? <==> Entry(fs, q).Some?
    decreases |paths|
  {
    if |paths| == 0 then Pass(fs, cache)
    else
      var first := UpdateSingleCharacter(cache, fs, root, paths[0], summary, llm);
      UpdateEach(first.cache, first.fs, root, paths[1..], summary, llm)
  }

  /** A failure on one sheet does not reach the others: updating the sheets
      in turn leaves each of them as updating it alone would. */
  lemma {:induction false} EachSheetOnItsOwn(cache: Option<string>, fs: Fs, root: string, paths: seq<string>,
                                              summary: string, llm: Llm, k: nat)
    requires CacheAgrees(cache, fs, root)
    requires TemplatePath(root) !in paths
    requires forall i, j | 0 <= i < j < |paths| :: paths[i] != paths[j]
    requires k < |paths|
    ensures Entry(UpdateEach(cache, fs, root, paths, summary, llm).fs, paths[k]) ==
            Entry(UpdateSingleCharacter(cache, fs, root, paths[k], summary, llm).fs, paths[k])
    decreases |paths|
  {
    var first := UpdateSingleCharacter(cache, fs, root, paths[0], summary, llm);
    var rest := paths[1..];
    if k == 0 {
      assert paths[0] !in rest by {
        forall j | 0 <= j < |rest| ensures rest[j] != paths[0] {
          assert rest[j] == paths[j + 1];
        }
      }
    } else {
      assert paths[0] != TemplatePath(root) by {
        assert paths[0] in paths;
      }
      assert TemplatePath(root) !in rest by {
        forall j | 0 <= j < |rest| ensures rest[j] != TemplatePath(root) {
          assert rest[j] == paths[j + 1];
          assert paths[j + 1] in paths;
        }
      }
      EachSheetOnItsOwn(first.cache, first.fs, root, rest, summary, llm, k - 1);
      assert rest[k - 1] == paths[k] && paths[k] != paths[0];
      UpdateIsLocal(first.cache, first.fs, cache, fs, root, paths[k], summary, llm);
    }
  }

  /** `!storySummary || trim === 'まだ要約はありません。' || trim === ''`. */
  predicate SkipsSummary(summary: string) {
    summary == "" || Trim(summary) == NoSummaryYet || IsBlank(summary)
  }

  /** The paths of the regular `.md` files of the characters folder. */
  function SheetPaths(root: string, entries: seq<DirEntry>): (r: seq<string>)
    ensures |r| == |RegularFileNames(entries, IsMarkdownName)|
    ensures forall k | 0 <= k < |r| :: r[k] == JoinPath(CharactersDir(root), RegularFileNames(entries, IsMarkdownName)[k])
  {
    Map(RegularFileNames(entries, IsMarkdownName), name => JoinPath(CharactersDir(root), name))
  }

  /** `updateAllCharacters`: nothing for a summary that says nothing or
      a missing folder; otherwise every sheet of the folder, in listing
      order. Only sheets of the folder are ever written. */
  function UpdateAllCharacters(cache: Option<string>, fs: Fs, root: string, summary: string, llm: Llm): (r: Pass)
    ensures SkipsSummary(summary) || CharactersDir(root) !in fs.dirs ==> r == Pass(fs, cache)
    ensures r.fs.dirs == fs.dirs
    ensures forall q :: Entry(r.fs, q).Some? <==> Entry(fs, q).Some?
    ensures forall q | Entry(r.fs, q) != Entry(fs, q) ::
              CharactersDir(root) in fs.dirs && q in SheetPaths(root, fs.dirs[CharactersDir(root)])
  {
    if SkipsSummary(summary) then Pass(fs, cache)
    else match ReadDirectory(fs, CharactersDir(root))
      case Err(_) => Pass(fs, cache)
      case Ok(entries) => UpdateEach(cache, fs, root, SheetPaths(root, entries), summary, llm)
  }

  /** The template lives outside the characters folder, so it is never
      among the sheets. */
  lemma TemplateIsNoSheet(root: string, name: string)
    ensures JoinPath(CharactersDir(root), name) != TemplatePath(root)
  {
    var p := JoinPath(CharactersDir(root), name);
    var t := TemplatePath(root);
    var i := |root| + 10;
    assert p[i] == 'c';
    assert t[i] == 'p';
  }

  /** For a folder without repeated names, each sheet ends as updating it
      alone would leave it, whatever happened to the others. */
  lemma AllSheetsOnTheirOwn(fs: Fs, root: string, summary: string, llm: Llm, k: nat)
    requires !SkipsSummary(summary) && CharactersDir(root) in fs.dirs
    requires var paths := SheetPaths(root, fs.dirs[CharactersDir(root)]);
             k < |paths| && forall i, j | 0 <= i < j < |paths| :: paths[i] != paths[j]
    ensures var p := SheetPaths(root, fs.dirs[CharactersDir(root)])[k];
            Entry(UpdateAllCharacters(None, fs, root, summary, llm).fs, p) ==
            Entry(UpdateSingleCharacter(None, fs, root, p, summary, llm).fs, p)
  {
    var paths := SheetPaths(root, fs.dirs[CharactersDir(root)]);
    assert TemplatePath(root) !in paths by {
      forall j | 0 <= j < |paths| ensures paths[j] != TemplatePath(root) {
        TemplateIsNoSheet(root, RegularFileNames(fs.dirs[CharactersDir(root)], IsMarkdownName)[j]);
      }
    }
    EachSheetOnItsOwn(None, fs, root, paths, summary, llm, k);
  }
}
