# NovelADV core, modelled in Dafny

NovelADV is a VS Code extension for writing interactive stories and novels with a
language model. This project models its core logic as pure Dafny functions over
immutable data, and proves what that logic guarantees. The core covers:

- the chat session: the system prompt, the rolling history window, and saving and
  loading session files;
- the building of the system prompt and the generation context from the story's
  documents;
- the running summary of a game;
- the generation and update of character sheets;
- the export of a saved log to Markdown;
- the OpenRouter transport: the request it builds, how it classifies errors, and how
  it decodes the server-sent-event stream;
- the chapter pipelines, kept in the `old/` folder of the repository:
  - chapter creation from a template;
  - summarization;
  - the consistency check and the command that runs it;
  - the keyed TSV patch of the foreshadow list.

Shared modules model what the code borrows from JavaScript and the editor:

| module | what it models |
|---|---|
| `Wrappers` | `Option` and `Result` |
| `Text` | `trim`, `split`, `join`, `replace` with a string and with a `/g` pattern, line splitting on `/\r?\n/` |
| `Seqs` | `filter`, `map`, `slice(-n)`, and the default `sort` / `reverse` |
| `Workspace` | a snapshot `Fs(files, dirs)` of the workspace, its reads and directory listings, and `path.basename` / `path.join` |
| `Types` | the shared records and the configuration schema rules |

Each service module takes what the source gets from outside as parameters:

- the model (a function from request to reply text or error message);
- the quick picks;
- `JSON.parse`;
- the clock's reading.

A service's cached prompt templates are explicit state, passed in and handed back.

## Model

| member | source | states |
|---|---|---|
| Types.ParseRole | src/types.ts:39 | a role is read back only from its own spelling |
| Types.RoleRoundTrip | src/types.ts:39-44 | each of `system`, `user`, `assistant` parses back to the same role |
| Types.LlmConfigIssues | src/types.ts:13-20 | no issue is reported exactly when the LLM configuration satisfies every schema rule; at most four issues |
| Types.StoryGameConfigIssues | src/types.ts:24-29 | a game configuration is accepted exactly when both of its LLM sections are |
| Workspace.Basename | src/commands/exportLogToMarkdown.ts:106 | the base name has no `/`, ends the path, and is preceded by a `/` when shorter than the path |
| Workspace.BasenameOfJoin | src/pipeline/summarizeChapter.ts:46 | the base name of a file joined to a folder is the file name |
| Workspace.ReadFile | src/utils/workspaceUtils.ts:51-59 | a read succeeds exactly for a file that is there and returns its contents |
| Workspace.ReadOrEmpty | src/services/StoryContextBuilder.ts:24-33 | a file that cannot be read counts as the empty text; any non-empty result is the file's contents |
| Workspace.ReadDirectory | src/services/ContextExtractor.ts:109 | a listing succeeds exactly for a folder that is there |
| Workspace.RegularFileNames | src/services/StoryContextBuilder.ts:44-46 | exactly the accepted regular files of the listing, each listed, none invented |
| Workspace.RegularFileNamesAppend | src/services/StoryContextBuilder.ts:44-46 | the names of a two-part listing are the first part's, then the second's |
| Workspace.NamesNewestFirst | src/services/SessionManager.ts:97-101 | the accepted regular files sorted greatest first, a permutation of the filtered names |
| Workspace.SortedNamesFromListing | src/services/SessionManager.ts:97-101 | sorting neither adds nor drops an accepted file of the listing |
| Seqs.Filter | src/services/CharacterGeneratorService.ts:63-66 | the kept elements all pass, every passing element is kept, none is invented |
| Seqs.FilterAppend | src/services/CharacterGeneratorService.ts:63-66 | filtering keeps relative order across a concatenation |
| Seqs.FilterKeepsAll | src/services/CharacterGeneratorService.ts:63-66 | the filter is the identity exactly when every element passes |
| Seqs.TakeLast | src/services/SessionManager.ts:52 | `slice(-n)` is the last `n` elements, or all of them when fewer |
| Seqs.Sort | src/services/SessionManager.ts:100 | the default sort is an ascending permutation of its input |
| Seqs.SortDescending | src/services/SessionManager.ts:100-101 | `sort().reverse()` is a descending permutation of its input |
| Seqs.IndexOf | src/services/ContextExtractor.ts:144 | `indexOf` is the first position holding the value, `None` exactly when absent |
| Text.Trim | src/services/SummarizerService.ts:90 | the trim is empty exactly for all-white-space text and otherwise starts and ends with a non-space |
| Text.TrimIdempotent | src/services/CharacterUpdaterService.ts:64-65 | trimming twice is trimming once |
| Text.TrimFramed | old/checkConsistency.ts:35-51 | trimming white space from around a text that starts and ends with a non-space gives that text |
| Text.Split | src/services/CharacterGeneratorService.ts:62 | `split` gives at least one piece, no piece holds the separator, joining the pieces gives the text back, and every cut is at the leftmost occurrence of the separator (`CutAtFirst`) |
| Text.SplitJoin | src/services/ContextExtractor.ts:158 | splitting on a one-character separator undoes a join of pieces without it |
| Text.SplitJoinGuarded | src/services/CharacterGeneratorService.ts:62-72 | splitting undoes a join whose parts lack the separator's first character |
| Text.SplitAppend | src/providers/OpenRouterProvider.ts:95-98 | splitting a text extended at its end re-splits only its last, unterminated piece |
| Text.ReplaceFirst | src/services/SummarizerService.ts:71-73 | `replace` with a string leaves text without the pattern unchanged, and a text `a + pat + b` in which no occurrence of the pattern starts inside `a` becomes `a + rep + b` |
| Text.ReplaceFirstAt | src/services/SummarizerService.ts:71-73 | when no occurrence starts before the one after `a`, exactly that occurrence is replaced; later copies of the placeholder stay |
| Text.ReplaceAll | src/services/CharacterGeneratorService.ts:147-149 | a global replace leaves text without the pattern unchanged |
| Text.ReplaceAllJoin | src/services/CharacterGeneratorService.ts:147-149 | a global replace reaches every occurrence of the pattern |
| Text.ReplaceAllBySelf | src/services/CharacterGeneratorService.ts:147-149 | replacing a pattern by itself changes nothing |
| Text.ReplaceAllRemovesSingleChar | src/services/SessionManager.ts:70 | after a global replace of one character by text without it, the character is gone |
| Text.SplitLines | old/updateForeshadows.ts:18 | splitting on `/\r?\n/` gives at least one line and no line holds a line feed |
| Text.NonBlankLines | old/updateForeshadows.ts:18-19 | the kept lines are non-blank, hold no line feed, and every non-blank line is kept |
| Text.DropCarriageReturn | old/updateForeshadows.ts:18 | at most one carriage return is removed, from the end |
| Text.ToLower | old/createChapterFromTemplate.ts:16 | lower-casing keeps the length and maps each character on its own |
| SessionManager.StartNewSession | src/services/SessionManager.ts:25-31 | the prompt is the built system prompt, and the history is exactly the opening scene, which is non-empty and returned |
| SessionManager.StartNewSessionForgets | src/services/SessionManager.ts:25-31 | starting ignores the previous state, so starting twice is starting once, with one turn |
| SessionManager.StartedAfterStart | src/services/SessionManager.ts:25-54 | after a start the model sees the system prompt and the opening turn |
| SessionManager.FreshWindow | src/services/SessionManager.ts:47-54 | a one-turn session shows the prompt and that turn |
| SessionManager.AddMessage | src/services/SessionManager.ts:38-40 | one turn is appended at the end; the prompt and the earlier turns are kept |
| SessionManager.HistoryForLlm | src/services/SessionManager.ts:47-54 | an error exactly when the prompt is `null` or empty; otherwise the system message, then the last 20 turns in order |
| SessionManager.WindowSlides | src/services/SessionManager.ts:9 | once 20 turns are held, each new turn pushes the oldest visible turn out and enters last |
| SessionManager.WindowIsWholeHistory | src/services/SessionManager.ts:52-53 | up to 20 turns, the model sees the whole history |
| SessionManager.SanitizeTimestamp | src/services/SessionManager.ts:70 | same length, no `:` or `.`, every other character kept |
| SessionManager.SavedNameIsOffered | src/services/SessionManager.ts:70-71 | every name a save writes is one a load offers |
| SessionManager.SaveSession | src/services/SessionManager.ts:60-77 | nothing is written exactly when the history is empty; otherwise the prompt and history under `session_<timestamp>.json` |
| SessionManager.SessionFileCandidates | src/services/SessionManager.ts:96-101 | the regular `session_*.json` files, newest first, none added or lost |
| SessionManager.LoadSession | src/services/SessionManager.ts:91-130 | the state is replaced exactly when a listed, picked file parses with a truthy prompt and history; every other path keeps the state and returns `null` |
| SessionManager.SaveLoadRoundTrip | src/services/SessionManager.ts:60-125 | loading back a saved, picked file restores exactly the saved state, unless it had never been started |
| StoryContextBuilder.SheetTexts | src/services/StoryContextBuilder.ts:50-52 | one text per sheet, in order, empty for an unreadable sheet |
| StoryContextBuilder.AllCharactersContent | src/services/StoryContextBuilder.ts:38-59 | a missing folder and an empty one each give their placeholder; otherwise the sheets joined by rules |
| StoryContextBuilder.CharactersInListingOrder | src/services/StoryContextBuilder.ts:44-54 | sheets appear in listing order |
| StoryContextBuilder.OrNotSet | src/services/StoryContextBuilder.ts:86 | an empty document shows the "not set" placeholder, never an empty section |
| StoryContextBuilder.SystemPromptLayout | src/services/StoryContextBuilder.ts:79-102 | the trimmed prompt is the preamble followed by the world, player, NPC and rules sections in that order |
| StoryContextBuilder.SystemPromptNotEmpty | src/services/StoryContextBuilder.ts:65-105 | the system prompt is never empty |
| StoryContextBuilder.LayoutTrim | src/services/StoryContextBuilder.ts:79-102 | trimming removes only the literal's framing line breaks and trailing space |
| StoryContextBuilder.OpeningScene | src/services/StoryContextBuilder.ts:111-114 | the opening document verbatim, or the default greeting when it is missing or empty; never empty |
| Summarizer.LoadPromptTemplate | src/services/SummarizerService.ts:28-41 | a non-empty cache is used; otherwise the file is read and cached, and a read failure leaves the cache alone with the error |
| Summarizer.TemplateCached | src/services/SummarizerService.ts:29-31 | once loaded non-empty, the template is reused whatever the workspace later holds |
| Summarizer.FormatLogToText | src/services/SummarizerService.ts:48-56 | no turn gives the empty text; one turn gives its own line |
| Summarizer.FormatLogAppend | src/services/SummarizerService.ts:55 | the text of two chunks is the first, a blank line, then the second |
| Summarizer.PreviousOrPlaceholder | src/services/SummarizerService.ts:72 | an empty previous summary shows the placeholder; the result is never empty |
| Summarizer.SummaryPromptFills | src/services/SummarizerService.ts:71-73 | when the first `{{previous_summary}}` is the one after `a`, and after that fill the first `{{new_log}}` is the one after `b`, the prompt is the template with the summary (or its placeholder text) and the formatted log in those places |
| Summarizer.SummaryRequest | src/services/SummarizerService.ts:75-82 | one user message at temperature 0.2 |
| Summarizer.Summarize | src/services/SummarizerService.ts:64-98 | the trimmed reply; the previous summary on a missing template, a transport error or an empty reply |
| Summarizer.SummaryFailSoft | src/services/SummarizerService.ts:84-97 | every failure keeps the previous summary: a different result needs a non-empty reply to the summary request itself and is that reply trimmed; a transport that always fails keeps the previous summary |
| Summarizer.BlankReplyErasesSummary | src/services/SummarizerService.ts:84-90 | the emptiness guard tests the raw reply, so a reply of only a line break replaces the previous summary with the empty text |
| ContextExtractor.RecentSummaryNames | src/services/ContextExtractor.ts:111-116 | the greatest `count` summary names, ascending; every name left out sorts before every name kept |
| ContextExtractor.SortedSuffixIsGreatest | src/services/ContextExtractor.ts:114-116 | cutting an ascending list keeps the greatest names |
| ContextExtractor.RecentSummaries | src/services/ContextExtractor.ts:104-130 | a missing folder gives the failure notice, no summary gives the placeholder, otherwise the texts joined by rules |
| ContextExtractor.SummaryTexts | src/services/ContextExtractor.ts:120-122 | one text per picked name, in order, empty when unreadable |
| ContextExtractor.OpenRows | src/services/ContextExtractor.ts:151-154 | exactly the rows whose status cell, trimmed, is `open`, none invented |
| ContextExtractor.OpenForeshadows | src/services/ContextExtractor.ts:136-149 | an empty list, a list with no data row, and a list without a status column each give their own answer |
| ContextExtractor.OpenForeshadowsTable | src/services/ContextExtractor.ts:151-158 | with a status column, the "nothing open" notice exactly when no row is open, else the header and precisely the open rows |
| ContextExtractor.BuildContextForChapterGeneration | src/services/ContextExtractor.ts:60-80 | each of the seven parts is its own document read with failures caught: `characters.md`, `world.md` and `rules.md` from the bible folder, `timeline.md` and `arc_map.md` from the outline folder, the two newest summaries, and the open foreshadows |
| UpdateForeshadows.Ids | old/updateForeshadows.ts:55 | the keys of the map in insertion order |
| UpdateForeshadows.Get | old/updateForeshadows.ts:34 | `get` finds an id exactly when it is a key |
| UpdateForeshadows.Set | old/updateForeshadows.ts:38 | `set` overwrites an existing key in place or appends a new one; other keys are untouched; keys stay distinct |
| UpdateForeshadows.Replace | old/updateForeshadows.ts:38 | `set` of a present key keeps the key order and changes only that key's value |
| UpdateForeshadows.Append | old/updateForeshadows.ts:38 | `set` of a new key adds it last and leaves every other key's value alone |
| UpdateForeshadows.UpsertAll | old/updateForeshadows.ts:35-52 | the merge keeps keys distinct, and every row comes from the map or the input |
| UpdateForeshadows.LastRowWithId | old/updateForeshadows.ts:46-51 | the row with an id that no later row shares |
| UpdateForeshadows.UpsertAllGet | old/updateForeshadows.ts:46-51 | an id's entry holds the last row carrying it, else what the map held before |
| UpdateForeshadows.UpsertAllIds | old/updateForeshadows.ts:46-51 | keys already present keep their places; new ids follow in order of first appearance |
| UpdateForeshadows.PatchBody | old/updateForeshadows.ts:44 | the first patch line is skipped exactly when one of its cells is `id` |
| UpdateForeshadows.Merged | old/updateForeshadows.ts:34-52 | the merged map has distinct keys |
| UpdateForeshadows.ApplyTsvPatch | old/updateForeshadows.ts:17-57 | an empty patch keeps the file, a file with no header line and a header without `id` are errors, and the result opens with the header |
| UpdateForeshadows.ApplyTsvPatchLines | old/updateForeshadows.ts:25-56 | the header, then one line per id: original ids first, then new ones; each line is the last patch row with that id, else the last original row |
| UpdateForeshadows.MergedLinesSplit | old/updateForeshadows.ts:55-56 | the output splits back into exactly the lines joined |
| UpdateForeshadows.TwoRunMerge | old/updateForeshadows.ts:35-52 | the order and contents of a map built by the two loops |
| UpdateForeshadows.ForeshadowRequest | old/updateForeshadows.ts:82-90 | the first `{{foreshadows_tsv}}`, then the first `{{chapter_content}}`, filled in one user message |
| UpdateForeshadows.UpdateForeshadowsRun | old/updateForeshadows.ts:64-111 | an unreadable chapter or missing template is an error; with both present, the model's error passes through, a blank reply is exactly `NothingSuggested`, a patch that applies is exactly written, and a patch error is reported |
| OpenRouter.BuildBody | src/providers/OpenRouterProvider.ts:43-49 | options win over configuration when present; streaming exactly when a stream callback is given |
| OpenRouter.BuildHeaders | src/providers/OpenRouterProvider.ts:31-41 | the key and content type first; each optional header present exactly when its option is truthy |
| OpenRouter.ReplyText | src/providers/OpenRouterProvider.ts:61 | the first choice's content, or the empty text when it is missing |
| OpenRouter.Classify | src/providers/OpenRouterProvider.ts:68-83 | a 401 means a bad key, other HTTP failures carry the server's message, anything else is unknown |
| OpenRouter.Chat | src/providers/OpenRouterProvider.ts:20-84 | a missing or blank key is refused before any request; with a usable key the result succeeds exactly when the exchange completed and (streaming) the stream did not fail or (otherwise) the reply had choices; a failed exchange is the error `Classify` gives, a failed stream the stream error, a reply without choices the unknown error; a reply is the decoded text or the streamed text |
| OpenRouter.KeyGuardPrecedesRequest | src/providers/OpenRouterProvider.ts:26-28 | without a usable key no request is made |
| OpenRouter.SegmentsAndCarry | src/providers/OpenRouterProvider.ts:97-98 | the handled segments and the buffer together are exactly what was received |
| OpenRouter.EventOf | src/providers/OpenRouterProvider.ts:100-116 | only `data: ` events count, `[DONE]` yields nothing, and any other `data: ` event yields exactly its parsed delta when that is a non-empty text |
| OpenRouter.EventsAppend | src/providers/OpenRouterProvider.ts:100-117 | events of consecutive segments come in order |
| OpenRouter.HandleStream | src/providers/OpenRouterProvider.ts:86-129 | however the stream is cut into chunks, the pieces emitted are those of the whole text, and the full text is their concatenation |
| OpenRouter.ChunkReceived | src/providers/OpenRouterProvider.ts:94-118 | one chunk adds the events of the segments it completes and keeps the rest buffered |
| OpenRouter.ReceiveChunk | src/providers/OpenRouterProvider.ts:95-98 | the completed segments grow by those completed in buffer plus chunk |
| ChapterTemplate.DashWhitespaceRuns | old/createChapterFromTemplate.ts:17 | no white space is left and the text does not grow |
| ChapterTemplate.DashRunBetween | old/createChapterFromTemplate.ts:17 | a run of white space between two words becomes one `-` |
| ChapterTemplate.ToSlug | old/createChapterFromTemplate.ts:14-19 | the slug holds only `[a-z0-9-]` and is no longer than the text |
| ChapterTemplate.SlugIdempotent | old/createChapterFromTemplate.ts:14-19 | a slug is its own slug |
| ChapterTemplate.SlugJoinsWords | old/createChapterFromTemplate.ts:14-19 | two slug words separated by white space become the words joined by one `-` |
| ChapterTemplate.SlugOfForeignTitle | old/createChapterFromTemplate.ts:10-18 | a title with no ASCII letter, digit, space or `-` gives the empty slug |
| ChapterTemplate.DecimalString | old/createChapterFromTemplate.ts:53 | `toString` gives digits without a leading zero |
| ChapterTemplate.DecimalRoundTrip | old/createChapterFromTemplate.ts:52-53 | reading back the decimal string gives the number |
| ChapterTemplate.PadStart2 | old/createChapterFromTemplate.ts:53 | at least two characters, ending with the input |
| ChapterTemplate.PaddedNumberValue | old/createChapterFromTemplate.ts:52-53 | the padded number keeps the typed value in at least two digits, with no extra leading zero |
| ChapterTemplate.ChapterFileName | old/createChapterFromTemplate.ts:55 | `chap_<padded>_` in front, `<slug>_draft.md` at the end, and nothing between them |
| ChapterTemplate.ChapterContentIsOutline | old/createChapterFromTemplate.ts:57-82 | trimming removes only the literal's framing; the draft opens with its heading and closes with the body placeholder |
| ChapterTemplate.NewDraft | old/createChapterFromTemplate.ts:63-82 | the draft's path is the chapter file name under the folder, and its text is the outline: the heading, the purpose, characters and climax sections with the answers, and the body placeholder |
| ChapterTemplate.CreateChapter | old/createChapterFromTemplate.ts:21-82 | a draft exactly when every box is answered, the number is all digits and the title is not blank; it goes under the chapters folder and holds the outline of the answers |
| ChapterNames.ReplaceDraft | src/pipeline/summarizeChapter.ts:48 | `_draft.md`, in any case, has `_draft` replaced and keeps its extension; other names are unchanged |
| ChapterNames.ReplaceMd | src/pipeline/summarizeChapter.ts:48 | a `.md` name gets the suffix before `.md`; other names are unchanged |
| ChapterNames.DraftSuffixDoubled | src/pipeline/summarizeChapter.ts:48 | as written, a draft's derived name carries the suffix twice |
| ChapterNames.DraftSummaryCounterexample | src/pipeline/summarizeChapter.ts:47-48 | `chap_01_draft.md` becomes `chap_01_sum_sum.md`, not `chap_01_sum.md` |
| ChapterNames.DerivedName | src/pipeline/summarizeChapter.ts:47-48 | a draft has `_draft` replaced; any other name goes through the `.md` rule |
| ChapterNames.DerivedNameOfDraft | src/pipeline/summarizeChapter.ts:47 | a draft's derived name carries the suffix once |
| ChapterNames.DerivedNameElsewhere | old/checkConsistency.ts:74 | on every name that is not a draft the corrected derivation agrees with the written one |
| ChapterNames.SummaryOfNewDraft | src/pipeline/summarizeChapter.ts:47-48 | under the corrected derivation, a draft named by the chapter template gets `chap_<padded>_<slug>_sum.md`, keeping its number and slug |
| SummarizeChapter.SummaryPromptFills | src/pipeline/summarizeChapter.ts:34 | when the template's first `{{chapter_content}}` is the one after `a`, exactly that one receives the chapter; later copies stay |
| SummarizeChapter.SummaryRequest | src/pipeline/summarizeChapter.ts:35-39 | one user message with the provider's own sampling settings |
| SummarizeChapter.Summarize | src/pipeline/summarizeChapter.ts:15-65 | read error, then missing template, then transport error or empty reply; on success exactly the reply, untrimmed, at the name both replacements give (`<stem>_sum_sum.md` for a draft) in the summaries folder |
| SummarizeChapter.TemplateGuardPrecedesRequest | src/pipeline/summarizeChapter.ts:29-31 | with no template the model is never asked |
| SummarizeChapter.DraftSummaryPath | src/pipeline/summarizeChapter.ts:46-53 | a draft's summary is `summaries/<stem>_sum_sum.md`: both replacements apply, so the suffix lands twice |
| CheckConsistency.BibleContentSections | old/checkConsistency.ts:28-51 | the trimmed bible is the characters, world, style and timeline sections in order, whatever the documents hold |
| CheckConsistency.ConsistencyPromptFills | old/checkConsistency.ts:58-60 | when the first `{{bible_content}}` is the one after `a`, and after that fill the first `{{chapter_content}}` is the one after `b`, the prompt is the template with the bible and the chapter in those places |
| CheckConsistency.ConsistencyRequest | old/checkConsistency.ts:62-66 | one user message with the provider's own sampling settings |
| CheckConsistency.Check | old/checkConsistency.ts:15-99 | read error, then missing template, then transport error or empty report; on success exactly the reply, untrimmed, at the name both replacements give (`<stem>_consistency_consistency.md` for a draft) in the reports folder |
| CheckConsistency.TemplateGuardPrecedesRequest | old/checkConsistency.ts:55 | with no template the model is never asked |
| CheckConsistency.DraftReportPath | old/checkConsistency.ts:73-79 | a draft's report is `reports/<stem>_consistency_consistency.md`: both replacements apply, so the suffix lands twice |
| RunConsistencyChecks.ChapterPathIsMarkdown | old/runConsistencyChecks.ts:20 | every chapter path ends in `.md` |
| RunConsistencyChecks.ChapterFileIsChapterPath | old/runConsistencyChecks.ts:20-21 | a `.md` file under a `chapters` folder, with either separator, is a chapter |
| RunConsistencyChecks.BareExtensionIsNotChapter | old/runConsistencyChecks.ts:20 | a file named only `.md` is not a chapter |
| RunConsistencyChecks.RunForCurrentChapter | old/runConsistencyChecks.ts:9-39 | the check runs once, on the active file, exactly when it is a chapter; its error is kept for the message |
| ExportLogToMarkdown.FormatTurn | src/commands/exportLogToMarkdown.ts:70-75 | a turn renders to nothing exactly when it is a system turn |
| ExportLogToMarkdown.FormatHistoryAppend | src/commands/exportLogToMarkdown.ts:67-79 | rendering two parts of a history is rendering one, then the other |
| ExportLogToMarkdown.SystemTurnsOmitted | src/commands/exportLogToMarkdown.ts:70-76 | the rendering is that of the history without its system turns |
| ExportLogToMarkdown.SingleTurns | src/commands/exportLogToMarkdown.ts:71-75 | a user turn under the `You` label; an assistant turn followed by a rule |
| ExportLogToMarkdown.ExportDocument | src/commands/exportLogToMarkdown.ts:98-120 | no document exactly without history; otherwise it opens with the title block and ends with the conversation, and with neither a prompt nor a summary it is exactly the header followed by the conversation |
| ExportLogToMarkdown.SystemBlockInserted | src/commands/exportLogToMarkdown.ts:109-112 | a truthy system prompt adds its block right after the title block and changes nothing else |
| ExportLogToMarkdown.SummaryBlockInserted | src/commands/exportLogToMarkdown.ts:114-117 | a truthy summary adds its block right before the conversation and changes nothing else |
| ExportLogToMarkdown.BasenameWithoutJson | src/commands/exportLogToMarkdown.ts:126 | the base name, less a trailing `.json` unless that is all it is |
| ExportLogToMarkdown.OutputFileNameOfLog | src/commands/exportLogToMarkdown.ts:126-127 | a log `<stem>.json` exports to `<stem>.md` |
| ExportLogToMarkdown.SelectLogFile | src/commands/exportLogToMarkdown.ts:13-60 | a file exactly when the folder is picked and exists, holds a `.json` file, and a file is picked from the names, newest first |
| ExportLogToMarkdown.ExportRun | src/commands/exportLogToMarkdown.ts:85-146 | nothing happens exactly without a selection; a read or parse error of the selected log is the failure; a parsed log is exported exactly when it has history, as the document written under `exports` |
| CharacterGenerator.ScenesOf | src/services/CharacterGeneratorService.ts:62-66 | exactly the blocks that mention the character, none invented |
| CharacterGenerator.FilterLogForCharacter | src/services/CharacterGeneratorService.ts:61-73 | the notice when no block mentions the character; otherwise those blocks rejoined |
| CharacterGenerator.WholeLogWhenEveryBlockMentions | src/services/CharacterGeneratorService.ts:61-73 | a log whose every block mentions the character passes unchanged |
| CharacterGenerator.SingleBlockLog | src/services/CharacterGeneratorService.ts:61-73 | a one-block log is kept when it mentions the character and replaced by the notice otherwise |
| CharacterGenerator.LoadPromptTemplates | src/services/CharacterGeneratorService.ts:34-56 | the cache when both templates are non-empty; else both files, cached only when both reads succeed |
| CharacterGenerator.TemplatesCachedOnceLoaded | src/services/CharacterGeneratorService.ts:35-37 | once both are loaded non-empty, later loads ignore the workspace |
| CharacterGenerator.EmptyTemplateNotCached | src/services/CharacterGeneratorService.ts:35 | an empty template file is read again on the next call |
| CharacterGenerator.FillPromptLogEverywhere | src/services/CharacterGeneratorService.ts:147-149 | every `{{story_log}}` receives the log |
| CharacterGenerator.FillPromptNameEverywhere | src/services/CharacterGeneratorService.ts:147-149 | every `{{character_name}}` receives the name |
| CharacterGenerator.CreateLogDigest | src/services/CharacterGeneratorService.ts:82-104 | a missing template is an error; otherwise the digest template is asked at temperature 0, a transport error passes through, an empty reply is an error, and any other reply is the digest, trimmed |
| CharacterGenerator.LogForGeneration | src/services/CharacterGeneratorService.ts:136-142 | the filtered log up to 15000 characters, its digest beyond |
| CharacterGenerator.DigestOnlyWhenLong | src/services/CharacterGeneratorService.ts:140-142 | at or under the threshold no model call happens |
| CharacterGenerator.GenerateCharacter | src/services/CharacterGeneratorService.ts:111-165 | the blank name, the existing sheet and the blank or unreadable transcripts are refused in that order; a digest error passes through; otherwise the sheet is the trimmed non-empty reply to the generation template filled with the prepared log (digest or log), written at the slug path and announced |
| CharacterGenerator.SheetFromShortLog | src/services/CharacterGeneratorService.ts:145-164 | for a short log, a sheet exactly when the model gives a non-empty reply, and the sheet is its trim |
| CharacterUpdater.Write | src/services/CharacterUpdaterService.ts:65 | writing a sheet changes that file only |
| CharacterUpdater.LoadPromptTemplate | src/services/CharacterUpdaterService.ts:28-41 | a non-empty cache is used; otherwise the file is read and cached, or the error is reported |
| CharacterUpdater.LoadAgrees | src/services/CharacterUpdaterService.ts:29-36 | a cache that agrees with the file gives what reading gives, and keeps agreeing |
| CharacterUpdater.UpdatePromptSheetEverywhere | src/services/CharacterUpdaterService.ts:53-55 | every `{{character_sheet}}` receives the sheet |
| CharacterUpdater.UpdatePromptSummaryEverywhere | src/services/CharacterUpdaterService.ts:53-55 | every `{{story_summary}}` receives the summary |
| CharacterUpdater.SameReplyWritesOnce | src/services/CharacterUpdaterService.ts:64-65 | a sheet written from a reply is not written again by the same reply |
| CharacterUpdater.BlankReplyEmptiesSheet | src/services/CharacterUpdaterService.ts:64-65 | a reply of white space only empties a sheet that has text |
| CharacterUpdater.UpdateSingleCharacter | src/services/CharacterUpdaterService.ts:48-74 | only the one sheet can change, no file appears or disappears, errors are swallowed |
| CharacterUpdater.SheetAfterUpdate | src/services/CharacterUpdaterService.ts:59-69 | the sheet becomes the reply's trim exactly when the reply is non-empty and its trim differs; otherwise it stays |
| CharacterUpdater.UpdateIsLocal | src/services/CharacterUpdaterService.ts:48-74 | a sheet's fate depends only on that sheet and the template |
| CharacterUpdater.UpdateEach | src/services/CharacterUpdaterService.ts:103-105 | only the listed sheets can change |
| CharacterUpdater.EachSheetOnItsOwn | src/services/CharacterUpdaterService.ts:70-73 | a failure on one sheet does not reach the others |
| CharacterUpdater.SheetPaths | src/services/CharacterUpdaterService.ts:93-95 | the paths of the folder's regular `.md` files, in listing order |
| CharacterUpdater.UpdateAllCharacters | src/services/CharacterUpdaterService.ts:80-117 | nothing for a summary that says nothing or a missing folder; otherwise only the folder's sheets change |
| CharacterUpdater.TemplateIsNoSheet | src/services/CharacterUpdaterService.ts:34 | the update template is never among the sheets |
| CharacterUpdater.AllSheetsOnTheirOwn | src/services/CharacterUpdaterService.ts:97-105 | each sheet ends as updating it alone would leave it |

## Left out

- The editor itself is not modelled. This covers notifications, progress bars, opening documents, the webview and console logging.
  - Where a message decides nothing, it is dropped.
  - Where a quick pick or input box decides the flow, it is a parameter.
- An input box's `validateInput` refusal is modelled as a cancelled box, since a refused answer is never returned.
- The HTTP client, the key store and the settings store are not part of this model.
  - The model call is a function from request to reply text or error message.
  - `OpenRouter.Chat` takes the stored key, the parsed reply and the exchange outcome as inputs.
  - Endpoint URL validation is not modelled.
- UTF-8 decoding of stream chunks is not modelled: chunks are taken as already-decoded text, so a character split across chunks is out of scope.
- `Promise.all` is modelled as reading its parts one after the other. The parts only read files, so the order does not matter.
  - The exception is `updateAllCharacters`, whose concurrent updates all load the template at once.
  - The model updates the sheets in listing order instead.
- `ContextExtractor.RecentSummaryNames`: sorts by code points, where `getRecentSummaries` uses `localeCompare` with numeric, base-sensitivity collation. For `chap_<number>_…` names of different chapters, the two orders agree when the numbers have the same number of digits. Chapter numbers are padded to two digits only, so the orders agree on chapters while every chapter number stays below 100. Names of one chapter that differ only after the number may still be ordered differently, since the collation weighs punctuation and letter case its own way. From chapter 100 on, code-point order puts `chap_100_…` before `chap_99_…`, and the model then picks older summaries as the recent ones. The collation is locale-dependent and is not modelled.
- `$` patterns in `replace` replacement strings are not expanded.
- Regular-expression metacharacters in a character name are read literally.
- Case-insensitive matching and `toLowerCase` cover ASCII letters only.
- Lengths are counted in code points. JavaScript counts UTF-16 units, which differ for characters outside the Basic Multilingual Plane; this matters for the 15000-character digest threshold.
- `Seqs.Sort`: the default `sort()` compares UTF-16 code units, while the model orders by code points (`Seqs.LexLe`). The two orders differ only when a character outside the Basic Multilingual Plane meets one in U+E000–U+FFFF; this affects the newest-first order of session, log and summary file names.
- `new Date().toISOString()` and `toLocaleString()` are the parameters `timestamp` and `exportedOn`.
- `JSON.parse` and `JSON.stringify` are not part of this model:
  - a parsed record is a `ParsedSession` with optional fields;
  - JSON values of the wrong type are not modelled.
- `parseInt` and `toString` are exact on naturals; the precision limit of JavaScript numbers is not modelled.
- `path.basename` is modelled for paths without a trailing separator only.
- Write failures and `stat` errors other than "not found" are not modelled. A write always succeeds.
- Errors from locating the project root are not modelled. The root is a parameter.
- The `toSlug` and `readAllFilesAsString` helpers that `CharacterGeneratorService` imports are not part of this model: `src/utils/workspaceUtils.ts` does not define them. The slug function and the transcript text (or its read error) are parameters.
- The consistency-check command's `withProgress` wrapper is not modelled; only its outcome is.
- `CharacterUpdater.AllSheetsOnTheirOwn`: states per-sheet isolation only for a folder listing without repeated names, which a real directory listing never has.
- `OpenRouter.HandleStream`: states the stream that ends normally; the `error` event rejects with a fixed message, which `OpenRouter.Chat` states instead.

## Findings

| source | as written | input that shows it | evidently intended | confidence | as-written member | corrected member |
|---|---|---|---|---|---|---|
| src/pipeline/summarizeChapter.ts:48 | the name passes through `/_draft(\.md)$/i` → `_sum$1` and then `/\.md$/` → `_sum.md`, so a draft gets `_sum` twice | `chap_01_draft.md` gives `chap_01_sum_sum.md` | `chap_01_sum.md`, as the comment on line 47 says | not executed | ChapterNames.DraftSummaryCounterexample | ChapterNames.DerivedNameOfDraft |
| old/checkConsistency.ts:74 | the same two replacements with `_consistency`, so a draft's report gets the suffix twice | `chap_01_draft.md` gives `chap_01_consistency_consistency.md` | `chap_01_consistency.md` | not executed | ChapterNames.DraftSuffixDoubled | ChapterNames.DerivedNameOfDraft |

The pipelines `SummarizeChapter.Summarize` and `CheckConsistency.Check` name their output as the code
does, through `ChapterNames.DerivedNameAsWritten`; `SummarizeChapter.DraftSummaryPath` and
`CheckConsistency.DraftReportPath` state the doubled names. The corrected derivation is
`ChapterNames.DerivedName`: `ChapterNames.DerivedNameOfDraft` proves that it adds the suffix once,
`ChapterNames.SummaryOfNewDraft` that a template draft keeps its number and slug, and
`ChapterNames.DerivedNameElsewhere` that it agrees with the code as written on names that are not drafts.
