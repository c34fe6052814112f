/** `ContextExtractor`: the story-bible documents, the newest chapter
    summaries and the unresolved foreshadowing rows that are injected into
    the novel pipeline's prompts. */
module ContextExtractor {
  import opened Wrappers
  import opened Text
  import opened Seqs
  import opened Workspace

  /** The project directories configured in `.novelrc.json`, relative to
      the project root. */
  datatype ProjectPaths = ProjectPaths(bible: string, outline: string, chapters: string,
                                       summaries: string, reports: string, prompts: string)

  const NoForeshadowList := "（伏線リストがありません）"
  const NoOpenForeshadows := "（未解決の伏線はありません）"
  const NoSummariesYet := "（まだ要約はありません）"
  const SummariesUnreadable := "（要約の読み込みに失敗しました）"
  const SummarySeparator := "\n\n---\n\n"

  /** How many summaries chapter generation asks for. */
  const GenerationSummaryCount: nat := 2

  datatype PromptTemplateType = Generation | Summarization | ForeshadowUpdate | ConsistencyCheck

  function TemplateFileName(t: PromptTemplateType): string {
    match t
    case Generation => "generation.md"
    case Summarization => "summarization.md"
    case ForeshadowUpdate => "foreshadow_update.md"
    case ConsistencyCheck => "consistency_check.md"
  }

  /** `getPromptTemplate`: empty when the template file cannot be read. */
  function PromptTemplate(fs: Fs, paths: ProjectPaths, t: PromptTemplateType): string {
    ReadOrEmpty(fs, JoinPath(paths.prompts, TemplateFileName(t)))
  }

  function CharactersDoc(fs: Fs, paths: ProjectPaths): string {
    ReadOrEmpty(fs, JoinPath(paths.bible, "characters.md"))
  }

  function WorldDoc(fs: Fs, paths: ProjectPaths): string {
    ReadOrEmpty(fs, JoinPath(paths.bible, "world.md"))
  }

  function StyleRulesDoc(fs: Fs, paths: ProjectPaths): string {
    ReadOrEmpty(fs, JoinPath(paths.bible, "rules.md"))
  }

  function TimelineDoc(fs: Fs, paths: ProjectPaths): string {
    ReadOrEmpty(fs, JoinPath(paths.outline, "timeline.md"))
  }

  function ArcMapDoc(fs: Fs, paths: ProjectPaths): string {
    ReadOrEmpty(fs, JoinPath(paths.outline, "arc_map.md"))
  }

  function ForeshadowsTsv(fs: Fs, paths: ProjectPaths): string {
    ReadOrEmpty(fs, JoinPath(paths.bible, "foreshadows.tsv"))
  }

  /** The summary files `getRecentSummaries` reads: the sorted regular `.md`
      files, cut to the last `count` (all of them for a count of 0, since
      `slice(-0)` is `slice(0)`). The picked names are the greatest ones:
      every `.md` name left out sorts before every name picked. */
  function RecentSummaryNames(entries: seq<DirEntry>, count: nat): (r: seq<string>)
    ensures var md := RegularFileNames(entries, IsMarkdownName);
            && multiset(r) <= multiset(md)
            && |r| == (if count == 0 || |md| < count then |md| else count)
            && (forall x, y | x in multiset(md) - multiset(r) && y in r :: LexLe(x, y))
    ensures SortedAscending(r)
  {
    var md := RegularFileNames(entries, IsMarkdownName);
    var sorted := Sort(md);
    var picked := if count == 0 then sorted else TakeLast(sorted, count);
    SortedSuffixIsGreatest(md, sorted, |sorted| - |picked|);
    picked
  }

  /** A suffix of an ascending arrangement of `md` is a sub-multiset of `md`,
      ascending, and every element of `md` outside it sorts before every
      element in it. */
  lemma SortedSuffixIsGreatest(md: seq<string>, s: seq<string>, cut: nat)
    requires SortedAscending(s) && multiset(s) == multiset(md) && cut <= |s|
    ensures |s| == |md|
    ensures multiset(s[cut..]) <= multiset(md)
    ensures SortedAscending(s[cut..])
    ensures forall x, y | x in multiset(md) - multiset(s[cut..]) && y in s[cut..] :: LexLe(x, y)
  {
    assert |multiset(s)| == |s| && |multiset(md)| == |md|;
    PrefixBeforeSuffix(s, cut);
  }

  /** In an ascending sequence, every element before a cut sorts before every
      element after it. */
  lemma PrefixBeforeSuffix(s: seq<string>, cut: nat)
    requires SortedAscending(s) && cut <= |s|
    ensures multiset(s[cut..]) <= multiset(s)
    ensures multiset(s) - multiset(s[cut..]) == multiset(s[..cut])
    ensures SortedAscending(s[cut..])
    ensures forall x, y | x in multiset(s[..cut]) && y in s[cut..] :: LexLe(x, y)
  {
    assert s == s[..cut] + s[cut..];
    forall i, j | 0 <= i < j < |s[cut..]| ensures LexLe(s[cut..][i], s[cut..][j]) {
      assert s[cut..][i] == s[cut + i] && s[cut..][j] == s[cut + j];
    }
    forall x, y | x in multiset(s[..cut]) && y in s[cut..] ensures LexLe(x, y) {
      assert x in s[..cut];
      var i :| 0 <= i < cut && s[i] == x;
      var j :| cut <= j < |s| && s[j] == y;
    }
  }

  /** `getRecentSummaries(count)`. */
  function RecentSummaries(fs: Fs, paths: ProjectPaths, count: nat): (r: string)
    ensures paths.summaries !in fs.dirs ==> r == SummariesUnreadable
    ensures paths.summaries in fs.dirs ==>
              var names := RecentSummaryNames(fs.dirs[paths.summaries], count);
              r == if names == [] then NoSummariesYet else Join(SummaryTexts(fs, paths, names), SummarySeparator)
  {
    match ReadDirectory(fs, paths.summaries)
    case Err(_) => SummariesUnreadable
    case Ok(entries) =>
      var names := RecentSummaryNames(entries, count);
      if |names| == 0 then NoSummariesYet
      else Join(SummaryTexts(fs, paths, names), SummarySeparator)
  }

  function SummaryTexts(fs: Fs, paths: ProjectPaths, names: seq<string>): (r: seq<string>)
    ensures |r| == |names|
    ensures forall k | 0 <= k < |names| :: r[k] == ReadOrEmpty(fs, JoinPath(paths.summaries, names[k]))
  {
    Map(names, n => ReadOrEmpty(fs, JoinPath(paths.summaries, n)))
  }

  /** The column of the first header cell spelled exactly `name`. */
  function ColumnIndex(headerLine: string, name: string): Option<nat> {
    IndexOf(Split(headerLine, "\t"), name)
  }

  /** A data row whose cell under the status column, trimmed, is `open`;
      a row too short to have that cell is not open. */
  predicate IsOpenRow(row: string, statusIndex: nat) {
    var cells := Split(row, "\t");
    |cells| > statusIndex && Trim(cells[statusIndex]) == "open"
  }

  /** The open rows, in their original order. */
  function OpenRows(rows: seq<string>, statusIndex: nat): (r: seq<string>)
    ensures forall k | 0 <= k < |r| :: IsOpenRow(r[k], statusIndex) && r[k] in rows
    ensures forall k | 0 <= k < |rows| :: IsOpenRow(rows[k], statusIndex) ==> rows[k] in r
  {
    FilterFrom(rows, row => IsOpenRow(row, statusIndex));
    Filter(rows, row => IsOpenRow(row, statusIndex))
  }

  /** `getOpenForeshadows` on the text of `foreshadows.tsv`. */
  function OpenForeshadows(tsv: string): (r: string)
    ensures tsv == "" ==> r == NoForeshadowList
    ensures tsv != "" && |NonBlankLines(tsv)| <= 1 ==> r == NoOpenForeshadows
    ensures tsv != "" && |NonBlankLines(tsv)| > 1 && ColumnIndex(NonBlankLines(tsv)[0], "status").None? ==> r == tsv
  {
    if tsv == "" then NoForeshadowList
    else
      var lines := NonBlankLines(tsv);
      if |lines| <= 1 then NoOpenForeshadows
      else match ColumnIndex(lines[0], "status")
        case None => tsv
        case Some(statusIndex) =>
          var open := OpenRows(lines[1..], statusIndex);
          if |open| == 0 then NoOpenForeshadows
          else Join([lines[0]] + open, "\n")
  }

  /** When the list has a status column, the result is either the "nothing
      open" placeholder (exactly when no row is open) or a table whose lines
      are the header followed by precisely the open rows. */
  lemma OpenForeshadowsTable(tsv: string)
    requires tsv != "" && |NonBlankLines(tsv)| > 1
    requires ColumnIndex(NonBlankLines(tsv)[0], "status").Some?
    ensures var lines := NonBlankLines(tsv);
            var open := OpenRows(lines[1..], ColumnIndex(lines[0], "status").value);
            && (open == [] ==> OpenForeshadows(tsv) == NoOpenForeshadows)
            && (open != [] ==> Split(OpenForeshadows(tsv), "\n") == [lines[0]] + open)
  {
    var lines := NonBlankLines(tsv);
    var open := OpenRows(lines[1..], ColumnIndex(lines[0], "status").value);
    if open != [] {
      var table := [lines[0]] + open;
      forall k | 0 <= k < |table| ensures !Contains(table[k], "\n") {
        if k > 0 {
          assert table[k] in lines[1..];
        }
        NoCharNoOccurrence(table[k], '\n');
      }
      SplitJoin(table, "\n");
    }
  }

  /** `getOpenForeshadows`. */
  function OpenForeshadowsOf(fs: Fs, paths: ProjectPaths): string {
    OpenForeshadows(ForeshadowsTsv(fs, paths))
  }

  /** `GenerationContext`. */
  datatype GenerationContext = GenerationContext(
    characters: string,
    world: string,
    rules: string,
    timeline: string,
    arcMap: string,
    recentSummaries: string,
    openForeshadows: string)

  /** `buildContextForChapterGeneration`: each part from its own document,
      and always the two newest summaries. */
  function BuildContextForChapterGeneration(fs: Fs, paths: ProjectPaths): (r: GenerationContext)
    ensures r.recentSummaries == RecentSummaries(fs, paths, GenerationSummaryCount)
    ensures r.openForeshadows == OpenForeshadows(ForeshadowsTsv(fs, paths))
    ensures r.characters == ReadOrEmpty(fs, JoinPath(paths.bible, "characters.md"))
    ensures r.world == ReadOrEmpty(fs, JoinPath(paths.bible, "world.md"))
    ensures r.rules == ReadOrEmpty(fs, JoinPath(paths.bible, "rules.md"))
    ensures r.timeline == ReadOrEmpty(fs, JoinPath(paths.outline, "timeline.md"))
    ensures r.arcMap == ReadOrEmpty(fs, JoinPath(paths.outline, "arc_map.md"))
  {
    GenerationContext(
      CharactersDoc(fs, paths),
      WorldDoc(fs, paths),
      StyleRulesDoc(fs, paths),
      TimelineDoc(fs, paths),
      ArcMapDoc(fs, paths),
      RecentSummaries(fs, paths, GenerationSummaryCount),
      OpenForeshadowsOf(fs, paths))
  }
}
