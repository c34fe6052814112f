/** `exportLogToMarkdown`: a saved session log, picked from the `archives`
    or `autosaves` folder, rendered as a Markdown document in `exports`. */
module ExportLogToMarkdown {
  import opened Wrappers
  import opened Text
  import opened Seqs
  import opened Workspace
  import opened Types

  /** The folders the first quick pick offers, in order. */
  const LogFolders := ["archives", "autosaves"]
  const LogsDir := "logs"
  const ExportsDir := "exports"
  const JsonExtension := ".json"

  const ExportTitle := "# Story Log Export\n\n"
  const SystemPromptHeading := "## Scenario Settings (System Prompt)\n\n"
  const SummaryHeading := "## Story Summary (Long-term Memory)\n\n"
  const ConversationHeading := "## Recent Conversation (Short-term Memory)\n\n---\n\n"

  /** One turn of `formatHistoryToMarkdown`: a user turn under a `You`
      label, an assistant turn followed by a rule, a system turn omitted. */
  function FormatTurn(m: ChatMessage): (r: string)
    ensures m.role == System <==> r == ""
  {
    match m.role
    case User => "**You:**\n" + m.content + "\n\n"
    case Assistant => m.content + "\n\n---\n\n"
    case System => ""
  }

  /** `formatHistoryToMarkdown`: the turns rendered in order. */
  function FormatHistoryToMarkdown(history: seq<ChatMessage>): string
    decreases |history|
  {
    if |history| == 0 then "" else FormatTurn(history[0]) + FormatHistoryToMarkdown(history[1..])
  }

  /** Rendering is compositional: the rendering of two parts of a history
      is the rendering of the first followed by that of the second. */
  lemma {:induction false} FormatHistoryAppend(a: seq<ChatMessage>, b: seq<ChatMessage>)
    ensures FormatHistoryToMarkdown(a + b) == FormatHistoryToMarkdown(a) + FormatHistoryToMarkdown(b)
    decreases |a|
  {
    if |a| > 0 {
      assert (a + b)[1..] == a[1..] + b;
      FormatHistoryAppend(a[1..], b);
    } else {
      assert a + b == b;
    }
  }

  predicate NotSystem(m: ChatMessage) {
    m.role != System
  }

  /** System turns leave no trace: the rendering is that of the history
      without them. */
  lemma {:induction false} SystemTurnsOmitted(history: seq<ChatMessage>)
    ensures FormatHistoryToMarkdown(history) == FormatHistoryToMarkdown(Filter(history, NotSystem))
    decreases |history|
  {
    if |history| > 0 {
      SystemTurnsOmitted(history[1..]);
      var rest := Filter(history[1..], NotSystem);
      if NotSystem(history[0]) {
        assert Filter(history, NotSystem) == [history[0]] + rest;
        assert ([history[0]] + rest)[1..] == rest;
      } else {
        assert Filter(history, NotSystem) == rest;
      }
    }
  }

  /** The rendering of a single user or assistant turn. */
  lemma SingleTurns(content: string)
    ensures FormatHistoryToMarkdown([ChatMessage(User, content)]) == "**You:**\n" + content + "\n\n"
    ensures FormatHistoryToMarkdown([ChatMessage(Assistant, content)]) == content + "\n\n---\n\n"
  {
    assert [ChatMessage(User, content)][1..] == [];
    assert [ChatMessage(Assistant, content)][1..] == [];
  }

  /** The title block: the title, the source file and the export time. */
  function ExportHeader(sourceName: string, exportedOn: string): string {
    ExportTitle + "*Exported from: " + sourceName + "*\n" + "*Exported on: " + exportedOn + "*\n\n"
  }

  /** The system-prompt block, in a code fence. */
  function SystemBlock(prompt: string): string {
    SystemPromptHeading + "```\n" + prompt + "\n```\n\n"
  }

  function SummaryBlock(summary: string): string {
    SummaryHeading + summary + "\n\n"
  }

  /** The system-prompt block when the prompt is truthy. */
  function SystemSection(prompt: Option<string>): string {
    if Truthy(prompt) then SystemBlock(prompt.value) else ""
  }

  /** The summary block when the summary is truthy. */
  function SummarySection(summary: Option<string>): string {
    if Truthy(summary) then SummaryBlock(summary.value) else ""
  }

  /** `!sessionData.history || sessionData.history.length === 0`. */
  predicate HasHistory(rec: ParsedSession) {
    rec.history.Some? && |rec.history.value| > 0
  }

  /** The conversation block. */
  function Conversation(history: seq<ChatMessage>): string {
    ConversationHeading + FormatHistoryToMarkdown(history)
  }

  /** The document's four parts, in order. */
  function Layout(header: string, system: string, summary: string, conversation: string): string {
    header + system + summary + conversation
  }

  /** The exported document: nothing without history; otherwise the title
      block, the system prompt and the summary when truthy, and the
      conversation, in that order. `exportedOn` is the clock's reading. */
  function ExportDocument(rec: ParsedSession, sourceName: string, exportedOn: string): (r: Option<string>)
    ensures r.None? <==> !HasHistory(rec)
    ensures r.Some? ==> StartsWith(r.value, ExportHeader(sourceName, exportedOn))
    ensures r.Some? ==> EndsWith(r.value, Conversation(rec.history.value))
    ensures r.Some? && !Truthy(rec.systemPrompt) && !Truthy(rec.summary) ==>
              r.value == ExportHeader(sourceName, exportedOn) + Conversation(rec.history.value)
  {
    if !HasHistory(rec) then None
    else
      var head := ExportHeader(sourceName, exportedOn);
      var tail := Conversation(rec.history.value);
      LayoutFramed(head, SystemSection(rec.systemPrompt), SummarySection(rec.summary), tail);
      Some(Layout(head, SystemSection(rec.systemPrompt), SummarySection(rec.summary), tail))
  }

  lemma LayoutFramed(h: string, s: string, m: string, t: string)
    ensures StartsWith(Layout(h, s, m, t), h) && EndsWith(Layout(h, s, m, t), t)
  {
    var l := Layout(h, s, m, t);
    assert l[..|h|] == h;
    assert l[|l| - |t|..] == t;
  }

  /** Without a system section, the block goes right after the header;
      without a summary, right before the conversation. */
  lemma LayoutSplice(h: string, s: string, m: string, t: string)
    ensures var l := Layout(h, "", m, t);
            |h| <= |l| && Layout(h, s, m, t) == l[..|h|] + s + l[|h|..]
    ensures var l := Layout(h, s, "", t);
            |t| <= |l| && Layout(h, s, m, t) == l[..|l| - |t|] + m + l[|l| - |t|..]
  {
    var l := Layout(h, "", m, t);
    assert l == h + (m + t);
    assert l[..|h|] == h && l[|h|..] == m + t;
    var l2 := Layout(h, s, "", t);
    assert l2 == (h + s) + t;
    assert l2[..|l2| - |t|] == h + s && l2[|l2| - |t|..] == t;
  }

  /** A system prompt, when truthy, adds its block right after the title
      block and changes nothing else; an empty one is as good as none. */
  lemma SystemBlockInserted(rec: ParsedSession, sourceName: string, exportedOn: string, prompt: string)
    requires HasHistory(rec)
    ensures var without := ExportDocument(rec.(systemPrompt := None), sourceName, exportedOn).value;
            var n := |ExportHeader(sourceName, exportedOn)|;
            && n <= |without|
            && ExportDocument(rec.(systemPrompt := Some(prompt)), sourceName, exportedOn).value ==
                 if prompt == "" then without else without[..n] + SystemBlock(prompt) + without[n..]
  {
    LayoutSplice(ExportHeader(sourceName, exportedOn), SystemSection(Some(prompt)),
                 SummarySection(rec.summary), Conversation(rec.history.value));
  }

  /** A summary, when truthy, adds its block right before the conversation
      and changes nothing else; an empty one is as good as none. */
  lemma SummaryBlockInserted(rec: ParsedSession, sourceName: string, exportedOn: string, summary: string)
    requires HasHistory(rec)
    ensures var without := ExportDocument(rec.(summary := None), sourceName, exportedOn).value;
            var n := |Conversation(rec.history.value)|;
            && n <= |without|
            && ExportDocument(rec.(summary := Some(summary)), sourceName, exportedOn).value ==
                 if summary == "" then without else without[..|without| - n] + SummaryBlock(summary) + without[|without| - n..]
  {
    LayoutSplice(ExportHeader(sourceName, exportedOn), SystemSection(rec.systemPrompt),
                 SummarySection(Some(summary)), Conversation(rec.history.value));
  }

  /** `path.basename(p, '.json')`: the base name without a trailing
      `.json`, unless that is all it is. */
  function BasenameWithoutJson(path: string): (r: string)
    ensures var b := Basename(path);
            r == b || (EndsWith(b, JsonExtension) && b != JsonExtension && r + JsonExtension == b)
  {
    var b := Basename(path);
    if EndsWith(b, JsonExtension) && b != JsonExtension then
      assert b[..|b| - |JsonExtension|] + JsonExtension == b;
      b[..|b| - |JsonExtension|]
    else b
  }

  /** The name of the exported file. */
  function OutputFileName(logPath: string): string {
    BasenameWithoutJson(logPath) + ".md"
  }

  /** A log `<stem>.json` in any folder is exported as `<stem>.md`. */
  lemma OutputFileNameOfLog(dir: string, stem: string)
    requires stem != "" && '/' !in stem
    ensures OutputFileName(JoinPath(dir, stem + JsonExtension)) == stem + ".md"
  {
    var name := stem + JsonExtension;
    assert '/' !in name by {
      assert forall i | 0 <= i < |JsonExtension| :: JsonExtension[i] != '/';
    }
    BasenameOfJoin(dir, name);
    assert name[|name| - |JsonExtension|..] == JsonExtension;
    assert name[..|name| - |JsonExtension|] == stem;
  }

  /** `selectLogFile`: the folder pick, then the folder's `.json` files,
      greatest name first, then the file pick. `None` when a pick is
      dismissed, the folder cannot be read or holds no log. */
  function SelectLogFile(fs: Fs, logsRoot: string,
                         folderPick: seq<string> -> Option<string>,
                         filePick: seq<string> -> Option<string>): (r: Option<string>)
    ensures r.Some? <==>
              && folderPick(LogFolders).Some?
              && JoinPath(logsRoot, folderPick(LogFolders).value) in fs.dirs
              && NamesNewestFirst(fs.dirs[JoinPath(logsRoot, folderPick(LogFolders).value)], IsJsonName) != []
              && filePick(NamesNewestFirst(fs.dirs[JoinPath(logsRoot, folderPick(LogFolders).value)], IsJsonName)).Some?
    ensures r.Some? ==>
              var dir := JoinPath(logsRoot, folderPick(LogFolders).value);
              r.value == JoinPath(dir, filePick(NamesNewestFirst(fs.dirs[dir], IsJsonName)).value)
  {
    match folderPick(LogFolders)
    case None => None
    case Some(folder) =>
      var dir := JoinPath(logsRoot, folder);
      match ReadDirectory(fs, dir)
      case Err(_) => None
      case Ok(entries) =>
        var files := NamesNewestFirst(entries, IsJsonName);
        if |files| == 0 then None
        else match filePick(files)
          case None => None
          case Some(name) => Some(JoinPath(dir, name))
  }

  /** What the command ends with. */
  datatype ExportOutcome =
    | NothingSelected
    | NoHistory
    | Failed(message: string)
    | Exported(path: string, content: string)

  /** `exportLogToMarkdown` under the project root: `parse` is
      `JSON.parse` and `exportedOn` the clock's reading. A read or parse
      error is caught and reported; a log without history exports nothing. */
  function ExportRun(fs: Fs, root: string,
                     folderPick: seq<string> -> Option<string>,
                     filePick: seq<string> -> Option<string>,
                     parse: string -> Result<ParsedSession, string>,
                     exportedOn: string): (r: ExportOutcome)
    ensures SelectLogFile(fs, JoinPath(root, LogsDir), folderPick, filePick).None? <==> r.NothingSelected?
    ensures r.Exported? ==>
              var source := SelectLogFile(fs, JoinPath(root, LogsDir), folderPick, filePick).value;
              && source in fs.files
              && parse(fs.files[source]).Ok?
              && HasHistory(parse(fs.files[source]).value)
              && r.path == JoinPath(JoinPath(root, ExportsDir), OutputFileName(source))
              && Some(r.content) == ExportDocument(parse(fs.files[source]).value, Basename(source), exportedOn)
    ensures r.NoHistory? ==>
              var source := SelectLogFile(fs, JoinPath(root, LogsDir), folderPick, filePick).value;
              source in fs.files && parse(fs.files[source]).Ok? && !HasHistory(parse(fs.files[source]).value)
    ensures SelectLogFile(fs, JoinPath(root, LogsDir), folderPick, filePick).Some? ==>
              var source := SelectLogFile(fs, JoinPath(root, LogsDir), folderPick, filePick).value;
              && (source !in fs.files ==> r == Failed(ReadFile(fs, source).error))
              && (source in fs.files && parse(fs.files[source]).Err? ==> r == Failed(parse(fs.files[source]).error))
              && (source in fs.files && parse(fs.files[source]).Ok? ==>
                    (r.Exported? <==> HasHistory(parse(fs.files[source]).value)))
  {
    match SelectLogFile(fs, JoinPath(root, LogsDir), folderPick, filePick)
    case None => NothingSelected
    case Some(source) =>
      match ReadFile(fs, source)
      case Err(e) => Failed(e)
      case Ok(text) =>
        match parse(text)
        case Err(e) => Failed(e)
        case Ok(rec) =>
          match ExportDocument(rec, Basename(source), exportedOn)
          case None => NoHistory
          case Some(doc) => Exported(JoinPath(JoinPath(root, ExportsDir), OutputFileName(source)), doc)
  }
}
