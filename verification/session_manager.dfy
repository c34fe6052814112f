/** `SessionManager`: the in-memory game session (system prompt plus an
    append-only list of turns), the window of it sent to the model, and the
    session files of the `logs` folder. */
module SessionManager {
  import opened Wrappers
  import opened Text
  import opened Seqs
  import opened Workspace
  import opened Types
  import StoryContextBuilder

  /** `MAX_HISTORY_LENGTH`: how many recent turns the model sees. */
  const MaxHistoryLength: nat := 20

  const NotStartedError := "Session has not been started. Call startNewSession() first."
  const SessionFilePrefix := "session_"
  const SessionFileSuffix := ".json"

  /** The state of the class: `systemPrompt` (`null` as `None`) and `history`. */
  datatype Session = Session(systemPrompt: Option<string>, history: seq<ChatMessage>)

  /** The state of a freshly constructed manager. */
  const Initial := Session(None, [])

  /** `getHistoryForLLM` accepts the state: the prompt is a non-empty string. */
  predicate Started(s: Session) {
    s.systemPrompt.Some? && s.systemPrompt.value != ""
  }

  /** `startNewSession`: the state is replaced by the built prompt and a
      history holding only the opening scene, which is also returned. */
  function StartNewSession(s: Session, fs: Fs): (r: (Session, string))
    ensures r.0.systemPrompt == Some(StoryContextBuilder.BuildInitialSystemPrompt(fs))
    ensures r.0.history == [ChatMessage(Assistant, r.1)]
    ensures r.1 == StoryContextBuilder.OpeningScene(fs) && r.1 != ""
  {
    var prompt := StoryContextBuilder.BuildInitialSystemPrompt(fs);
    var opening := StoryContextBuilder.OpeningScene(fs);
    (AddMessage(Session(Some(prompt), []), Assistant, opening), opening)
  }

  /** Starting again forgets the previous session: the result does not
      depend on the prior state, so starting twice leaves one turn. */
  lemma StartNewSessionForgets(s: Session, t: Session, fs: Fs)
    ensures StartNewSession(s, fs) == StartNewSession(t, fs)
    ensures StartNewSession(StartNewSession(s, fs).0, fs) == StartNewSession(s, fs)
    ensures |StartNewSession(s, fs).0.history| == 1
  {
  }

  /** A started session is always ready for the model: the system prompt
      opens with the fixed preamble and so is never empty. */
  lemma StartedAfterStart(s: Session, fs: Fs)
    ensures Started(StartNewSession(s, fs).0)
    ensures var (session, opening) := StartNewSession(s, fs);
            HistoryForLlm(session) == Ok([ChatMessage(System, session.systemPrompt.value), ChatMessage(Assistant, opening)])
  {
    StoryContextBuilder.SystemPromptNotEmpty(fs);
    FreshWindow(StoryContextBuilder.BuildInitialSystemPrompt(fs), StoryContextBuilder.OpeningScene(fs));
  }

  /** The window of a session holding one turn is the prompt and that turn. */
  lemma FreshWindow(prompt: string, opening: string)
    requires prompt != ""
    ensures HistoryForLlm(Session(Some(prompt), [ChatMessage(Assistant, opening)])) ==
              Ok([ChatMessage(System, prompt), ChatMessage(Assistant, opening)])
  {
    var h := [ChatMessage(Assistant, opening)];
    assert TakeLast(h, MaxHistoryLength) == h;
    assert [ChatMessage(System, prompt)] + h == [ChatMessage(System, prompt), ChatMessage(Assistant, opening)];
  }

  /** `addMessage`: one turn appended at the end; everything else kept. */
  function AddMessage(s: Session, role: Role, content: string): (r: Session)
    requires role != System
    ensures r.systemPrompt == s.systemPrompt
    ensures |r.history| == |s.history| + 1
    ensures r.history[..|s.history|] == s.history
    ensures r.history[|s.history|] == ChatMessage(role, content)
  {
    Session(s.systemPrompt, s.history + [ChatMessage(role, content)])
  }

  /** `getHistoryForLLM`: the system message followed by the last
      `MaxHistoryLength` turns in order, or the "not started" error when the
      prompt is `null` or empty. */
  function HistoryForLlm(s: Session): (r: Result<seq<ChatMessage>, string>)
    ensures r.Err? <==> !Started(s)
    ensures r.Err? ==> r.error == NotStartedError
    ensures r.Ok? ==>
              var h := s.history;
              var n := if |h| < MaxHistoryLength then |h| else MaxHistoryLength;
              && |r.value| == 1 + n
              && r.value[0] == ChatMessage(System, s.systemPrompt.value)
              && r.value[1..] == h[|h| - n..]
  {
    if !Started(s) then Err(NotStartedError)
    else Ok([ChatMessage(System, s.systemPrompt.value)] + TakeLast(s.history, MaxHistoryLength))
  }

  /** Once the history is full, each new turn slides the window by one: the
      oldest turn of the window drops out and the new one enters last. */
  lemma WindowSlides(s: Session, role: Role, content: string)
    requires Started(s) && role != System
    requires |s.history| >= MaxHistoryLength
    ensures var before := HistoryForLlm(s).value;
            HistoryForLlm(AddMessage(s, role, content)).value ==
              before[..1] + before[2..] + [ChatMessage(role, content)]
  {
    var h := s.history;
    var h' := AddMessage(s, role, content).history;
    assert h'[|h'| - MaxHistoryLength..] == h[|h| - MaxHistoryLength + 1..] + [ChatMessage(role, content)];
  }

  /** Before the history fills, the window is the whole history. */
  lemma WindowIsWholeHistory(s: Session)
    requires Started(s) && |s.history| <= MaxHistoryLength
    ensures HistoryForLlm(s).value == [ChatMessage(System, s.systemPrompt.value)] + s.history
  {
  }

  /** One character of `toISOString().replace(/[:.]/g, '-')`. */
  function SafeChar(c: char): char {
    if c == ':' || c == '.' then '-' else c
  }

  /** The timestamp with every `:` and `.` turned into `-`. */
  function SanitizeTimestamp(t: string): (r: string)
    ensures |r| == |t|
    ensures ':' !in r && '.' !in r
    ensures forall i | 0 <= i < |t| && t[i] != ':' && t[i] != '.' :: r[i] == t[i]
  {
    seq(|t|, i requires 0 <= i < |t| => SafeChar(t[i]))
  }

  function SessionFileName(timestamp: string): string {
    SessionFilePrefix + SanitizeTimestamp(timestamp) + SessionFileSuffix
  }

  /** The names `loadSession` offers. */
  predicate IsSessionFileName(name: string) {
    StartsWith(name, SessionFilePrefix) && EndsWith(name, SessionFileSuffix)
  }

  /** Every name `saveSession` writes is one `loadSession` offers. */
  lemma SavedNameIsOffered(timestamp: string)
    ensures IsSessionFileName(SessionFileName(timestamp))
  {
    var name := SessionFileName(timestamp);
    var mid := SanitizeTimestamp(timestamp);
    assert name[..|SessionFilePrefix|] == SessionFilePrefix;
    assert name[|name| - |SessionFileSuffix|..] == SessionFileSuffix;
  }

  /** A file `saveSession` writes: its name under `logs` and its record. */
  datatype SavedSession = SavedSession(name: string, record: Session)

  /** `saveSession` with the clock reading `timestamp`: nothing to write for
      an empty history, otherwise `{systemPrompt, history}` under the
      sanitized-timestamp name. */
  function SaveSession(s: Session, timestamp: string): (r: Option<SavedSession>)
    ensures r.None? <==> s.history == []
    ensures r.Some? ==> r.value.record == s && IsSessionFileName(r.value.name)
    ensures r.Some? ==> r.value.name == SessionFilePrefix + SanitizeTimestamp(timestamp) + SessionFileSuffix
  {
    SavedNameIsOffered(timestamp);
    if |s.history| == 0 then None else Some(SavedSession(SessionFileName(timestamp), s))
  }

  /** The names `loadSession` lists: regular `session_*.json` files, newest
      (greatest) first. */
  function SessionFileCandidates(entries: seq<DirEntry>): (r: seq<string>)
    ensures SortedDescending(r)
    ensures multiset(r) == multiset(RegularFileNames(entries, IsSessionFileName))
    ensures forall k | 0 <= k < |r| :: IsSessionFileName(r[k]) && DirEntry(r[k], File) in entries
    ensures forall e | e in entries && e.kind == File && IsSessionFileName(e.name) :: e.name in r
  {
    NamesNewestFirst(entries, IsSessionFileName)
  }

  /** What `JSON.parse` gives back for a record `saveSession` wrote. */
  function Reload(saved: Session): ParsedSession {
    ParsedSession(saved.systemPrompt, Some(saved.history), None)
  }

  /** `loadedData.systemPrompt && loadedData.history`: an empty history array
      is still accepted. */
  predicate AcceptedRecord(rec: ParsedSession) {
    Truthy(rec.systemPrompt) && rec.history.Some?
  }

  /** `loadSession`. `listing` is the `logs` folder read, `pick` the quick
      pick over the offered names (`None` when dismissed), `load` the read
      and parse of a file (an error for either). The state is replaced, and
      its history returned, only for an accepted record; every other path
      leaves the state as it was and returns `null`. */
  function LoadSession(s: Session, listing: Result<seq<DirEntry>, string>,
                       pick: seq<string> -> Option<string>,
                       load: string -> Result<ParsedSession, string>): (r: (Session, Option<seq<ChatMessage>>))
    ensures r.1.None? ==> r.0 == s
    ensures r.1.Some? <==>
              && listing.Ok?
              && SessionFileCandidates(listing.value) != []
              && pick(SessionFileCandidates(listing.value)).Some?
              && load(pick(SessionFileCandidates(listing.value)).value).Ok?
              && AcceptedRecord(load(pick(SessionFileCandidates(listing.value)).value).value)
    ensures r.1.Some? ==>
              var rec := load(pick(SessionFileCandidates(listing.value)).value).value;
              r.0 == Session(rec.systemPrompt, rec.history.value) && r.1.value == r.0.history
  {
    match listing
    case Err(_) => (s, None)
    case Ok(entries) =>
      var candidates := SessionFileCandidates(entries);
      if |candidates| == 0 then (s, None)
      else match pick(candidates)
        case None => (s, None)
        case Some(name) =>
          match load(name)
          case Err(_) => (s, None)
          case Ok(rec) =>
            if AcceptedRecord(rec) then
              var loaded := Session(rec.systemPrompt, rec.history.value);
              (loaded, Some(loaded.history))
            else (s, None)
  }

  /** Saving and loading back round-trips: when the saved file is listed and
      picked, the manager returns to exactly the saved state — provided that
      state had been started; a never-started session is saved but refused
      on load. */
  lemma SaveLoadRoundTrip(s: Session, current: Session, timestamp: string, entries: seq<DirEntry>,
                          pick: seq<string> -> Option<string>, load: string -> Result<ParsedSession, string>)
    requires SaveSession(s, timestamp).Some?
    requires DirEntry(SaveSession(s, timestamp).value.name, File) in entries
    requires pick(SessionFileCandidates(entries)) == Some(SaveSession(s, timestamp).value.name)
    requires load(SaveSession(s, timestamp).value.name) == Ok(Reload(SaveSession(s, timestamp).value.record))
    ensures Started(s) ==> LoadSession(current, Ok(entries), pick, load) == (s, Some(s.history))
    ensures !Started(s) ==> LoadSession(current, Ok(entries), pick, load) == (current, None)
  {
    var saved := SaveSession(s, timestamp).value;
    assert saved.name in SessionFileCandidates(entries);
  }
}
