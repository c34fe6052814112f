/** `StoryContextBuilder`: the static system prompt of a game session,
    assembled from the scenario documents, and the opening scene. */
module StoryContextBuilder {
  import opened Wrappers
  import opened Text
  import opened Seqs
  import opened Workspace

  const WorldSettingPath := "scenario/00_world_setting.md"
  const PlayerCharacterPath := "scenario/01_player_character.md"
  const AiRulesPath := "scenario/02_ai_rules.md"
  const OpeningScenePath := "scenario/03_opening_scene.md"
  const CharactersDir := "scenario/characters"

  const NoCharacterFiles := "（キャラクター設定ファイルが見つかりません）"
  const CharactersUnreadable := "（キャラクター設定の読み込みに失敗しました）"
  const NotSet := "（設定なし）"
  const DefaultOpening := "こんにちは。ゲームを開始します。"
  const SheetSeparator := "\n\n---\n\n"

  /** The fixed instruction block that opens every system prompt. */
  const Preamble := "#" + PreambleAfterHash
  const PreambleAfterHash := " システム指示\nあなたはこれから、対話型ストーリーゲームの登場人物（NPC）として振る舞います。以下の設定を厳密に守り、プレイヤーとの対話を通じて物語を進行させてください。\n\n---\n\n"

  const WorldTitle := "世界観・舞台設定"
  const PlayerTitle := "主人公（プレイヤー）の情報"
  const CharactersTitle := "登場人物（NPC）の情報"
  const RulesTitle := "あなた（AI）の行動指針"

  function CharacterSheetPath(name: string): string {
    JoinPath(CharactersDir, name)
  }

  /** The texts of the named character sheets, in the given order; a sheet
      that cannot be read contributes an empty text. */
  function SheetTexts(fs: Fs, names: seq<string>): (r: seq<string>)
    ensures |r| == |names|
    ensures forall k | 0 <= k < |names| :: r[k] == ReadOrEmpty(fs, CharacterSheetPath(names[k]))
  {
    Map(names, n => ReadOrEmpty(fs, CharacterSheetPath(n)))
  }

  /** `getAllCharactersContent`: every regular `.md` file of the characters
      directory, read and joined in listing order; a missing directory and
      an empty one each give their own placeholder. */
  function AllCharactersContent(fs: Fs): (r: string)
    ensures CharactersDir !in fs.dirs ==> r == CharactersUnreadable
    ensures CharactersDir in fs.dirs ==>
              var names := RegularFileNames(fs.dirs[CharactersDir], IsMarkdownName);
              r == if names == [] then NoCharacterFiles else Join(SheetTexts(fs, names), SheetSeparator)
  {
    match ReadDirectory(fs, CharactersDir)
    case Err(_) => CharactersUnreadable
    case Ok(entries) =>
      var names := RegularFileNames(entries, IsMarkdownName);
      if |names| == 0 then NoCharacterFiles
      else Join(SheetTexts(fs, names), SheetSeparator)
  }

  /** Sheets appear in listing order: a listing made of two parts that each
      hold a sheet yields the first part's sheets, the separator, then the
      second part's. */
  lemma CharactersInListingOrder(fs: Fs, a: seq<DirEntry>, b: seq<DirEntry>)
    requires CharactersDir in fs.dirs && fs.dirs[CharactersDir] == a + b
    requires RegularFileNames(a, IsMarkdownName) != [] && RegularFileNames(b, IsMarkdownName) != []
    ensures AllCharactersContent(fs) ==
              Join(SheetTexts(fs, RegularFileNames(a, IsMarkdownName)), SheetSeparator) + SheetSeparator +
              Join(SheetTexts(fs, RegularFileNames(b, IsMarkdownName)), SheetSeparator)
  {
    var na, nb := RegularFileNames(a, IsMarkdownName), RegularFileNames(b, IsMarkdownName);
    RegularFileNamesAppend(a, b, IsMarkdownName);
    SheetsJoinAppend(fs, na, nb);
  }

  /** The joined sheets of two non-empty name lists, one after the other. */
  lemma SheetsJoinAppend(fs: Fs, na: seq<string>, nb: seq<string>)
    requires na != [] && nb != []
    ensures na + nb != []
    ensures Join(SheetTexts(fs, na + nb), SheetSeparator) ==
              Join(SheetTexts(fs, na), SheetSeparator) + SheetSeparator + Join(SheetTexts(fs, nb), SheetSeparator)
  {
    assert SheetTexts(fs, na + nb) == SheetTexts(fs, na) + SheetTexts(fs, nb);
    JoinAppend(SheetTexts(fs, na), SheetTexts(fs, nb), SheetSeparator);
  }

  /** A section body, or the "not set" placeholder when it is empty. */
  function OrNotSet(body: string): (r: string)
    ensures r != ""
    ensures body != "" ==> r == body
  {
    if body == "" then NotSet else body
  }

  function Section(title: string, body: string): string {
    "## " + title + "\n" + OrNotSet(body)
  }

  /** The four sections in their fixed order, separated by rules, without
      the surrounding trim. */
  function PromptLayout(world: string, player: string, characters: string, rules: string): string {
    Preamble + (Section(WorldTitle, world) + LaterSections(player, characters, rules))
  }

  function LaterSections(player: string, characters: string, rules: string): string {
    "\n\n---\n\n" + Section(PlayerTitle, player)
    + "\n\n---\n\n" + Section(CharactersTitle, characters)
    + "\n\n---\n\n" + Section(RulesTitle, rules)
  }

  /** `buildInitialSystemPrompt`: the template literal, filled and trimmed. */
  function BuildInitialSystemPrompt(fs: Fs): string {
    var world := ReadOrEmpty(fs, WorldSettingPath);
    var player := ReadOrEmpty(fs, PlayerCharacterPath);
    var rules := ReadOrEmpty(fs, AiRulesPath);
    var characters := AllCharactersContent(fs);
    Trim("\n" + PromptLayout(world, player, characters, rules) + "\n")
  }

  /** The trim of the system prompt only removes the template's leading line
      break and trailing white space: the prompt is the preamble followed by
      world, player, NPC and rules sections in that order, each showing its
      document or the placeholder. */
  lemma SystemPromptLayout(fs: Fs)
    ensures BuildInitialSystemPrompt(fs) ==
              TrimEnd(PromptLayout(ReadOrEmpty(fs, WorldSettingPath), ReadOrEmpty(fs, PlayerCharacterPath),
                                   AllCharactersContent(fs), ReadOrEmpty(fs, AiRulesPath)))
    ensures StartsWith(BuildInitialSystemPrompt(fs), Preamble)
  {
    var world, player := ReadOrEmpty(fs, WorldSettingPath), ReadOrEmpty(fs, PlayerCharacterPath);
    var characters, rules := AllCharactersContent(fs), ReadOrEmpty(fs, AiRulesPath);
    assert BuildInitialSystemPrompt(fs) == Trim("\n" + PromptLayout(world, player, characters, rules) + "\n");
    LayoutTrim(world, player, characters, rules);
  }

  /** The system prompt is never empty: it always opens with the preamble. */
  lemma SystemPromptNotEmpty(fs: Fs)
    ensures BuildInitialSystemPrompt(fs) != ""
  {
    SystemPromptLayout(fs);
    assert |Preamble| > 0;
  }

  lemma LayoutTrim(world: string, player: string, characters: string, rules: string)
    ensures Trim("\n" + PromptLayout(world, player, characters, rules) + "\n") == TrimEnd(PromptLayout(world, player, characters, rules))
    ensures StartsWith(TrimEnd(PromptLayout(world, player, characters, rules)), Preamble)
  {
    var x := PromptLayout(world, player, characters, rules);
    var rest := Section(WorldTitle, world)[1..] + LaterSections(player, characters, rules);
    LayoutShape(world, player, characters, rules);
    TrimTemplate(Preamble, '#', rest);
  }

  lemma LayoutShape(world: string, player: string, characters: string, rules: string)
    ensures PromptLayout(world, player, characters, rules) ==
              Preamble + ['#'] + (Section(WorldTitle, world)[1..] + LaterSections(player, characters, rules))
    ensures PromptLayout(world, player, characters, rules)[0] == '#'
  {
    SectionStartsWithHash(WorldTitle, world);
    SplitFirst(Preamble, Section(WorldTitle, world), LaterSections(player, characters, rules));
    assert Preamble[0] == '#';
  }

  /** Splitting the first character off the middle part of a concatenation. */
  lemma SplitFirst(a: string, s: string, l: string)
    requires |s| > 0
    ensures a + (s + l) == a + [s[0]] + (s[1..] + l)
    ensures |a| > 0 ==> (a + (s + l))[0] == a[0]
  {
    assert s == [s[0]] + s[1..];
  }

  lemma SectionStartsWithHash(title: string, body: string)
    ensures |Section(title, body)| > 0 && Section(title, body)[0] == '#'
  {
  }

  /** `getOpeningScene`: the opening document verbatim, or the default
      greeting when it is missing or empty. */
  function OpeningScene(fs: Fs): (r: string)
    ensures r != ""
    ensures OpeningScenePath in fs.files && fs.files[OpeningScenePath] != "" ==> r == fs.files[OpeningScenePath]
    ensures OpeningScenePath !in fs.files || fs.files[OpeningScenePath] == "" ==> r == DefaultOpening
  {
    var opening := ReadOrEmpty(fs, OpeningScenePath);
    if opening == "" then DefaultOpening else opening
  }
}
