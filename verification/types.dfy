/** The shared data model: chat roles and messages, the persisted session
    record, the options a chat completion takes, and the validation rules
    of the LLM configuration schema. */
module Types {
  import opened Wrappers
  import opened Text

  /** `ChatMessageRole`. */
  datatype Role = System | User | Assistant

  function RoleName(r: Role): string {
    match r
    case System => "system"
    case User => "user"
    case Assistant => "assistant"
  }

  /** A role read back from its JSON spelling; anything else is rejected. */
  function ParseRole(s: string): (r: Option<Role>)
    ensures r.Some? ==> RoleName(r.value) == s
  {
    if s == "system" then Some(System)
    else if s == "user" then Some(User)
    else if s == "assistant" then Some(Assistant)
    else None
  }

  /** Roles are exactly the three spellings: each one parses back to itself. */
  lemma RoleRoundTrip(r: Role)
    ensures ParseRole(RoleName(r)) == Some(r)
  {
  }

  datatype ChatMessage = ChatMessage(role: Role, content: string)

  /** `SessionData`, the JSON record the session files hold. */
  datatype SessionData = SessionData(
    systemPrompt: Option<string>,
    history: seq<ChatMessage>,
    summary: string,
    autoSaveJsonPath: Option<string>)

  /** A session file as `JSON.parse` gives it back: a field the file does
      not hold is `None`. */
  datatype ParsedSession = ParsedSession(
    systemPrompt: Option<string>,
    history: Option<seq<ChatMessage>>,
    summary: Option<string>)

  /** JavaScript truthiness of an optional string. */
  predicate Truthy(s: Option<string>) {
    s.Some? && s.value != ""
  }

  /** `ChatCompletionOptions` as the transport sees them: `streaming` stands
      for an `onStream` callback being present. */
  datatype ChatOptions = ChatOptions(
    messages: seq<ChatMessage>,
    temperature: Option<real>,
    maxTokens: Option<int>,
    streaming: bool)

  /** A one-message, non-streaming request, the shape every pipeline uses. */
  function UserPrompt(prompt: string, temperature: Option<real>): ChatOptions {
    ChatOptions([ChatMessage(User, prompt)], temperature, None, false)
  }

  /** The chat transport: the reply text of a request, or the message of the
      error it raised. */
  type Llm = ChatOptions -> Result<string, string>

  datatype OpenRouterOptions = OpenRouterOptions(httpReferer: Option<string>, xTitle: Option<string>)

  /** `LlmConfig` as parsed from settings; numbers are JavaScript numbers. */
  datatype LlmConfig = LlmConfig(
    provider: string,
    model: string,
    endpoint: string,
    temperature: real,
    maxTokens: real,
    providerOptions: OpenRouterOptions)

  datatype StoryGameConfig = StoryGameConfig(chat: LlmConfig, summarization: LlmConfig)

  /** One violated rule of `LlmConfigSchema`. */
  datatype ConfigIssue =
    | BadProvider
    | EmptyModel
    | TemperatureOutOfRange
    | MaxTokensNotPositiveInteger

  /** The rules of `LlmConfigSchema`, stated directly. */
  predicate ValidLlmConfig(c: LlmConfig) {
    && (c.provider == "openrouter" || c.provider == "openai")
    && |c.model| >= 1
    && 0.0 <= c.temperature <= 2.0
    && c.maxTokens > 0.0 && c.maxTokens == c.maxTokens.Floor as real
  }

  predicate ValidStoryGameConfig(c: StoryGameConfig) {
    ValidLlmConfig(c.chat) && ValidLlmConfig(c.summarization)
  }

  /** The issues a schema parse reports, in field order. */
  function LlmConfigIssues(c: LlmConfig): (issues: seq<ConfigIssue>)
    ensures issues == [] <==> ValidLlmConfig(c)
    ensures |issues| <= 4
  {
    (if c.provider == "openrouter" || c.provider == "openai" then [] else [BadProvider])
    + (if |c.model| >= 1 then [] else [EmptyModel])
    + (if 0.0 <= c.temperature <= 2.0 then [] else [TemperatureOutOfRange])
    + (if c.maxTokens > 0.0 && c.maxTokens == c.maxTokens.Floor as real then [] else [MaxTokensNotPositiveInteger])
  }

  /** A game configuration parses exactly when both of its LLM sections do. */
  function StoryGameConfigIssues(c: StoryGameConfig): (issues: seq<ConfigIssue>)
    ensures issues == [] <==> ValidStoryGameConfig(c)
  {
    LlmConfigIssues(c.chat) + LlmConfigIssues(c.summarization)
  }
}
