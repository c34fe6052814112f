/** `OpenRouterProvider`: the chat transport. The HTTP exchange itself is a
    parameter; what is modelled is the API-key guard, the request built
    from the configuration, the reading of the reply, the classification of
    failures, and the incremental parser of the server-sent event stream. */
module OpenRouter {
  import opened Wrappers
  import opened Text
  import opened Seqs
  import opened Types

  const ApiKeyMissing := "API key is not set. Please set it to continue."
  const Unauthorized := "API key is not set or invalid (401 Unauthorized). Please set it."
  const ApiErrorPrefix := "OpenRouter API Error: "
  const UnknownError := "An unknown error occurred while communicating with OpenRouter."
  const StreamError := "Error processing stream from OpenRouter."

  /** Events of the stream are separated by a blank line. */
  const EventSeparator := "\n\n"
  const DataPrefix := "data: "
  const DoneMarker := "[DONE]"

  /** The JSON body posted to the endpoint. */
  datatype RequestBody = RequestBody(
    model: string,
    messages: seq<ChatMessage>,
    temperature: real,
    maxTokens: real,
    stream: bool)

  /** The request body: options win over configuration when present (`??`),
      and streaming is requested exactly when a stream callback is given. */
  function BuildBody(config: LlmConfig, options: ChatOptions): (r: RequestBody)
    ensures r.model == config.model && r.messages == options.messages
    ensures r.stream <==> options.streaming
    ensures r.temperature == if options.temperature.Some? then options.temperature.value else config.temperature
    ensures r.maxTokens == if options.maxTokens.Some? then options.maxTokens.value as real else config.maxTokens
  {
    RequestBody(
      config.model,
      options.messages,
      options.temperature.GetOr(config.temperature),
      if options.maxTokens.Some? then options.maxTokens.value as real else config.maxTokens,
      options.streaming)
  }

  /** The request headers, in insertion order; the two optional ones are
      sent only when configured with a non-empty value. */
  function BuildHeaders(apiKey: string, opts: OpenRouterOptions): (r: seq<(string, string)>)
    ensures |r| >= 2 && r[0] == ("Authorization", "Bearer " + apiKey) && r[1] == ("Content-Type", "application/json")
    ensures ("HTTP-Referer", opts.httpReferer.GetOr("")) in r <==> opts.httpReferer.Some? && opts.httpReferer.value != ""
    ensures ("X-Title", opts.xTitle.GetOr("")) in r <==> opts.xTitle.Some? && opts.xTitle.value != ""
  {
    [("Authorization", "Bearer " + apiKey), ("Content-Type", "application/json")]
    + (if opts.httpReferer.Some? && opts.httpReferer.value != "" then [("HTTP-Referer", opts.httpReferer.value)] else [])
    + (if opts.xTitle.Some? && opts.xTitle.value != "" then [("X-Title", opts.xTitle.value)] else [])
  }

  /** One entry of `choices` in a non-streamed reply: `message.content`,
      `None` when the message or its content is missing. */
  datatype Choice = Choice(content: Option<string>)

  /** What the exchange produced. A completed exchange carries `data` as
      axios hands it over for the requested response type: the parsed JSON
      (`choices`, `None` when absent) for a plain request, the received
      chunks (and whether the stream failed instead of ending) for a
      streamed one. An HTTP failure carries its status, the `error.message`
      of its body and its own message; anything else is `OtherFailure`. */
  datatype Exchange =
    | Completed(choices: Option<seq<Choice>>, chunks: seq<string>, streamFailed: bool)
    | HttpFailure(status: Option<int>, bodyMessage: Option<string>, message: string)
    | OtherFailure

  /** A finished chat: the reply text and the texts passed to `onStream`. */
  datatype Completion = Completion(text: string, streamed: seq<string>)

  /** `choices[0]?.message?.content || ''`. */
  function ReplyText(choices: seq<Choice>): (r: string)
    ensures |choices| > 0 && choices[0].content.Some? ==> r == choices[0].content.value
    ensures |choices| == 0 || choices[0].content.None? ==> r == ""
  {
    if |choices| == 0 then "" else choices[0].content.GetOr("")
  }

  /** The `catch` block: a 401 means a bad key, other HTTP failures report
      the server's message (or the failure's own), anything else is
      unknown. */
  function Classify(e: Exchange): (r: string)
    requires !e.Completed?
    ensures e.HttpFailure? && e.status == Some(401) ==> r == Unauthorized
    ensures e.HttpFailure? && e.status != Some(401) ==>
              r == ApiErrorPrefix + (if e.bodyMessage.Some? && e.bodyMessage.value != "" then e.bodyMessage.value else e.message)
    ensures e.OtherFailure? ==> r == UnknownError
  {
    match e
    case HttpFailure(status, bodyMessage, message) =>
      if status == Some(401) then Unauthorized
      else ApiErrorPrefix + (if bodyMessage.Some? && bodyMessage.value != "" then bodyMessage.value else message)
    case OtherFailure => UnknownError
  }

  /** `chat`. `apiKey` is the stored key (`None` when there is none), `post`
      the HTTP exchange for a body, `delta` the reading of one event's JSON
      (`parsed.choices[0]?.delta?.content || ''`, `None` when the JSON does
      not parse or has no `choices`). */
  function Chat(apiKey: Option<string>, config: LlmConfig, options: ChatOptions,
                post: RequestBody -> Exchange, delta: string -> Option<string>): (r: Result<Completion, string>)
    ensures apiKey.None? || IsBlank(apiKey.value) ==> r == Err(ApiKeyMissing)
    ensures r.Ok? && !options.streaming ==>
              post(BuildBody(config, options)).Completed? && post(BuildBody(config, options)).choices.Some?
              && r.value == Completion(ReplyText(post(BuildBody(config, options)).choices.value), [])
    ensures r.Ok? && options.streaming ==>
              var e := post(BuildBody(config, options));
              e.Completed? && !e.streamFailed && r.value.streamed == StreamEvents(Concat(e.chunks), delta)
              && r.value.text == Concat(r.value.streamed)
    ensures r.Err? ==> r.error in {ApiKeyMissing, Unauthorized, UnknownError, StreamError} || StartsWith(r.error, ApiErrorPrefix)
    ensures apiKey.Some? && !IsBlank(apiKey.value) ==>
              var e := post(BuildBody(config, options));
              && (r.Ok? <==> e.Completed? && (if options.streaming then !e.streamFailed else e.choices.Some?))
              && (!e.Completed? ==> r == Err(Classify(e)))
              && (e.Completed? && options.streaming && e.streamFailed ==> r == Err(StreamError))
              && (e.Completed? && !options.streaming && e.choices.None? ==> r == Err(UnknownError))
  {
    if apiKey.None? || IsBlank(apiKey.value) then Err(ApiKeyMissing)
    else
      var body := BuildBody(config, options);
      match post(body)
      case Completed(choices, chunks, streamFailed) =>
        if body.stream then
          if streamFailed then Err(StreamError)
          else
            var events := StreamEvents(Concat(chunks), delta);
            Ok(Completion(Concat(events), events))
        else if choices.None? then Err(UnknownError)
        else Ok(Completion(ReplyText(choices.value), []))
      case HttpFailure(_, _, _) => Err(Classify(post(body)))
      case OtherFailure => Err(UnknownError)
  }

  /** Without a usable key no request is made: the outcome is the same
      whatever the transport would have done. */
  lemma KeyGuardPrecedesRequest(apiKey: Option<string>, config: LlmConfig, options: ChatOptions,
                                post: RequestBody -> Exchange, other: RequestBody -> Exchange, delta: string -> Option<string>)
    requires apiKey.None? || IsBlank(apiKey.value)
    ensures Chat(apiKey, config, options, post, delta) == Chat(apiKey, config, options, other, delta)
  {
  }

  /** The pieces of a text closed by a separator, in order; the text after
      the last separator is the carry. */
  function CompleteSegments(text: string): seq<string> {
    var p := Split(text, EventSeparator);
    p[..|p| - 1]
  }

  /** Processed segments, each with its separator, followed by the carry
      give back the text. */
  lemma SegmentsAndCarry(text: string)
    ensures Terminated(CompleteSegments(text)) + Carry(text) == text
  {
    JoinAsTerminated(Split(text, EventSeparator), EventSeparator);
  }

  /** `lines.pop() || ''`: what stays in the buffer. */
  function Carry(text: string): string {
    var p := Split(text, EventSeparator);
    p[|p| - 1]
  }

  /** Segments written back with their separators. */
  function Terminated(segments: seq<string>): string
    decreases |segments|
  {
    if |segments| == 0 then "" else segments[0] + EventSeparator + Terminated(segments[1..])
  }

  lemma {:induction false} JoinAsTerminated(parts: seq<string>, sep: string)
    requires |parts| > 0 && sep == EventSeparator
    ensures Join(parts, sep) == Terminated(parts[..|parts| - 1]) + parts[|parts| - 1]
    decreases |parts|
  {
    if |parts| > 1 {
      JoinAsTerminated(parts[1..], sep);
      assert parts[1..][..|parts| - 2] == parts[..|parts| - 1][1..];
    }
  }

  /** The text one event contributes: only `data: ` events count, `[DONE]`
      and JSON that cannot be read are skipped, and an empty delta is no
      event. */
  function EventOf(segment: string, delta: string -> Option<string>): (r: seq<string>)
    ensures |r| <= 1
    ensures forall k | 0 <= k < |r| :: r[k] != ""
    ensures !StartsWith(segment, DataPrefix) ==> r == []
    ensures StartsWith(segment, DataPrefix) && Trim(segment[|DataPrefix|..]) == DoneMarker ==> r == []
    ensures StartsWith(segment, DataPrefix) && Trim(segment[|DataPrefix|..]) != DoneMarker ==>
              var d := delta(segment[|DataPrefix|..]);
              r == if d.Some? && d.value != "" then [d.value] else []
  {
    if StartsWith(segment, DataPrefix) then
      var data := segment[|DataPrefix|..];
      if Trim(data) == DoneMarker then []
      else match delta(data)
        case None => []
        case Some(t) => if t == "" then [] else [t]
    else []
  }

  /** The events of a run of segments, in order. */
  function Events(segments: seq<string>, delta: string -> Option<string>): (r: seq<string>)
    ensures forall k | 0 <= k < |r| :: r[k] != ""
    decreases |segments|
  {
    if |segments| == 0 then [] else EventOf(segments[0], delta) + Events(segments[1..], delta)
  }

  lemma {:induction false} EventsAppend(a: seq<string>, b: seq<string>, delta: string -> Option<string>)
    ensures Events(a + b, delta) == Events(a, delta) + Events(b, delta)
    decreases |a|
  {
    if |a| > 0 {
      assert (a + b)[1..] == a[1..] + b;
      EventsAppend(a[1..], b, delta);
    } else {
      assert a + b == b;
    }
  }

  /** The events of everything received, as if it had arrived at once. */
  function StreamEvents(received: string, delta: string -> Option<string>): seq<string> {
    Events(CompleteSegments(received), delta)
  }

  /** `handleStreamResponse` over the chunks of a stream that ends: the
      buffer gets each chunk, its complete events are handled and the rest
      is carried. Chunk boundaries do not matter — the events are those of
      the whole received text — the processed events followed by the
      buffer are always exactly what was received, the unterminated tail is
      never reported, and the full text is the in-order concatenation of
      the non-empty deltas, each also passed to `onStream`. */
  method HandleStream(chunks: seq<string>, delta: string -> Option<string>)
    returns (fullText: string, emitted: seq<string>, buffer: string)
    ensures emitted == StreamEvents(Concat(chunks), delta)
    ensures forall k | 0 <= k < |emitted| :: emitted[k] != ""
    ensures fullText == Concat(emitted)
    ensures Terminated(CompleteSegments(Concat(chunks))) + buffer == Concat(chunks)
  {
    fullText, emitted, buffer := "", [], "";
    assert Split("", EventSeparator) == [""];
    var i := 0;
    while i < |chunks|
      invariant 0 <= i <= |chunks|
      invariant buffer == Carry(Concat(chunks[..i]))
      invariant emitted == StreamEvents(Concat(chunks[..i]), delta)
      invariant fullText == Concat(emitted)
    {
      ghost var before := emitted;
      var news;
      news, buffer := Feed(buffer, chunks[i], delta);
      emitted := emitted + news;
      fullText := fullText + Concat(news);
      ConcatAppend(before, news);
      ChunkReceived(chunks, i, delta);
      i := i + 1;
    }
    assert chunks[..|chunks|] == chunks;
    SegmentsAndCarry(Concat(chunks));
  }

  /** One pass of the loop body: the chunk is added to the buffer, its
      complete segments are handled and the rest is kept. */
  method Feed(buffer: string, chunk: string, delta: string -> Option<string>) returns (news: seq<string>, carry: string)
    ensures var lines := Split(buffer + chunk, EventSeparator);
            news == Events(lines[..|lines| - 1], delta) && carry == lines[|lines| - 1]
  {
    var lines := Split(buffer + chunk, EventSeparator);
    news := Events(lines[..|lines| - 1], delta);
    carry := lines[|lines| - 1];
  }

  /** The loop invariant of `HandleStream` carried over one chunk. */
  lemma ChunkReceived(chunks: seq<string>, i: nat, delta: string -> Option<string>)
    requires i < |chunks|
    ensures var lines := Split(Carry(Concat(chunks[..i])) + chunks[i], EventSeparator);
            && Carry(Concat(chunks[..i + 1])) == lines[|lines| - 1]
            && StreamEvents(Concat(chunks[..i + 1]), delta) == StreamEvents(Concat(chunks[..i]), delta) + Events(lines[..|lines| - 1], delta)
  {
    ConcatSnoc(chunks, i);
    ReceiveChunk(Concat(chunks[..i]), chunks[i]);
    StreamStep(Concat(chunks[..i]), chunks[i], delta);
  }

  /** One more chunk: the complete segments grow by those completed in the
      carry plus the chunk, and the new carry is what is left of that. */
  lemma ReceiveChunk(received: string, chunk: string)
    ensures var lines := Split(Carry(received) + chunk, EventSeparator);
            && CompleteSegments(received + chunk) == CompleteSegments(received) + lines[..|lines| - 1]
            && Carry(received + chunk) == lines[|lines| - 1]
  {
    var p, lines, q := Split(received, EventSeparator), Split(Carry(received) + chunk, EventSeparator), Split(received + chunk, EventSeparator);
    ChunkPieces(received, chunk);
    PiecesAppend(p, lines, q);
  }

  /** The pieces of the longer text: all but the last piece of `received`,
      then the pieces of its carry extended by the chunk. */
  lemma ChunkPieces(received: string, chunk: string)
    ensures Split(received + chunk, EventSeparator) ==
              CompleteSegments(received) + Split(Carry(received) + chunk, EventSeparator)
  {
    SplitAppend(received, chunk, EventSeparator);
  }
  /** One more chunk adds the events of the segments it completes. */
  lemma StreamStep(received: string, chunk: string, delta: string -> Option<string>)
    ensures var lines := Split(Carry(received) + chunk, EventSeparator);
            StreamEvents(received + chunk, delta) == StreamEvents(received, delta) + Events(lines[..|lines| - 1], delta)
  {
    var lines := Split(Carry(received) + chunk, EventSeparator);
    ReceiveChunk(received, chunk);
    EventsAppend(CompleteSegments(received), lines[..|lines| - 1], delta);
  }

  /** Dropping the last piece of a run that ends with `lines` drops the last
      of `lines`. */
  lemma PiecesAppend(p: seq<string>, lines: seq<string>, q: seq<string>)
    requires |p| > 0 && |lines| > 0
    requires q == p[..|p| - 1] + lines
    ensures q[..|q| - 1] == p[..|p| - 1] + lines[..|lines| - 1]
    ensures q[|q| - 1] == lines[|lines| - 1]
  {
    DropLastOfAppend(p[..|p| - 1], lines);
  }

  /** The last element of a concatenation comes from its non-empty right part. */
  lemma DropLastOfAppend<T>(a: seq<T>, b: seq<T>)
    requires |b| > 0
    ensures (a + b)[..|a + b| - 1] == a + b[..|b| - 1]
    ensures (a + b)[|a + b| - 1] == b[|b| - 1]
  {
  }
}
