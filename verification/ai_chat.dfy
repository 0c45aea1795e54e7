/** The chat widget (components/AIChat.tsx): turning the conversation into a
    chat-completions request, framing the streamed response into lines,
    extracting the text deltas, and the send handler that ties them together.
    The network is a `Reply` parameter, JSON parsing an oracle, and the
    response bytes arrive already decoded as strings. */
module AIChat {
  import opened Wrappers
  import opened Types
  import Text
  import Seqs

  // ---------------------------------------------------------------------
  // The request
  // ---------------------------------------------------------------------

  datatype GroqRole = GroqSystem | GroqUser | GroqAssistant

  datatype GroqMessage = GroqMessage(role: GroqRole, content: string)

  /** One turn as the API sees it: the visitor is `user`, every other role is
      `assistant`, and the text goes out untrimmed. */
  function ToGroq(m: ChatMessage): (g: GroqMessage)
    ensures g.content == m.text
    ensures g.role == GroqUser <==> m.role == User
    ensures g.role != GroqSystem
  {
    GroqMessage(if m.role == User then GroqUser else GroqAssistant, m.text)
  }

  /** `Boolean(m.text?.trim())`: the turn has a non-whitespace character. */
  predicate HasText(m: ChatMessage) {
    !Text.IsBlank(m.text)
  }

  function HasTextFn(): ChatMessage -> bool {
    (m: ChatMessage) => HasText(m)
  }

  /** The request's message list: the system instruction, then the non-blank
      turns of the history, in order, with roles mapped. */
  function BuildGroqMessages(history: seq<ChatMessage>, instruction: string): (r: seq<GroqMessage>)
    ensures |r| == 1 + Seqs.CountWhere(history, HasTextFn())
    ensures r[0] == GroqMessage(GroqSystem, instruction)
    ensures forall i :: 1 <= i < |r| ==> r[i].role != GroqSystem && !Text.IsBlank(r[i].content)
  {
    Seqs.FilterLength(history, HasTextFn());
    [GroqMessage(GroqSystem, instruction)] + Seqs.Map(ToGroq, Seqs.Filter(history, HasTextFn()))
  }

  /** A turn-by-turn reference for the history part of the request. */
  function Converted(history: seq<ChatMessage>): seq<GroqMessage>
  {
    if history == [] then []
    else (if HasText(history[0]) then [ToGroq(history[0])] else []) + Converted(history[1..])
  }

  /** After the system instruction, the request is exactly the turn-by-turn
      conversion: every non-blank turn, in history order, and nothing else. */
  lemma {:induction false} BuildIsConversion(history: seq<ChatMessage>, instruction: string)
    ensures BuildGroqMessages(history, instruction)[1..] == Converted(history)
  {
    MapFilterIsConverted(history);
  }

  lemma {:induction false} MapFilterIsConverted(history: seq<ChatMessage>)
    ensures Seqs.Map(ToGroq, Seqs.Filter(history, HasTextFn())) == Converted(history)
  {
    if history != [] {
      MapFilterIsConverted(history[1..]);
      var rest := Seqs.Filter(history[1..], HasTextFn());
      var tail := Converted(history[1..]);
      if HasText(history[0]) {
        assert Seqs.Filter(history, HasTextFn()) == [history[0]] + rest;
        Seqs.MapCons(ToGroq, history[0], rest);
        assert Converted(history) == [ToGroq(history[0])] + tail;
      } else {
        assert Seqs.Filter(history, HasTextFn()) == rest;
        assert Converted(history) == [] + tail == tail;
      }
    }
  }

  /** A blank turn (such as an unfilled reply placeholder) never reaches the
      request, wherever it sits in the history. */
  lemma BlankTurnIsDropped(a: seq<ChatMessage>, m: ChatMessage, b: seq<ChatMessage>, instruction: string)
    requires !HasText(m)
    ensures BuildGroqMessages(a + [m] + b, instruction) == BuildGroqMessages(a + b, instruction)
  {
    Seqs.FilterAppend(a + [m], b, HasTextFn());
    Seqs.FilterAppend(a, [m], HasTextFn());
    Seqs.FilterAppend(a, b, HasTextFn());
    assert Seqs.Filter([m], HasTextFn()) == [];
    assert Seqs.Filter(a, HasTextFn()) + [] == Seqs.Filter(a, HasTextFn());
  }

  // ---------------------------------------------------------------------
  // Line framing of the response stream
  // ---------------------------------------------------------------------

  /** One read: append the chunk to the buffer, split on '\n', hand out every
      complete line and keep the unterminated tail as the new buffer. */
  function Feed(buffer: string, chunk: string): (r: (seq<string>, string))
    ensures Text.Join(r.0 + [r.1], "\n") == buffer + chunk
    ensures '\n' !in r.1
    ensures forall i :: 0 <= i < |r.0| ==> '\n' !in r.0[i]
  {
    var parts := Text.Split(buffer + chunk, '\n');
    Text.JoinSplit(buffer + chunk, '\n');
    Text.SplitPiecesLackSeparator(buffer + chunk, '\n');
    assert parts == parts[..|parts| - 1] + [parts[|parts| - 1]];
    (parts[..|parts| - 1], parts[|parts| - 1])
  }

  /** The lines handed out by a sequence of reads, and the buffer left when
      the stream ends. */
  function ReadFrom(buffer: string, chunks: seq<string>): (seq<string>, string)
    decreases |chunks|
  {
    if chunks == [] then ([], buffer)
    else
      var fed := Feed(buffer, chunks[0]);
      var rest := ReadFrom(fed.1, chunks[1..]);
      (fed.0 + rest.0, rest.1)
  }

  /** The whole stream read from an empty buffer. */
  function ReadAll(chunks: seq<string>): (seq<string>, string) {
    ReadFrom("", chunks)
  }

  /** Feeding a chunk is splitting the buffered text. */
  lemma FeedIsSplit(buffer: string, chunk: string)
    ensures var r := Feed(buffer, chunk); r.0 + [r.1] == Text.Split(buffer + chunk, '\n')
  {
    var r := Feed(buffer, chunk);
    var parts := Text.Split(buffer + chunk, '\n');
    assert r.0 + [r.1] == parts[..|parts| - 1] + [parts[|parts| - 1]];
  }

  /** The lines handed out followed by the final buffer are the '\n'-split of
      everything received. */
  lemma {:induction false} ReadFromIsSplit(buffer: string, chunks: seq<string>)
    requires '\n' !in buffer
    ensures var r := ReadFrom(buffer, chunks);
      r.0 + [r.1] == Text.Split(buffer + Seqs.Concat(chunks), '\n')
    decreases |chunks|
  {
    if chunks == [] {
      Text.SplitWithoutSeparator(buffer, '\n');
      assert buffer + [] == buffer;
    } else {
      var fed := Feed(buffer, chunks[0]);
      var rest := ReadFrom(fed.1, chunks[1..]);
      var tail := Seqs.Concat(chunks[1..]);
      ReadFromIsSplit(fed.1, chunks[1..]);
      FeedIsSplit(buffer, chunks[0]);
      ReadStep(buffer + chunks[0], tail, fed, rest);
      Seqs.ConcatAfter(buffer, chunks);
    }
  }

  /** One read followed by the rest of the stream: splitting the text read so
      far and then the buffer with the rest is splitting the whole text. */
  lemma ReadStep(head: string, tail: string, fed: (seq<string>, string), rest: (seq<string>, string))
    requires fed.0 + [fed.1] == Text.Split(head, '\n')
    requires rest.0 + [rest.1] == Text.Split(fed.1 + tail, '\n')
    ensures (fed.0 + rest.0) + [rest.1] == Text.Split(head + tail, '\n')
  {
    var px := Text.Split(head, '\n');
    Text.SplitAppend(head, tail, '\n');
    assert px[|px| - 1] == fed.1;
    Stitch(fed.0, fed.1, px, rest.0, rest.1, Text.Split(fed.1 + tail, '\n'), Text.Split(head + tail, '\n'));
  }

  /** The list bookkeeping of one read: the complete lines so far, then the
      lines and buffer of the rest of the stream. */
  lemma Stitch<T>(lines: seq<T>, buf: T, px: seq<T>, more: seq<T>, fin: T, split: seq<T>, whole: seq<T>)
    requires lines + [buf] == px
    requires more + [fin] == split
    requires whole == px[..|px| - 1] + split
    ensures (lines + more) + [fin] == whole
  {
    assert px[..|px| - 1] == lines;
  }

  /** The lines processed are the '\n'-split of the concatenated stream minus
      its last segment, and that last segment is what is left in the buffer:
      a final line without a newline is never processed. */
  lemma ReadAllLines(chunks: seq<string>)
    ensures var parts := Text.Split(Seqs.Concat(chunks), '\n');
      ReadAll(chunks).0 == parts[..|parts| - 1] && ReadAll(chunks).1 == parts[|parts| - 1]
  {
    ReadFromIsSplit("", chunks);
    assert "" + Seqs.Concat(chunks) == Seqs.Concat(chunks);
    var r := ReadAll(chunks);
    assert (r.0 + [r.1])[..|r.0|] == r.0;
  }

  /** Where the network cut the stream into chunks does not matter. */
  lemma ChunkingIsIrrelevant(a: seq<string>, b: seq<string>)
    requires Seqs.Concat(a) == Seqs.Concat(b)
    ensures ReadAll(a) == ReadAll(b)
  {
    ReadAllLines(a);
    ReadAllLines(b);
  }

  // ---------------------------------------------------------------------
  // Delta extraction
  // ---------------------------------------------------------------------

  /** What an optional-chaining read of a JSON field yields: nothing along the
      path (`undefined`), `null`, a string, or some other value. */
  datatype JsField = Missing | Null | Str(s: string) | Other

  /** The two fields a chunk is consulted for: `choices[0].delta.content` and
      `choices[0].message.content`. */
  datatype Chunk = Chunk(delta: JsField, message: JsField)

  /** `a ?? b`: only `undefined` and `null` fall through. */
  function Coalesce(a: JsField, b: JsField): (r: JsField)
    ensures a.Str? || a.Other? ==> r == a
    ensures a.Missing? || a.Null? ==> r == b
  {
    if a.Missing? || a.Null? then b else a
  }

  /** The text a parsed chunk contributes: the delta content, else the message
      content, kept only when it is a non-empty string. */
  function PickDelta(c: Chunk): (r: Option<string>)
    ensures r.Some? ==> r.value != ""
    ensures c.delta.Str? ==> r == (if c.delta.s == "" then None else Some(c.delta.s))
    ensures c.delta.Other? ==> r == None
    ensures (c.delta.Missing? || c.delta.Null?) && c.message.Str? && c.message.s != "" ==>
      r == Some(c.message.s)
    ensures (c.delta.Missing? || c.delta.Null?) && !(c.message.Str? && c.message.s != "") ==> r == None
  {
    match Coalesce(Coalesce(c.delta, c.message), Str(""))
    case Str(s) => if s == "" then None else Some(s)
    case _ => None
  }

  const DataPrefix := "data:"
  const DoneMarker := "[DONE]"

  /** The payload of a trimmed `data:` line, itself trimmed. */
  function Payload(line: string): string
    requires Text.StartsWith(line, DataPrefix)
  {
    Text.Trim(line[|DataPrefix|..])
  }

  /** What one received line contributes, given the JSON parser as an oracle
      (`None` where `JSON.parse` throws). */
  function LineDelta(raw: string, parse: string -> Option<Chunk>): (r: Option<string>)
    ensures r.Some? ==> r.value != ""
    ensures !Text.StartsWith(Text.Trim(raw), DataPrefix) ==> r == None
    ensures Text.StartsWith(Text.Trim(raw), DataPrefix) ==>
      var data := Payload(Text.Trim(raw));
      (data == "" || data == DoneMarker || parse(data) == None ==> r == None)
      && (data != "" && data != DoneMarker && parse(data).Some? ==> r == PickDelta(parse(data).value))
  {
    var line := Text.Trim(raw);
    if !Text.StartsWith(line, DataPrefix) then None
    else
      var data := Payload(line);
      if data == "" || data == DoneMarker then None
      else
        match parse(data)
        case None => None
        case Some(c) => PickDelta(c)
  }

  /** The values a line-by-line extractor yields over a run of lines, in
      order; lines it yields nothing for are skipped. */
  function Collect(lines: seq<string>, pick: string -> Option<string>): (ds: seq<string>)
    ensures |ds| <= |lines|
  {
    if lines == [] then []
    else (if pick(lines[0]).Some? then [pick(lines[0]).value] else []) + Collect(lines[1..], pick)
  }

  lemma {:induction false} CollectAppend(a: seq<string>, b: seq<string>, pick: string -> Option<string>)
    ensures Collect(a + b, pick) == Collect(a, pick) + Collect(b, pick)
  {
    if a == [] {
      assert a + b == b;
    } else {
      var h := if pick(a[0]).Some? then [pick(a[0]).value] else [];
      var da, db := Collect(a[1..], pick), Collect(b, pick);
      CollectAppend(a[1..], b, pick);
      assert (a + b)[0] == a[0];
      assert (a + b)[1..] == a[1..] + b;
      assert Collect(a + b, pick) == h + (da + db);
      assert Collect(a, pick) == h + da;
      assert h + (da + db) == (h + da) + db;
    }
  }

  function Extractor(parse: string -> Option<Chunk>): string -> Option<string> {
    (line: string) => LineDelta(line, parse)
  }

  /** The deltas of a run of lines, in order. */
  function Deltas(lines: seq<string>, parse: string -> Option<Chunk>): seq<string> {
    Collect(lines, Extractor(parse))
  }

  /** A line that yields nothing (malformed JSON, `[DONE]`, a comment, an
      empty payload) leaves the deltas of the lines around it untouched, and
      reading goes on after it. */
  lemma SkippedLineIsHarmless(a: seq<string>, line: string, b: seq<string>, parse: string -> Option<Chunk>)
    requires LineDelta(line, parse) == None
    ensures Deltas(a + [line] + b, parse) == Deltas(a, parse) + Deltas(b, parse)
  {
    var pick := Extractor(parse);
    CollectAppend(a + [line], b, pick);
    CollectAppend(a, [line], pick);
    assert Collect([line], pick) == [];
    assert Collect(a, pick) + [] == Collect(a, pick);
  }

  /** `[DONE]` does not end the stream: data after it is still read. */
  lemma DoneDoesNotStop(a: seq<string>, b: seq<string>, parse: string -> Option<Chunk>)
    ensures Deltas(a + ["data: [DONE]"] + b, parse) == Deltas(a, parse) + Deltas(b, parse)
  {
    DoneLineYieldsNothing(parse);
    SkippedLineIsHarmless(a, "data: [DONE]", b, parse);
  }

  lemma DoneLineYieldsNothing(parse: string -> Option<Chunk>)
    ensures LineDelta("data: [DONE]", parse) == None
  {
    var line := "data: [DONE]";
    DoneLineIsTrimmed();
    DonePayload();
  }

  lemma DoneLineIsTrimmed()
    ensures Text.Trim("data: [DONE]") == "data: [DONE]"
  {
    var line := "data: [DONE]";
    assert line[0] == 'd' && line[|line| - 1] == ']';
    Text.TrimTrimmed(line);
  }

  lemma DonePayload()
    ensures Text.StartsWith("data: [DONE]", DataPrefix)
    ensures Payload("data: [DONE]") == DoneMarker
  {
    var line := "data: [DONE]";
    assert line[..|DataPrefix|] == DataPrefix;
    assert line[|DataPrefix|..] == [' '] + DoneMarker;
    Text.TrimAfterSpace(DoneMarker);
  }

  // ---------------------------------------------------------------------
  // Folding deltas into the reply
  // ---------------------------------------------------------------------

  /** One `onDelta` call: the running text grows by the delta and becomes the
      text of the last message. */
  function OnDelta(messages: seq<ChatMessage>, fullText: string, delta: string): (r: (seq<ChatMessage>, string))
    requires messages != []
  {
    var f := fullText + delta;
    (messages[..|messages| - 1] + [messages[|messages| - 1].(text := f)], f)
  }

  /** Every delta in turn. The earlier messages, and the last message's role
      and error flag, are untouched; once a delta has arrived the last
      message's text is the running text, which is the deltas in order. */
  function FoldDeltas(messages: seq<ChatMessage>, fullText: string, ds: seq<string>): (r: (seq<ChatMessage>, string))
    requires messages != []
    ensures |r.0| == |messages|
    ensures r.0[..|messages| - 1] == messages[..|messages| - 1]
    ensures r.0[|messages| - 1] == messages[|messages| - 1].(text := r.0[|messages| - 1].text)
    ensures r.1 == fullText + Seqs.Concat(ds)
    ensures ds != [] ==> r.0[|messages| - 1].text == r.1
    ensures ds == [] ==> r.0 == messages
    decreases |ds|
  {
    if ds == [] then (messages, fullText)
    else
      var step := OnDelta(messages, fullText, ds[0]);
      var r := FoldDeltas(step.0, step.1, ds[1..]);
      assert r.1 == fullText + ds[0] + Seqs.Concat(ds[1..]);
      r
  }

  // ---------------------------------------------------------------------
  // Sending
  // ---------------------------------------------------------------------

  datatype ChatState = ChatState(input: string, messages: seq<ChatMessage>, isTyping: bool)

  const OfflineError := "Error: API Protocol Offline (Missing Key)."
  const ConnectionError := "Connection Error: Unable to reach neural net."

  /** The error turn appended on a failure. */
  function ErrorTurn(text: string): ChatMessage {
    ChatMessage(Model, text, true)
  }

  /** The empty assistant turn the deltas are written into. */
  const Placeholder := ChatMessage(Model, "", false)

  /** How the request ended, as seen by the handler. */
  datatype Reply =
    | FetchFailed
    | HttpError(status: int)
    /** A streamed body: the decoded chunks read, then either the end of the
        stream or (`readFails`) an exception from the reader. */
    | Streamed(chunks: seq<string>, readFails: bool)
    /** No body: `choices[0].message.content` of the JSON (`Missing` when it
        does not parse). */
    | NoBody(content: JsField)

  /** The send guard: a send starts only with input whose trim is non-empty
      (that is, non-blank input) and no send in flight. */
  predicate CanSend(st: ChatState) {
    !Text.IsBlank(st.input) && !st.isTyping
  }

  /** The synchronous part of a send: clear the input, append the trimmed user
      turn, mark a send in flight. */
  function BeginSend(st: ChatState): (r: ChatState)
    requires CanSend(st)
    ensures r.isTyping && r.input == ""
    ensures |r.messages| == |st.messages| + 1 && r.messages[..|st.messages|] == st.messages
    ensures r.messages[|st.messages|].role == User
    ensures Text.IsTrimmed(r.messages[|st.messages|].text) && !Text.IsBlank(r.messages[|st.messages|].text)
    ensures r.messages[|st.messages|] == ChatMessage(User, Text.Trim(st.input), false)
  {
    var m := st.messages + [ChatMessage(User, Text.Trim(st.input), false)];
    assert m[..|st.messages|] == st.messages;
    ChatState("", m, true)
  }

  /** The text a reply streams into the placeholder. */
  function StreamText(chunks: seq<string>, parse: string -> Option<Chunk>): string {
    Seqs.Concat(Deltas(ReadAll(chunks).0, parse))
  }

  /** The history once the reply has been handled. */
  function ReplyHistory(next: seq<ChatMessage>, reply: Reply, parse: string -> Option<Chunk>): seq<ChatMessage>
  {
    var waiting := next + [Placeholder];
    match reply
    case FetchFailed => waiting + [ErrorTurn(ConnectionError)]
    case HttpError(_) => waiting + [ErrorTurn(ConnectionError)]
    case NoBody(content) =>
      if content.Str? && content.s != "" then FoldDeltas(waiting, "", [content.s]).0 else waiting
    case Streamed(chunks, readFails) =>
      var streamed := FoldDeltas(waiting, "", Deltas(ReadAll(chunks).0, parse)).0;
      if readFails then streamed + [ErrorTurn(ConnectionError)] else streamed
  }

  datatype SendResult = SendResult(state: ChatState, request: Option<seq<GroqMessage>>)

  /** `handleSend`: the guard, the synchronous part, then the request.
      `typed` is what the input box holds once the request has settled: only
      the send button is disabled while a send is in flight, so the visitor
      may type meanwhile, and nothing clears the box afterwards. */
  function HandleSend(st: ChatState, apiKey: Option<string>, reply: Reply, typed: string,
                      parse: string -> Option<Chunk>, instruction: string): (r: SendResult)
    ensures !CanSend(st) ==> r == SendResult(st, None)
    ensures CanSend(st) ==>
      var next := BeginSend(st).messages;
      && !r.state.isTyping
      && r.state.input == (if r.request.Some? then typed else "")
      && |r.state.messages| > |next|
      && r.state.messages[..|next|] == next
      && (r.request.Some? <==> apiKey.Some? && apiKey.value != "")
      && (r.request.Some? ==> r.request.value == BuildGroqMessages(next, instruction))
  {
    if !CanSend(st) then SendResult(st, None)
    else FinishSend(BeginSend(st).messages, apiKey, reply, typed, parse, instruction)
  }

  /** The asynchronous part of a send, from the history `next` that ends in
      the new user turn. A missing or empty API key ends the send with an
      error turn before any request, before anything could be typed;
      otherwise the request is built from `next`, which does not include the
      placeholder, and the input box ends holding `typed`. */
  function FinishSend(next: seq<ChatMessage>, apiKey: Option<string>, reply: Reply, typed: string,
                      parse: string -> Option<Chunk>, instruction: string): (r: SendResult)
    ensures !r.state.isTyping
    ensures r.state.input == (if r.request.Some? then typed else "")
    ensures |r.state.messages| > |next| && r.state.messages[..|next|] == next
    ensures r.request.Some? <==> apiKey.Some? && apiKey.value != ""
    ensures r.request.Some? ==> r.request.value == BuildGroqMessages(next, instruction)
    ensures r.request.None? ==> r.state.messages == next + [ErrorTurn(OfflineError)]
  {
    if apiKey.None? || apiKey.value == "" then
      var m := next + [ErrorTurn(OfflineError)];
      assert m[..|next|] == next;
      SendResult(ChatState("", m, false), None)
    else
      var h := ReplyHistory(next, reply, parse);
      PrefixKept(next, reply, parse);
      SendResult(ChatState(typed, h, false), Some(BuildGroqMessages(next, instruction)))
  }

  lemma PrefixKept(next: seq<ChatMessage>, reply: Reply, parse: string -> Option<Chunk>)
    ensures var h := ReplyHistory(next, reply, parse);
      |h| > |next| && h[..|next|] == next
  {
    var waiting := next + [Placeholder];
    assert waiting[..|next|] == next;
    var h := ReplyHistory(next, reply, parse);
    assert h[..|waiting|][..|next|] == next;
  }

  /** Without an API key exactly one error turn follows the user turn and no
      request is made. */
  lemma MissingKeyAddsOneError(st: ChatState, apiKey: Option<string>, reply: Reply, typed: string,
                               parse: string -> Option<Chunk>, instruction: string)
    requires CanSend(st)
    requires apiKey.None? || apiKey.value == ""
    ensures var r := HandleSend(st, apiKey, reply, typed, parse, instruction);
      r.request == None
      && r.state.messages == st.messages + [ChatMessage(User, Text.Trim(st.input), false), ErrorTurn(OfflineError)]
  {
    var user := ChatMessage(User, Text.Trim(st.input), false);
    var next := BeginSend(st).messages;
    assert next == st.messages + [user];
    var r := FinishSend(next, apiKey, reply, typed, parse, instruction);
    assert HandleSend(st, apiKey, reply, typed, parse, instruction) == r;
    Seqs.AppendTwo(st.messages, user, ErrorTurn(OfflineError));
  }

  /** A failed request leaves the empty placeholder in place and appends the
      connection error after it. */
  lemma FailedRequestAppendsError(st: ChatState, key: string, reply: Reply, typed: string,
                                  parse: string -> Option<Chunk>, instruction: string)
    requires CanSend(st) && key != ""
    requires reply.FetchFailed? || reply.HttpError?
    ensures var r := HandleSend(st, Some(key), reply, typed, parse, instruction);
      var n := |st.messages| + 1;
      |r.state.messages| == n + 2
      && r.state.messages[n] == Placeholder
      && r.state.messages[n + 1] == ErrorTurn(ConnectionError)
  {
    var next := BeginSend(st).messages;
    var r := FinishSend(next, Some(key), reply, typed, parse, instruction);
    assert HandleSend(st, Some(key), reply, typed, parse, instruction) == r;
    assert r.state.messages == next + [Placeholder] + [ErrorTurn(ConnectionError)];
  }

  /** A completed stream leaves one assistant turn after the user turn, whose
      text is the in-order concatenation of the deltas of every complete line
      of the stream; the unterminated last segment contributes nothing. */
  lemma StreamedReplyText(st: ChatState, key: string, chunks: seq<string>, typed: string,
                          parse: string -> Option<Chunk>, instruction: string)
    requires CanSend(st) && key != ""
    ensures var r := HandleSend(st, Some(key), Streamed(chunks, false), typed, parse, instruction);
      var parts := Text.Split(Seqs.Concat(chunks), '\n');
      var n := |st.messages| + 1;
      |r.state.messages| == n + 1
      && r.state.messages[n] == ChatMessage(Model, Seqs.Concat(Deltas(parts[..|parts| - 1], parse)), false)
  {
    ReadAllLines(chunks);
    StreamFillsPlaceholder(BeginSend(st).messages, chunks, parse);
  }

  /** The streamed deltas end up, concatenated, in the placeholder turn. */
  lemma StreamFillsPlaceholder(next: seq<ChatMessage>, chunks: seq<string>, parse: string -> Option<Chunk>)
    ensures ReplyHistory(next, Streamed(chunks, false), parse) ==
      next + [ChatMessage(Model, StreamText(chunks, parse), false)]
  {
    var ds := Deltas(ReadAll(chunks).0, parse);
    assert ReplyHistory(next, Streamed(chunks, false), parse) == FoldDeltas(next + [Placeholder], "", ds).0;
    FoldIntoPlaceholder(next, ds);
  }

  /** A reader that throws part-way leaves the text streamed so far in the
      assistant turn and appends the connection error after it. */
  lemma ReadFailureKeepsPartialText(next: seq<ChatMessage>, chunks: seq<string>, parse: string -> Option<Chunk>)
    ensures ReplyHistory(next, Streamed(chunks, true), parse) ==
      next + [ChatMessage(Model, StreamText(chunks, parse), false), ErrorTurn(ConnectionError)]
  {
    var ds := Deltas(ReadAll(chunks).0, parse);
    var streamed := FoldDeltas(next + [Placeholder], "", ds).0;
    assert ReplyHistory(next, Streamed(chunks, true), parse) == streamed + [ErrorTurn(ConnectionError)];
    FoldIntoPlaceholder(next, ds);
    Seqs.AppendTwo(next, ChatMessage(Model, StreamText(chunks, parse), false), ErrorTurn(ConnectionError));
  }

  /** A response without a body fills the assistant turn with the JSON's
      message content when that is a non-empty string, and otherwise leaves
      the turn empty. */
  lemma NoBodyFillsPlaceholder(next: seq<ChatMessage>, content: JsField, parse: string -> Option<Chunk>)
    ensures ReplyHistory(next, NoBody(content), parse) ==
      next + [ChatMessage(Model, if content.Str? && content.s != "" then content.s else "", false)]
  {
    if content.Str? && content.s != "" {
      FoldIntoPlaceholder(next, [content.s]);
      assert Seqs.Concat([content.s]) == content.s;
    }
  }

  /** Folding deltas into an empty placeholder turn leaves one assistant turn
      holding their concatenation, after the unchanged history. */
  lemma FoldIntoPlaceholder(next: seq<ChatMessage>, ds: seq<string>)
    ensures FoldDeltas(next + [Placeholder], "", ds).0 == next + [ChatMessage(Model, Seqs.Concat(ds), false)]
  {
    var waiting := next + [Placeholder];
    var f := FoldDeltas(waiting, "", ds);
    var last := f.0[|next|];
    assert waiting[..|next|] == next;
    assert "" + Seqs.Concat(ds) == Seqs.Concat(ds);
    if ds == [] {
      assert last == Placeholder;
    }
    Seqs.Rebuild(f.0, next, ChatMessage(Model, Seqs.Concat(ds), false));
  }

  /** While a send is in flight a second send changes nothing. */
  lemma NoSendWhileTyping(st: ChatState, apiKey: Option<string>, reply: Reply, typed: string,
                          parse: string -> Option<Chunk>, instruction: string)
    requires CanSend(st)
    ensures var busy := BeginSend(st).(input := st.input);
      HandleSend(busy, apiKey, reply, typed, parse, instruction) == SendResult(busy, None)
  {
  }
}
