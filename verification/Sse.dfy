/** The two readers of server-sent events: the streaming reader and the batch parser. */
module Sse {
  import opened Wrappers
  import opened Utf8
  import opened Json

  datatype SseError =
    | TimedOut | LimitExceeded | NoMatch | InvalidEncoding | InvalidJson | NotAnObject
    | ServerRequest | ResultAndError | WrongVersion | NoMessages

  const COLON: Code := 0x3A
  const SPACE: Code := 0x20
  const DATA: Text := [0x64, 0x61, 0x74, 0x61]
  const VERSION: Text := [0x32, 0x2E, 0x30]

  const ID: Key := 24
  const METHOD: Key := 25
  const RESULT: Key := 26
  const ERROR: Key := 27
  const JSONRPC: Key := 28

  /** Whom a reader listens to: the id of its request, and `json.loads`. */
  datatype Peer = Peer(requestId: Text, loads: Text -> Option<Json>)

  // ---------- messages ----------

  /** `_decode_json_object`. */
  function DecodeObject(peer: Peer, text: Text): Result<Json, SseError> {
    match peer.loads(text)
    case None => Err(InvalidJson)
    case Some(v) => if v.Obj? then Ok(v) else Err(NotAnObject)
  }

  /** `_validate_upstream_message`. */
  function Invalid(message: Json): Option<SseError>
    requires message.Obj?
  {
    if METHOD in message.m && ID in message.m then Some(ServerRequest)
    else if RESULT in message.m && ERROR in message.m then Some(ResultAndError)
    else None
  }

  predicate Matches(peer: Peer, message: Json)
    requires message.Obj?
  {
    && ID in message.m && message.m[ID] == Str(peer.requestId)
    && ((RESULT in message.m) != (ERROR in message.m))
  }

  datatype Judgement = Pass | Answer(message: Json) | Reject(error: SseError)

  /** What the streaming reader makes of one complete event. */
  function Judge(peer: Peer, text: Text): Judgement {
    match DecodeObject(peer, text)
    case Err(e) => Reject(e)
    case Ok(message) =>
      match Invalid(message)
      case Some(e) => Reject(e)
      case None =>
        if !Matches(peer, message) then Pass
        else if JSONRPC in message.m && message.m[JSONRPC] == Str(VERSION) then Answer(message)
        else Reject(WrongVersion)
  }

  /** What the streaming reader is given besides the bytes: its judgement of a complete event, the byte
      limit, and whether the deadline has passed at the start of each turn of the loop. */
  datatype Env = Env(judge: Text -> Judgement, limit: nat, late: nat -> bool)

  function EnvOf(peer: Peer, limit: nat, late: nat -> bool): Env { Env(text => Judge(peer, text), limit, late) }

  /** The first event that answers the request, unless an earlier one is refused. */
  function FirstAnswer(env: Env, events: seq<Text>): Result<Json, SseError>
    decreases |events|, 1
  {
    if events == [] then Err(NoMatch) else AnswerFrom(env, env.judge(events[0]), events[1..])
  }

  /** The answer, given the judgement of the first event. */
  function AnswerFrom(env: Env, first: Judgement, rest: seq<Text>): Result<Json, SseError>
    decreases |rest|, 2
  {
    match first
    case Reject(e) => Err(e)
    case Answer(message) => Ok(message)
    case Pass => FirstAnswer(env, rest)
  }

  /** `FirstAnswer` finds the first match: all events before it pass. */
  lemma {:induction false} FirstAnswerIsFirst(env: Env, events: seq<Text>) returns (i: nat)
    requires FirstAnswer(env, events).Ok?
    ensures i < |events| && env.judge(events[i]) == Answer(FirstAnswer(env, events).value)
    ensures forall j | 0 <= j < i :: env.judge(events[j]) == Pass
  {
    if env.judge(events[0]) == Pass {
      var k := FirstAnswerIsFirst(env, events[1..]);
      i := k + 1;
      forall j | 0 <= j < i ensures env.judge(events[j]) == Pass {
        if j > 0 { assert events[j] == events[1..][j - 1]; }
      }
    } else {
      i := 0;
    }
  }

  // ---------- lines and events ----------

  /** `str.partition(":")`: the place of the first colon, or the length of the line. */
  function FirstColon(line: Text): nat {
    if line == [] || line[0] == COLON then 0 else 1 + FirstColon(line[1..])
  }

  /** What a non-empty line adds to the data of the pending event. */
  function DataOf(line: Text): seq<Text> {
    var colon := FirstColon(line);
    if colon < |line| && colon > 0 && line[..colon] == DATA then
      var value := line[colon + 1..];
      [if value != [] && value[0] == SPACE then value[1..] else value]
    else []
  }

  function Join(data: seq<Text>): Text {
    if data == [] then [] else if |data| == 1 then data[0] else data[0] + [LF] + Join(data[1..])
  }

  function Flush(data: seq<Text>): seq<Text> { if data == [] then [] else [Join(data)] }

  /** The events of `lines` when `data` is pending: an empty line or the end completes an event. */
  function Scan(lines: seq<Text>, data: seq<Text>): seq<Text>
    decreases |lines|, 1
  {
    if lines == [] then Flush(data) else ScanLine(lines[0], lines[1..], data)
  }

  function ScanLine(line: Text, rest: seq<Text>, data: seq<Text>): seq<Text>
    decreases |rest|, 2
  {
    if line == [] then Flush(data) + Scan(rest, []) else Scan(rest, data + DataOf(line))
  }

  /** `replace("\r\n", "\n")`. */
  function ReplaceCrLf(t: Text): Text {
    if t == [] then []
    else if |t| >= 2 && t[0] == CR && t[1] == LF then [LF] + ReplaceCrLf(t[2..])
    else [t[0]] + ReplaceCrLf(t[1..])
  }

  /** `replace("\r", "\n")`. */
  function ReplaceCr(t: Text): Text {
    if t == [] then [] else [if t[0] == CR then LF else t[0]] + ReplaceCr(t[1..])
  }

  /** `split("\n")`. */
  function Split(t: Text): (r: seq<Text>)
    ensures r != []
    decreases |t|, 1
  {
    if t == [] then [[]] else SplitNext(t[0], t[1..])
  }

  function SplitNext(c: Code, t: Text): (r: seq<Text>)
    ensures r != []
    decreases |t|, 2
  {
    var rest := Split(t);
    if c == LF then [[]] + rest else [[c] + rest[0]] + rest[1..]
  }

  function Lines(t: Text): seq<Text> { Split(ReplaceCr(ReplaceCrLf(t))) }

  /** The event blocks of the batch parse. */
  function Events(t: Text): seq<Text> { Scan(Lines(t), []) }

  // ---------- the batch parser ----------

  function Both(a: Result<seq<Json>, SseError>, b: Result<seq<Json>, SseError>): Result<seq<Json>, SseError> {
    if a.Err? then a else if b.Err? then b else Ok(a.value + b.value)
  }

  /** One decoded event block. */
  function One(peer: Peer, event: Text): Result<seq<Json>, SseError> {
    match DecodeObject(peer, event)
    case Err(e) => Err(e)
    case Ok(message) => Ok([message])
  }

  /** The messages of event blocks, in order, or the first error. */
  function DecodeAll(peer: Peer, events: seq<Text>): Result<seq<Json>, SseError> {
    if events == [] then Ok([]) else Both(One(peer, events[0]), DecodeAll(peer, events[1..]))
  }

  lemma BothAssociates(a: Result<seq<Json>, SseError>, b: Result<seq<Json>, SseError>, c: Result<seq<Json>, SseError>)
    ensures Both(Both(a, b), c) == Both(a, Both(b, c)) && Both(Ok([]), c) == c
  {
    if a.Ok? && b.Ok? && c.Ok? { assert a.value + b.value + c.value == a.value + (b.value + c.value); }
    if c.Ok? { assert [] + c.value == c.value; }
  }

  /** What the lines from `i` on give when `data` is pending. */
  function Remaining(peer: Peer, lines: seq<Text>, i: nat, data: seq<Text>): Result<seq<Json>, SseError>
    requires i <= |lines|
  {
    DecodeAll(peer, Scan(lines[i..], data))
  }

  lemma RemainingBlank(peer: Peer, lines: seq<Text>, i: nat, data: seq<Text>)
    requires i < |lines| && lines[i] == []
    ensures data == [] ==> Remaining(peer, lines, i, data) == Remaining(peer, lines, i + 1, [])
    ensures data != [] ==> Remaining(peer, lines, i, data) == Both(One(peer, Join(data)), Remaining(peer, lines, i + 1, []))
  {
    var rest := Scan(lines[i + 1..], []);
    assert lines[i..][1..] == lines[i + 1..];
    assert Scan(lines[i..], data) == Flush(data) + rest;
    if data == [] {
      assert [] + rest == rest;
    } else {
      assert ([Join(data)] + rest)[1..] == rest;
    }
  }

  lemma RemainingLine(peer: Peer, lines: seq<Text>, i: nat, data: seq<Text>)
    requires i < |lines| && lines[i] != []
    ensures Remaining(peer, lines, i, data) == Remaining(peer, lines, i + 1, data + DataOf(lines[i]))
  {
    assert lines[i..][1..] == lines[i + 1..];
    assert Scan(lines[i..], data) == ScanLine(lines[i], lines[i + 1..], data);
  }

  lemma RemainingEnd(peer: Peer, lines: seq<Text>, data: seq<Text>)
    ensures Remaining(peer, lines, |lines|, data) == if data == [] then Ok([]) else One(peer, Join(data))
  {
    assert lines[|lines|..] == [];
    if data != [] {
      var block := Join(data);
      var blocks: seq<Text> := [block];
      assert Scan([], data) == blocks && blocks[0] == block && blocks[1..] == [];
      assert DecodeAll(peer, blocks) == Both(One(peer, block), Ok([]));
      if One(peer, block).Ok? { assert One(peer, block).value + [] == One(peer, block).value; }
    }
  }

  /** The loop of `_decode_sse_messages`. */
  method DecodeLines(peer: Peer, lines: seq<Text>) returns (r: Result<seq<Json>, SseError>)
    ensures r == DecodeAll(peer, Scan(lines, []))
  {
    assert lines[0..] == lines;
    var messages: seq<Json>, data: seq<Text> := [], [];
    BothAssociates(Ok([]), Ok([]), Remaining(peer, lines, 0, []));
    for i := 0 to |lines|
      invariant Remaining(peer, lines, 0, []) == Both(Ok(messages), Remaining(peer, lines, i, data))
    {
      if lines[i] == [] {
        RemainingBlank(peer, lines, i, data);
        if data != [] {
          var message := One(peer, Join(data));
          BothAssociates(Ok(messages), message, Remaining(peer, lines, i + 1, []));
          if message.Err? { return message; }
          messages := messages + message.value;
          data := [];
        }
      } else {
        RemainingLine(peer, lines, i, data);
        data := data + DataOf(lines[i]);
      }
    }
    RemainingEnd(peer, lines, data);
    r := Both(Ok(messages), if data == [] then Ok([]) else One(peer, Join(data)));
  }

  /** `_decode_sse_messages`: the messages are exactly the decoded event blocks, in order. */
  method DecodeSseMessages(peer: Peer, raw: Bytes) returns (r: Result<seq<Json>, SseError>)
    ensures Decode(raw).None? ==> r == Err(InvalidEncoding)
    ensures Decode(raw).Some? ==>
              r == if Events(Decode(raw).value) == [] then Err(NoMessages) else DecodeAll(peer, Events(Decode(raw).value))
  {
    var text := Decode(raw);
    if text.None? { return Err(InvalidEncoding); }
    r := DecodeLines(peer, Lines(text.value));
    DecodeAllLength(peer, Events(text.value));
    if r.Ok? && r.value == [] { return Err(NoMessages); }
  }

  lemma {:induction false} DecodeAllLength(peer: Peer, events: seq<Text>)
    ensures DecodeAll(peer, events).Ok? ==> |DecodeAll(peer, events).value| == |events|
  {
    if events != [] { DecodeAllLength(peer, events[1..]); }
  }

  // ---------- the streaming reader ----------

  /** How many bytes `readline(limit)` takes: up to and including the first line feed. */
  function LineSize(stream: Bytes, at: nat, limit: nat): (n: nat)
    requires at <= |stream|
    ensures at + n <= |stream| && n <= limit
    decreases limit
  {
    if limit == 0 || at == |stream| then 0
    else if stream[at] == LF then 1
    else 1 + LineSize(stream, at + 1, limit - 1)
  }

  function ReadLine(stream: Bytes, at: nat, limit: nat): (line: Bytes)
    requires at <= |stream|
    ensures at + |line| <= |stream| && |line| == LineSize(stream, at, limit)
  {
    stream[at..at + LineSize(stream, at, limit)]
  }

  /** `rstrip("\r\n")`. */
  function StripEnd(t: Text): Text {
    if t != [] && (t[|t| - 1] == CR || t[|t| - 1] == LF) then StripEnd(t[..|t| - 1]) else t
  }

  /** A line holds a line feed only at its end, and ends early only at the limit or the stream's end. */
  lemma {:induction false} LineSizeShape(stream: Bytes, at: nat, limit: nat)
    requires at <= |stream|
    ensures var n := LineSize(stream, at, limit);
            && (forall i | at <= i < at + n - 1 :: stream[i] != LF)
            && (n == 0 ==> limit == 0 || at == |stream|)
            && (n > 0 && stream[at + n - 1] != LF ==> n == limit || at + n == |stream|)
    decreases limit
  {
    if limit > 0 && at < |stream| && stream[at] != LF {
      LineSizeShape(stream, at + 1, limit - 1);
    }
  }

  datatype Turn = Stop(result: Result<Json, SseError>) | Go(data: seq<Text>)

  /** What the streaming reader does with one line, given without its line end. */
  function TakeLine(env: Env, text: Text, data: seq<Text>): Turn {
    if text != [] then Go(data + DataOf(text))
    else if data == [] then Go([])
    else match env.judge(Join(data))
      case Reject(e) => Stop(Err(e))
      case Answer(message) => Stop(Ok(message))
      case Pass => Go([])
  }

  /** The rest of the loop of `_read_sse_response`, from `consumed` on with `data` pending, and the
      number of bytes consumed when it ends. */
  function ReadFrom(env: Env, stream: Bytes, consumed: nat, data: seq<Text>, turn: nat): (Result<Json, SseError>, nat)
    requires consumed <= |stream|
    decreases env.limit - consumed, 1
  {
    if env.late(turn) then (Err(TimedOut), consumed)
    else if env.limit <= consumed then (Err(LimitExceeded), consumed)
    else AfterRead(env, stream, consumed, data, turn)
  }

  /** One turn that reads a line. */
  function AfterRead(env: Env, stream: Bytes, consumed: nat, data: seq<Text>, turn: nat): (Result<Json, SseError>, nat)
    requires consumed <= |stream| && consumed < env.limit
    decreases env.limit - consumed, 0
  {
    var line := ReadLine(stream, consumed, env.limit - consumed + 1);
    var now := consumed + |line|;
    if now > env.limit then (Err(LimitExceeded), now)
    else if line == [] then (FirstAnswer(env, Flush(data)), now)
    else if Decode(line).None? then (Err(InvalidEncoding), now)
    else Resume(env, stream, now, TakeLine(env, StripEnd(Decode(line).value), data), turn + 1)
  }

  function Resume(env: Env, stream: Bytes, now: nat, took: Turn, turn: nat): (Result<Json, SseError>, nat)
    requires now <= |stream| && now <= env.limit
    decreases env.limit - now, 2
  {
    match took
    case Stop(r) => (r, now)
    case Go(pending) => ReadFrom(env, stream, now, pending, turn)
  }

  /** One turn of the loop that reads a whole line. */
  lemma ReadFromLine(env: Env, stream: Bytes, consumed: nat, data: seq<Text>, turn: nat, line: Bytes, now: nat, took: Turn)
    requires now == consumed + |line| <= |stream| && now <= env.limit && !env.late(turn)
    requires line != [] && line == ReadLine(stream, consumed, env.limit - consumed + 1) && Decode(line).Some?
    requires took == TakeLine(env, StripEnd(Decode(line).value), data)
    ensures ReadFrom(env, stream, consumed, data, turn) == Resume(env, stream, now, took, turn + 1)
  {
  }

  lemma FlushedAnswer(env: Env, data: seq<Text>)
    ensures FirstAnswer(env, Flush(data)) ==
            if data == [] then Err(NoMatch)
            else match env.judge(Join(data))
              case Reject(e) => Err(e)
              case Answer(message) => Ok(message)
              case Pass => Err(NoMatch)
  {
    if data != [] {
      assert Flush(data)[1..] == [];
      assert FirstAnswer(env, Flush(data)) == AnswerFrom(env, env.judge(Join(data)), []);
    }
  }

  /** `_read_sse_response`, proved against `ReadFrom`; the bytes still allowed decrease every turn. */
  method ReadSseResponse(peer: Peer, limit: nat, late: nat -> bool, stream: Bytes)
    returns (r: Result<Json, SseError>, consumed: nat)
    ensures (r, consumed) == ReadFrom(EnvOf(peer, limit, late), stream, 0, [], 0)
  {
    r, consumed := ReadEvents(EnvOf(peer, limit, late), stream);
  }

  /** The loop of `_read_sse_response`. */
  method ReadEvents(env: Env, stream: Bytes) returns (r: Result<Json, SseError>, consumed: nat)
    ensures (r, consumed) == ReadFrom(env, stream, 0, [], 0)
  {
    consumed := 0;
    var data: seq<Text> := [];
    var turn := 0;
    while true
      invariant consumed <= |stream| && consumed <= env.limit
      invariant ReadFrom(env, stream, 0, [], 0) == ReadFrom(env, stream, consumed, data, turn)
      decreases env.limit - consumed
    {
      if env.late(turn) { return Err(TimedOut), consumed; }
      var remaining := env.limit - consumed;
      if remaining <= 0 { return Err(LimitExceeded), consumed; }
      var line := ReadLine(stream, consumed, remaining + 1);
      ghost var start := consumed;
      consumed := consumed + |line|;
      if consumed > env.limit { return Err(LimitExceeded), consumed; }
      if line == [] {
        FlushedAnswer(env, data);
        if data != [] {
          match env.judge(Join(data)) {
            case Reject(e) => return Err(e), consumed;
            case Answer(message) => return Ok(message), consumed;
            case Pass =>
          }
        }
        return Err(NoMatch), consumed;
      }
      var decoded := Decode(line);
      if decoded.None? { return Err(InvalidEncoding), consumed; }
      var text := StripEnd(decoded.value);
      ReadFromLine(env, stream, start, data, turn, line, consumed, TakeLine(env, text, data));
      if text == [] {
        if data != [] {
          match env.judge(Join(data)) {
            case Reject(e) => return Err(e), consumed;
            case Answer(message) => return Ok(message), consumed;
            case Pass => data := [];
          }
        }
      } else {
        data := data + DataOf(text);
      }
      turn := turn + 1;
    }
  }

  // ---------- lines of the stream and lines of the text ----------

  predicate Plain(t: Text) { CR !in t && LF !in t }

  lemma {:induction false} ReplaceCrLfSkips(c: Text, rest: Text)
    requires CR !in c
    ensures ReplaceCrLf(c + rest) == c + ReplaceCrLf(rest)
  {
    if c == [] {
      assert c + rest == rest;
    } else {
      assert (c + rest)[1..] == c[1..] + rest;
      ReplaceCrLfSkips(c[1..], rest);
    }
  }

  lemma {:induction false} ReplaceCrSkips(c: Text, rest: Text)
    requires CR !in c
    ensures ReplaceCr(c + rest) == c + ReplaceCr(rest)
  {
    if c == [] {
      assert c + rest == rest;
    } else {
      assert (c + rest)[1..] == c[1..] + rest;
      ReplaceCrSkips(c[1..], rest);
    }
  }

  lemma {:induction false} SplitSkips(c: Text, rest: Text)
    requires LF !in c
    ensures Split(c + [LF] + rest) == [c] + Split(rest) && Split(c) == [c]
  {
    if c == [] {
      assert c + [LF] + rest == [LF] + rest && ([LF] + rest)[1..] == rest;
      var blank: Text := [];
      assert Split(c + [LF] + rest) == [blank] + Split(rest);
    } else {
      var tail := c[1..];
      assert (c + [LF] + rest)[1..] == tail + [LF] + rest;
      SplitSkips(tail, rest);
      assert [c[0]] + tail == c;
    }
  }

  /** One terminated line in front of the text is one line in front of its lines. */
  lemma LinesStep(c: Text, rest: Text)
    requires Plain(c)
    ensures Lines(c + [LF] + rest) == [c] + Lines(rest)
    ensures Lines(c + [CR, LF] + rest) == [c] + Lines(rest)
    ensures Lines(c) == [c]
  {
    assert c + [LF] + rest == c + ([LF] + rest) && c + [CR, LF] + rest == c + ([CR, LF] + rest);
    ReplaceCrLfSkips(c, [LF] + rest);
    ReplaceCrLfSkips(c, [CR, LF] + rest);
    assert ([LF] + rest)[1..] == rest && ([CR, LF] + rest)[2..] == rest;
    assert ReplaceCrLf([LF] + rest) == [LF] + ReplaceCrLf(rest) == ReplaceCrLf([CR, LF] + rest);
    var u := ReplaceCrLf(rest);
    ReplaceCrSkips(c, [LF] + u);
    assert ([LF] + u)[1..] == u;
    assert c + ([LF] + ReplaceCr(u)) == c + [LF] + ReplaceCr(u);
    SplitSkips(c, ReplaceCr(u));
    ReplaceCrLfSkips(c, []);
    ReplaceCrSkips(c, []);
    assert c + [] == c;
  }

  /** In the stream, CR stands only directly before LF. */
  predicate PairedCr(stream: Bytes) {
    forall i {:trigger CrBeforeLf(stream, i)} | 0 <= i < |stream| :: CrBeforeLf(stream, i)
  }

  predicate CrBeforeLf(stream: Bytes, i: nat)
    requires i < |stream|
  {
    stream[i] == CR ==> i + 1 < |stream| && stream[i + 1] == LF
  }

  lemma {:induction false} StripEndPlain(c: Text)
    requires Plain(c)
    ensures StripEnd(c) == c && StripEnd(c + [LF]) == c && StripEnd(c + [CR, LF]) == c
  {
    assert (c + [LF])[..|c|] == c;
    assert (c + [CR, LF])[..|c| + 1] == c + [CR] && (c + [CR])[..|c|] == c;
    assert StripEnd(c + [CR]) == StripEnd(c);
    assert StripEnd(c + [CR, LF]) == StripEnd(c + [CR]);
  }

  /** The decoded text of a line and of what follows it, when both decode. */
  predicate Cut(line: Bytes, text: Text, rest: Bytes, restText: Text) {
    && Decode(line) == Some(text) && Decode(rest) == Some(restText)
    && Decode(line + rest) == Some(text + restText)
  }

  /** Text may be cut behind a line end. */
  lemma CutAtEnd(body: Bytes, end: Bytes, rest: Bytes) returns (c: Text, t: Text)
    requires end == [LF] || end == [CR, LF]
    requires CR !in body && LF !in body && Decode(body + (end + rest)).Some?
    ensures Plain(c) && Cut(body + end, c + end, rest, t)
  {
    DecodeCut(body, end + rest);
    DecodeConcat(body, end + rest);
    c := Decode(body).value;
    DecodeEnd(end);
    DecodeConcat(end, rest);
    t := Decode(rest).value;
    DecodeConcat(body, end);
    DecodeAbsent(body, CR);
    DecodeAbsent(body, LF);
    Regroup(body, end, rest);
    assert c + (end + t) == c + end + t;
  }

  lemma DecodeEnd(end: Bytes)
    requires end == [LF] || end == [CR, LF]
    ensures Decode(end) == Some(end)
  {
    Utf8.DecodeEncode(end);
    assert EncodeAll([LF]) == [LF] + EncodeAll([LF][1..]) == [LF];
    assert [CR, LF][1..] == [LF] && EncodeAll([CR, LF]) == [CR] + EncodeAll([LF]);
  }

  /** A line as `readline` cuts it from a stream where CR stands only before LF. */
  predicate LineShape(line: Bytes, rest: Bytes) {
    && line != []
    && (line[|line| - 1] != LF ==> rest == [])
    && forall i {:trigger EndsAt(line, i)} | 0 <= i < |line| :: EndsAt(line, i)
  }

  /** A line feed stands only at the end, a CR only directly before it. */
  predicate EndsAt(line: Bytes, i: nat)
    requires i < |line|
  {
    && (line[i] == LF ==> i == |line| - 1)
    && (line[i] == CR ==> i == |line| - 2 && line[i + 1] == LF)
  }

  /** One line of the stream is one line of its text: cutting and decoding commute. */
  lemma LineOfText(line: Bytes, rest: Bytes) returns (c: Text, t: Text, restText: Text)
    requires LineShape(line, rest) && Decode(line + rest).Some?
    ensures Cut(line, t, rest, restText) && Plain(c) && StripEnd(t) == c
    ensures Lines(t + restText) == (if line[|line| - 1] == LF then [c] + Lines(restText) else [c])
    ensures line[|line| - 1] != LF ==> c != []
  {
    var n := |line| - 1;
    forall i | 0 <= i < |line| ensures line[i] == LF ==> i == n { assert EndsAt(line, i); }
    forall i | 0 <= i < |line| ensures line[i] == CR ==> i == n - 1 && line[i + 1] == LF { assert EndsAt(line, i); }
    if line[n] != LF {
      assert line + rest == line;
      DecodeAbsent(line, CR);
      DecodeAbsent(line, LF);
      c, t, restText := Decode(line).value, Decode(line).value, [];
      assert t + restText == t;
      StripEndPlain(c);
      LinesStep(c, []);
    } else {
      var end: Bytes := if n >= 1 && line[n - 1] == CR then [CR, LF] else [LF];
      var body := line[..|line| - |end|];
      assert line == body + end;
      Regroup(body, end, rest);
      c, restText := CutAtEnd(body, end, rest);
      t := c + end;
      StripEndPlain(c);
      LinesStep(c, restText);
    }
  }

  // ---------- the two readers agree ----------

  /** What the batch blocks of `rest` determine after one turn of the streaming reader. */
  function After(env: Env, turn: Turn, rest: seq<Text>): Result<Json, SseError> {
    match turn
    case Stop(r) => r
    case Go(pending) => FirstAnswer(env, Scan(rest, pending))
  }

  /** One line of the batch parse is one turn of the streaming reader. */
  lemma TurnAgrees(env: Env, text: Text, rest: seq<Text>, data: seq<Text>)
    ensures FirstAnswer(env, Scan([text] + rest, data)) == After(env, TakeLine(env, text, data), rest)
  {
    assert ([text] + rest)[1..] == rest;
    if text == [] && data != [] {
      var events := [Join(data)] + Scan(rest, []);
      assert Scan([text] + rest, data) == events;
      assert events[1..] == Scan(rest, []);
    } else if text == [] {
      assert Flush(data) + Scan(rest, []) == Scan(rest, []);
    }
  }

  /** At the end of the stream: a last line without a line end behaves like a terminated one. */
  lemma EndAgrees(env: Env, data: seq<Text>)
    ensures Scan([], data) == Flush(data) && Scan(Lines([]), data) == Flush(data)
  {
    var blank: Text := [];
    assert Lines([]) == [blank];
    assert [blank][1..] == [] && Scan([], []) == [];
    assert Flush(data) + [] == Flush(data);
  }

  /** The bytes from `at` on decode as text. */
  predicate TextFrom(stream: Bytes, at: nat, text: Text) {
    at <= |stream| && Decode(stream[at..]) == Some(text)
  }

  /** Neither the deadline nor the byte limit can strike. */
  ghost predicate Calm(env: Env, length: nat) { length < env.limit && forall k :: !env.late(k) }

  predicate Agreed(r: Result<Json, SseError>, expected: Result<Json, SseError>, calm: bool) {
    r == expected || (!calm && (r == Err(TimedOut) || r == Err(LimitExceeded)))
  }

  /** What `readline` cuts off when its limit does not cut the line. */
  lemma LineIsWhole(stream: Bytes, consumed: nat, limit: nat, line: Bytes)
    requires PairedCr(stream) && consumed <= |stream| && line != [] && |line| < limit
    requires line == ReadLine(stream, consumed, limit)
    ensures consumed + |line| <= |stream| && stream[consumed..] == line + stream[consumed + |line|..]
    ensures LineShape(line, stream[consumed + |line|..])
  {
    LineSizeShape(stream, consumed, limit);
    var now := consumed + |line|;
    assert line[|line| - 1] != LF ==> now == |stream|;
    forall i | 0 <= i < |line| ensures EndsAt(line, i) {
      assert line[i] == stream[consumed + i] && CrBeforeLf(stream, consumed + i);
      assert i + 1 < |line| ==> line[i + 1] == stream[consumed + i + 1];
    }
  }

  /** `c` is the first line of `text`, and `restText` is what follows it. */
  predicate HeadLine(text: Text, c: Text, restText: Text) {
    Lines(text) == [c] + Lines(restText) || (Lines(text) == [c] && c != [] && restText == [])
  }

  /** A line in front of bytes that decode, seen as text: what the reader does with it is what the
      batch blocks say. */
  lemma LineTextTurn(env: Env, line: Bytes, rest: Bytes, text: Text, data: seq<Text>) returns (took: Turn, restText: Text)
    requires LineShape(line, rest) && Decode(line + rest) == Some(text)
    ensures Decode(line).Some? && Decode(rest) == Some(restText)
    ensures took == TakeLine(env, StripEnd(Decode(line).value), data)
    ensures FirstAnswer(env, Scan(Lines(text), data)) == After(env, took, Lines(restText))
  {
    var c, t, u := LineOfText(line, rest);
    restText := u;
    if rest == [] { assert restText == []; }
    took := TakeLine(env, c, data);
    LineAgrees(env, c, text, restText, data, took);
  }

  /** From any line boundary on, the streaming reader returns what the batch blocks of the rest
      determine; only the deadline and the byte limit can make it give up before. */
  lemma {:induction false} ReadFromAgrees(env: Env, stream: Bytes, consumed: nat, data: seq<Text>, turn: nat, text: Text,
                                          r: Result<Json, SseError>, expected: Result<Json, SseError>, calm: bool)
    requires calm == Calm(env, |stream|) && PairedCr(stream) && TextFrom(stream, consumed, text)
    requires r == ReadFrom(env, stream, consumed, data, turn).0 && expected == FirstAnswer(env, Scan(Lines(text), data))
    ensures Agreed(r, expected, calm)
    decreases env.limit - consumed
  {
    var length := LineLength(env, stream, consumed);
    if env.late(turn) || env.limit <= consumed || consumed + length > env.limit {
      GivesUp(env, stream, consumed, data, turn);
    } else if length == 0 {
      LastTurn(env, stream, consumed, data, turn, text);
    } else {
      var took, now, restText := OneLine(env, stream, consumed, data, turn, text, r, expected);
      if took.Go? {
        ReadFromAgrees(env, stream, now, took.data, turn + 1, restText, r, expected, calm);
      }
    }
  }

  /** One turn on both sides: an answer from both, or both go on behind the line. */
  lemma OneLine(env: Env, stream: Bytes, consumed: nat, data: seq<Text>, turn: nat, text: Text,
                r: Result<Json, SseError>, expected: Result<Json, SseError>)
    returns (took: Turn, now: nat, restText: Text)
    requires PairedCr(stream) && TextFrom(stream, consumed, text) && !env.late(turn)
    requires consumed < env.limit && 0 < LineLength(env, stream, consumed) <= env.limit - consumed
    requires r == ReadFrom(env, stream, consumed, data, turn).0 && expected == FirstAnswer(env, Scan(Lines(text), data))
    ensures took.Stop? ==> r == expected
    ensures took.Go? ==>
              && consumed < now <= env.limit && TextFrom(stream, now, restText)
              && r == ReadFrom(env, stream, now, took.data, turn + 1).0
              && expected == FirstAnswer(env, Scan(Lines(restText), took.data))
  {
    var line;
    line, took, restText := TextTurn(env, stream, consumed, data, text, expected);
    now := consumed + LineLength(env, stream, consumed);
    StreamTurn(env, stream, consumed, data, turn, line, now, took, r);
  }

  /** How many bytes `readline` takes at `consumed`. */
  function LineLength(env: Env, stream: Bytes, consumed: nat): (n: nat)
    requires consumed <= |stream|
    ensures consumed + n <= |stream|
  {
    if env.limit <= consumed then 0
    else LineSize(stream, consumed, env.limit - consumed + 1)
  }

  lemma GivesUp(env: Env, stream: Bytes, consumed: nat, data: seq<Text>, turn: nat)
    requires consumed <= |stream|
    requires env.late(turn) || env.limit <= consumed || consumed + LineLength(env, stream, consumed) > env.limit
    ensures var r := ReadFrom(env, stream, consumed, data, turn).0;
            r == Err(TimedOut) || r == Err(LimitExceeded)
    ensures !Calm(env, |stream|)
  {
  }

  lemma LastTurn(env: Env, stream: Bytes, consumed: nat, data: seq<Text>, turn: nat, text: Text)
    requires TextFrom(stream, consumed, text) && !env.late(turn) && consumed < env.limit
    requires LineLength(env, stream, consumed) == 0
    ensures ReadFrom(env, stream, consumed, data, turn).0 == FirstAnswer(env, Scan(Lines(text), data))
  {
    LineSizeShape(stream, consumed, env.limit - consumed + 1);
    assert stream[consumed..] == [];
    EndAgrees(env, data);
  }

  /** A whole line stands at `consumed`, and it decodes. */
  predicate LineReady(env: Env, stream: Bytes, consumed: nat) {
    && consumed <= |stream| && consumed < env.limit
    && 0 < LineLength(env, stream, consumed) <= env.limit - consumed
    && Decode(ReadLine(stream, consumed, env.limit - consumed + 1)).Some?
  }

  function TakenAt(env: Env, stream: Bytes, consumed: nat, data: seq<Text>): Turn
    requires LineReady(env, stream, consumed)
  {
    TakeLine(env, StripEnd(Decode(ReadLine(stream, consumed, env.limit - consumed + 1)).value), data)
  }

  /** The line at `consumed` and what follows it. */
  lemma LineParts(stream: Bytes, consumed: nat, limit: nat, whole: Bytes) returns (line: Bytes, rest: Bytes)
    requires PairedCr(stream) && consumed <= |stream| && 0 < LineSize(stream, consumed, limit) < limit
    requires whole == stream[consumed..]
    ensures line == ReadLine(stream, consumed, limit) && line != [] && rest == stream[consumed + |line|..]
    ensures LineShape(line, rest) && whole == line + rest
  {
    line := ReadLine(stream, consumed, limit);
    LineIsWhole(stream, consumed, limit, line);
    rest := stream[consumed + |line|..];
  }

  /** The same turn on the side of the text: the line and what follows it decode, and the batch blocks
      say what the reader does. */
  lemma TextTurn(env: Env, stream: Bytes, consumed: nat, data: seq<Text>, text: Text, expected: Result<Json, SseError>)
    returns (line: Bytes, took: Turn, restText: Text)
    requires PairedCr(stream) && TextFrom(stream, consumed, text)
    requires consumed < env.limit && 0 < LineLength(env, stream, consumed) <= env.limit - consumed
    requires expected == FirstAnswer(env, Scan(Lines(text), data))
    ensures line == ReadLine(stream, consumed, env.limit - consumed + 1)
    ensures Decode(line).Some? && took == TakeLine(env, StripEnd(Decode(line).value), data)
    ensures TextFrom(stream, consumed + LineLength(env, stream, consumed), restText)
    ensures took.Stop? ==> expected == took.result
    ensures took.Go? ==> expected == FirstAnswer(env, Scan(Lines(restText), took.data))
  {
    var rest;
    line, rest := LineParts(stream, consumed, env.limit - consumed + 1, stream[consumed..]);
    assert rest == stream[consumed + LineLength(env, stream, consumed)..];
    took, restText := LineTextTurn(env, line, rest, text, data);
  }

  /** The same turn on the side of the stream. */
  lemma StreamTurn(env: Env, stream: Bytes, consumed: nat, data: seq<Text>, turn: nat, line: Bytes, now: nat, took: Turn,
                   r: Result<Json, SseError>)
    requires consumed < env.limit && consumed <= |stream| && !env.late(turn) && now == consumed + LineLength(env, stream, consumed)
    requires consumed < now <= env.limit && line == ReadLine(stream, consumed, env.limit - consumed + 1)
    requires Decode(line).Some? && took == TakeLine(env, StripEnd(Decode(line).value), data)
    requires r == ReadFrom(env, stream, consumed, data, turn).0
    ensures took.Stop? ==> r == took.result
    ensures took.Go? ==> r == ReadFrom(env, stream, now, took.data, turn + 1).0
  {
    ReadFromLine(env, stream, consumed, data, turn, line, now, took);
  }

  lemma LineAgrees(env: Env, c: Text, text: Text, restText: Text, data: seq<Text>, took: Turn)
    requires HeadLine(text, c, restText) && took == TakeLine(env, c, data)
    ensures FirstAnswer(env, Scan(Lines(text), data)) == After(env, took, Lines(restText))
  {
    if Lines(text) == [c] + Lines(restText) {
      TurnAgrees(env, c, Lines(restText), data);
    } else {
      assert Lines(text) == [c] + [];
      TurnAgrees(env, c, [], data);
      EndAgrees(env, data + DataOf(c));
    }
  }

  /** The text of the bytes from `from` to `to`. */
  predicate TextBetween(stream: Bytes, from: nat, to: nat, text: Text) {
    from <= to <= |stream| && Decode(stream[from..to]) == Some(text)
  }

  /** Adding the line at `consumed` to text that is known up to `to`. */
  lemma LineBefore(env: Env, stream: Bytes, consumed: nat, data: seq<Text>, to: nat, restText: Text)
    returns (took: Turn, text: Text)
    requires PairedCr(stream) && LineReady(env, stream, consumed)
    requires TextBetween(stream, consumed + LineLength(env, stream, consumed), to, restText)
    ensures TextBetween(stream, consumed, to, text) && took == TakenAt(env, stream, consumed, data)
    ensures FirstAnswer(env, Scan(Lines(text), data)) == After(env, took, Lines(restText))
  {
    var line := ReadLine(stream, consumed, env.limit - consumed + 1);
    LineSlice(stream, consumed, env.limit - consumed + 1, line, to);
    var rest := stream[consumed + |line|..to];
    DecodeConcat(line, rest);
    text := Decode(line).value + restText;
    var u;
    took, u := LineTextTurn(env, line, rest, text, data);
  }

  lemma LineSlice(stream: Bytes, consumed: nat, limit: nat, line: Bytes, to: nat)
    requires PairedCr(stream) && consumed <= |stream| && line != [] && |line| < limit
    requires line == ReadLine(stream, consumed, limit) && consumed + |line| <= to <= |stream|
    ensures stream[consumed..to] == line + stream[consumed + |line|..to]
    ensures LineShape(line, stream[consumed + |line|..to])
  {
    LineIsWhole(stream, consumed, limit, line);
    var now := consumed + |line|;
    assert line == stream[consumed..now];
  }

  /** What a normal return of the streaming reader says about the bytes it consumed. */
  lemma {:induction false} AnswerAt(env: Env, stream: Bytes, consumed: nat, data: seq<Text>, turn: nat, m: Json, to: nat)
    returns (text: Text)
    requires PairedCr(stream) && consumed <= |stream| && ReadFrom(env, stream, consumed, data, turn) == (Ok(m), to)
    ensures to <= env.limit && TextBetween(stream, consumed, to, text)
    ensures FirstAnswer(env, Scan(Lines(text), data)) == Ok(m)
    decreases env.limit - consumed
  {
    var length := LineLength(env, stream, consumed);
    if length == 0 {
      text := AnswerAtEnd(env, stream, consumed, data, turn, m, to);
    } else {
      LineDecodes(env, stream, consumed, data, turn, m, to);
      var took := TakenAt(env, stream, consumed, data);
      var restText: Text := [];
      if took.Go? {
        restText := AnswerAt(env, stream, consumed + length, took.data, turn + 1, m, to);
      } else {
        assert stream[to..to] == [];
      }
      took, text := LineBefore(env, stream, consumed, data, to, restText);
    }
  }

  lemma AnswerAtEnd(env: Env, stream: Bytes, consumed: nat, data: seq<Text>, turn: nat, m: Json, to: nat)
    returns (text: Text)
    requires consumed <= |stream| && ReadFrom(env, stream, consumed, data, turn) == (Ok(m), to)
    requires LineLength(env, stream, consumed) == 0
    ensures to <= env.limit && TextBetween(stream, consumed, to, text)
    ensures FirstAnswer(env, Scan(Lines(text), data)) == Ok(m)
  {
    text := [];
    assert stream[consumed..to] == [];
    EndAgrees(env, data);
  }

  lemma LineDecodes(env: Env, stream: Bytes, consumed: nat, data: seq<Text>, turn: nat, m: Json, to: nat)
    requires consumed <= |stream| && ReadFrom(env, stream, consumed, data, turn) == (Ok(m), to)
    requires LineLength(env, stream, consumed) > 0
    ensures LineReady(env, stream, consumed)
    ensures Resume(env, stream, consumed + LineLength(env, stream, consumed), TakenAt(env, stream, consumed, data), turn + 1)
            == (Ok(m), to)
  {
  }

  // ---------- the main results ----------

  /** A normal return never consumes past the limit, and its message is the first answer among the
      event blocks of the batch parse of the bytes consumed; when the whole stream is text, it is
      also the first answer among the blocks of the whole stream. */
  lemma ReturnsFirstAnswer(env: Env, stream: Bytes, m: Json, to: nat)
    requires PairedCr(stream) && ReadFrom(env, stream, 0, [], 0) == (Ok(m), to)
    ensures to <= env.limit && to <= |stream|
    ensures Decode(stream[..to]).Some? && FirstAnswer(env, Events(Decode(stream[..to]).value)) == Ok(m)
    ensures Decode(stream).Some? ==> FirstAnswer(env, Events(Decode(stream).value)) == Ok(m)
  {
    var text := AnswerAt(env, stream, 0, [], 0, m, to);
    assert stream[0..to] == stream[..to];
    if Decode(stream).Some? {
      assert stream[0..] == stream;
      ReadFromAgrees(env, stream, 0, [], 0, Decode(stream).value, Ok(m), FirstAnswer(env, Events(Decode(stream).value)),
                     Calm(env, |stream|));
    }
  }

  /** On a text stream below the limit and never late, the streaming reader returns exactly what
      the event blocks of the batch parse determine, errors included. */
  lemma ReaderRefinesBatch(env: Env, stream: Bytes)
    requires PairedCr(stream) && Decode(stream).Some? && |stream| < env.limit
    requires forall k :: !env.late(k)
    ensures ReadFrom(env, stream, 0, [], 0).0 == FirstAnswer(env, Events(Decode(stream).value))
  {
    assert stream[0..] == stream;
    ReadFromAgrees(env, stream, 0, [], 0, Decode(stream).value, ReadFrom(env, stream, 0, [], 0).0,
                   FirstAnswer(env, Events(Decode(stream).value)), true);
  }

  /** The batch parser keeps one message per event block, so a returned answer is one of its
      messages and no message before it matches. */
  lemma {:induction false} AnswerAmongMessages(peer: Peer, env: Env, events: seq<Text>, m: Json, messages: seq<Json>)
    returns (i: nat)
    requires forall t :: env.judge(t) == Judge(peer, t)
    requires FirstAnswer(env, events) == Ok(m) && DecodeAll(peer, events) == Ok(messages)
    ensures i < |messages| == |events| && messages[i] == m && m.Obj? && Matches(peer, m)
    ensures forall j | 0 <= j < i :: messages[j].Obj? && !Matches(peer, messages[j])
  {
    assert env.judge(events[0]) == Judge(peer, events[0]);
    if env.judge(events[0]) == Pass {
      var k := AnswerAmongMessages(peer, env, events[1..], m, messages[1..]);
      i := k + 1;
      forall j | 0 <= j < i ensures messages[j].Obj? && !Matches(peer, messages[j]) {
        if j > 0 { assert messages[j] == messages[1..][j - 1]; }
      }
    } else {
      i := 0;
      DecodeAllLength(peer, events);
    }
  }
}
