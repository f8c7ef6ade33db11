/** What the readers of server-sent events make of messages and of rendered events, in terms of the fields
    and the lines themselves. */
module SseMessages {
  import opened Wrappers
  import opened Utf8
  import opened Json
  import opened Sse

  // ---------- messages ----------

  /** An event is the answer exactly when it holds an object with the id of the request, version 2.0, and
      one of result and error, but no method. */
  lemma AnswerFields(peer: Peer, text: Text, m: Json)
    ensures Judge(peer, text) == Answer(m) <==>
            && peer.loads(text) == Some(m) && m.Obj?
            && ID in m.m && m.m[ID] == Str(peer.requestId) && METHOD !in m.m
            && JSONRPC in m.m && m.m[JSONRPC] == Str(Literal("2.0"))
            && (RESULT in m.m <==> ERROR !in m.m)
  {
    assert VERSION == Literal("2.0");
  }

  /** An event is passed over exactly when it holds an object without both result and error that is a
      notification, or a response of another id, or carries neither result nor error. */
  lemma PassFields(peer: Peer, text: Text)
    ensures Judge(peer, text) == Pass <==>
            && peer.loads(text).Some? && peer.loads(text).value.Obj?
            && var m := peer.loads(text).value.m;
               !(RESULT in m && ERROR in m)
               && (if ID !in m then true
                   else METHOD !in m && (m[ID] != Str(peer.requestId) || (RESULT !in m && ERROR !in m)))
  {
  }

  /** Why an event is refused. */
  lemma RejectFields(peer: Peer, text: Text, e: SseError)
    ensures peer.loads(text).None? ==> Judge(peer, text) == Reject(InvalidJson)
    ensures peer.loads(text).Some? && !peer.loads(text).value.Obj? ==> Judge(peer, text) == Reject(NotAnObject)
    ensures peer.loads(text).Some? && peer.loads(text).value.Obj? ==>
              var m := peer.loads(text).value.m;
              && (Judge(peer, text) == Reject(ServerRequest) <==> METHOD in m && ID in m)
              && (Judge(peer, text) == Reject(ResultAndError) <==> !(METHOD in m && ID in m) && RESULT in m && ERROR in m)
              && (Judge(peer, text) == Reject(WrongVersion) <==>
                    && ID in m && m[ID] == Str(peer.requestId) && METHOD !in m
                    && (RESULT in m <==> ERROR !in m) && !(JSONRPC in m && m[JSONRPC] == Str(Literal("2.0"))))
  {
    assert VERSION == Literal("2.0");
  }

  /** What is returned was judged to be the answer. */
  lemma {:induction false} ReturnedIsJudged(env: Env, stream: Bytes, consumed: nat, data: seq<Text>, turn: nat, m: Json)
    returns (text: Text)
    requires consumed <= |stream| && ReadFrom(env, stream, consumed, data, turn).0 == Ok(m)
    ensures env.judge(text) == Answer(m)
    decreases env.limit - consumed
  {
    var line := ReadLine(stream, consumed, env.limit - consumed + 1);
    if line == [] {
      var i := FirstAnswerIsFirst(env, Flush(data));
      text := Flush(data)[i];
    } else {
      var took := TakeLine(env, StripEnd(Decode(line).value), data);
      ReadFromLine(env, stream, consumed, data, turn, line, consumed + |line|, took);
      if took.Go? {
        text := ReturnedIsJudged(env, stream, consumed + |line|, took.data, turn + 1, m);
      } else {
        text := Join(data);
      }
    }
  }

  /** Whatever bytes arrive, a returned message answers the request. */
  lemma ReturnedAnswersRequest(peer: Peer, limit: nat, late: nat -> bool, stream: Bytes, m: Json)
    requires ReadFrom(EnvOf(peer, limit, late), stream, 0, [], 0).0 == Ok(m)
    ensures m.Obj? && ID in m.m && m.m[ID] == Str(peer.requestId) && METHOD !in m.m
    ensures JSONRPC in m.m && m.m[JSONRPC] == Str(Literal("2.0")) && (RESULT in m.m <==> ERROR !in m.m)
  {
    var text := ReturnedIsJudged(EnvOf(peer, limit, late), stream, 0, [], 0, m);
    AnswerFields(peer, text, m);
  }

  /** The first block that answers the request is returned when every block before it is a valid object
      that belongs to another request, or to none, or is no response. */
  lemma FirstResponseReturned(peer: Peer, env: Env, events: seq<Text>, i: nat, m: Json)
    requires forall t :: env.judge(t) == Judge(peer, t)
    requires i < |events| && peer.loads(events[i]) == Some(m) && m.Obj?
    requires ID in m.m && m.m[ID] == Str(peer.requestId) && METHOD !in m.m
    requires JSONRPC in m.m && m.m[JSONRPC] == Str(Literal("2.0")) && (RESULT in m.m <==> ERROR !in m.m)
    requires forall j | 0 <= j < i :: peer.loads(events[j]).Some? && peer.loads(events[j]).value.Obj?
    requires forall j | 0 <= j < i ::
               var e := peer.loads(events[j]).value.m;
               !(RESULT in e && ERROR in e)
               && (ID in e ==> METHOD !in e && (e[ID] != Str(peer.requestId) || (RESULT !in e && ERROR !in e)))
    ensures FirstAnswer(env, events) == Ok(m)
  {
    AnswerFields(peer, events[i], m);
    assert env.judge(events[i]) == Judge(peer, events[i]);
    forall j | 0 <= j < i ensures env.judge(events[j]) == Pass {
      PassFields(peer, events[j]);
      assert env.judge(events[j]) == Judge(peer, events[j]);
    }
    FirstJudged(env, events, i, m);
  }

  /** The member names of messages are different names, and none of those the schema code knows. */
  lemma NamesDiffer(k: Key)
    ensures var all := [ID, METHOD, RESULT, ERROR, JSONRPC];
            (forall i, j | 0 <= i < j < |all| :: all[i] != all[j]) && (k in all ==> k > MAX_CONTAINS)
  {
  }

  // ---------- lines ----------

  /** In a stream with paired ends every CR is followed by LF. */
  lemma PairedWrittenOut(stream: Bytes)
    ensures PairedCr(stream) <==>
            forall i | 0 <= i < |stream| && stream[i] == 0x0D :: i + 1 < |stream| && stream[i + 1] == 0x0A
  {
    if PairedCr(stream) {
      forall i | 0 <= i < |stream| && stream[i] == 0x0D ensures i + 1 < |stream| && stream[i + 1] == 0x0A {
        assert CrBeforeLf(stream, i);
      }
    }
  }

  /** A data line carries what stands behind the colon, without one leading space. */
  lemma DataLine(value: Text)
    ensures DataOf(Literal("data:") + value) == [if value != [] && value[0] == 0x20 then value[1..] else value]
    ensures DataOf(Literal("data: ") + value) == [value]
  {
    FieldNames();
    FieldLine(DATA, value);
    SpacedLine(DATA, value);
  }

  lemma SpacedLine(field: Text, value: Text)
    requires COLON !in field && field != []
    ensures DataOf(field + [COLON] + [SPACE] + value) == if field == DATA then [value] else []
  {
    Regroup(field + [COLON], [SPACE], value);
    FieldLine(field, [SPACE] + value);
    assert ([SPACE] + value)[1..] == value;
  }

  lemma FieldNames()
    ensures Literal("data") == DATA && Literal("data:") == DATA + [COLON] && Literal("data: ") == DATA + [COLON] + [SPACE]
    ensures Plain(Literal("data: ")) && COLON !in DATA
  {
  }

  lemma {:induction false} FirstColonAt(field: Text, value: Text)
    requires COLON !in field
    ensures FirstColon(field + [COLON] + value) == |field| && FirstColon(field) == |field|
  {
    if field != [] {
      assert (field + [COLON] + value)[1..] == field[1..] + [COLON] + value;
      FirstColonAt(field[1..], value);
    }
  }

  lemma FieldLine(field: Text, value: Text)
    requires COLON !in field && field != []
    ensures DataOf(field + [COLON] + value) ==
            if field == DATA then [if value != [] && value[0] == SPACE then value[1..] else value] else []
  {
    FirstColonAt(field, value);
    var line := field + [COLON] + value;
    assert line[..|field|] == field && line[|field| + 1..] == value;
  }

  /** Other fields, lines without a colon and comments carry nothing. */
  lemma OtherLine(field: Text, value: Text)
    requires ':' as int !in field
    ensures field != Literal("data") ==> DataOf(field + [0x3A] + value) == []
    ensures DataOf(field) == [] && DataOf([0x3A] + value) == []
  {
    assert DATA == Literal("data") && COLON == ':' as int;
    FirstColonAt(field, value);
    if field != [] { FieldLine(field, value); }
    assert [] + [COLON] + value == [COLON] + value;
  }

  /** Joining puts a line feed between the lines: splitting gives them back. */
  lemma {:induction false} JoinSplits(data: seq<Text>)
    requires data != [] && forall i | 0 <= i < |data| :: 0x0A !in data[i]
    ensures Split(Join(data)) == data
  {
    SplitSkips(data[0], []);
    if |data| > 1 {
      JoinSplits(data[1..]);
      SplitSkips(data[0], Join(data[1..]));
    }
  }

  /** A line ends at LF, at CR LF, and in the batch parse also at a lone CR. */
  lemma LoneCr(c: Text, rest: Text)
    requires Plain(c) && (rest == [] || rest[0] != 0x0A)
    ensures Lines(c + [0x0D] + rest) == [c] + Lines(rest)
  {
    var t := [CR] + rest;
    assert c + [CR] + rest == c + t && t[1..] == rest;
    ReplaceCrLfSkips(c, t);
    var u := ReplaceCrLf(rest);
    assert ReplaceCrLf(t) == [CR] + u;
    assert ([CR] + u)[1..] == u;
    ReplaceCrSkips(c, [CR] + u);
    assert c + ([LF] + ReplaceCr(u)) == c + [LF] + ReplaceCr(u);
    SplitSkips(c, ReplaceCr(u));
  }

  // ---------- rendering ----------

  predicate Renderable(data: seq<Text>) { data != [] && forall i | 0 <= i < |data| :: Plain(data[i]) }

  /** The data lines of one event. */
  function RenderData(data: seq<Text>): Text {
    if data == [] then [] else Literal("data: ") + data[0] + [0x0A] + RenderData(data[1..])
  }

  /** Events as a server sends them: their data lines, each event ended by a blank line. */
  function Render(events: seq<seq<Text>>): Text {
    if events == [] then [] else RenderData(events[0]) + [0x0A] + Render(events[1..])
  }

  function Joined(events: seq<seq<Text>>): seq<Text> {
    if events == [] then [] else [Join(events[0])] + Joined(events[1..])
  }

  lemma {:induction false} RenderedData(data: seq<Text>, pending: seq<Text>, rest: Text)
    requires forall i | 0 <= i < |data| :: Plain(data[i])
    ensures Scan(Lines(RenderData(data) + rest), pending) == Scan(Lines(rest), pending + data)
  {
    if data == [] {
      assert RenderData(data) + rest == rest && pending + data == pending;
    } else {
      RenderedHead(data, rest);
      RenderedLine(data[0], RenderData(data[1..]) + rest, pending);
      RenderedData(data[1..], pending + [data[0]], rest);
      HeadFirst(pending, data);
    }
  }

  lemma HeadFirst(pending: seq<Text>, data: seq<Text>)
    requires data != []
    ensures pending + [data[0]] + data[1..] == pending + data
  {
  }

  lemma RenderedHead(data: seq<Text>, rest: Text)
    requires data != []
    ensures RenderData(data) + rest == Literal("data: ") + data[0] + [LF] + (RenderData(data[1..]) + rest)
  {
    Regroup(Literal("data: ") + data[0] + [LF], RenderData(data[1..]), rest);
  }

  lemma Regroup(a: Text, b: Text, c: Text)
    ensures a + b + c == a + (b + c)
  {
  }

  lemma RenderedLine(d: Text, tail: Text, pending: seq<Text>)
    requires Plain(d)
    ensures Scan(Lines(Literal("data: ") + d + [LF] + tail), pending) == Scan(Lines(tail), pending + [d])
  {
    FieldNames();
    DataLine(d);
    ScannedLine(Literal("data: ") + d, d, tail, pending);
  }

  lemma ScannedLine(line: Text, d: Text, tail: Text, pending: seq<Text>)
    requires Plain(line) && line != [] && DataOf(line) == [d]
    ensures Scan(Lines(line + [LF] + tail), pending) == Scan(Lines(tail), pending + [d])
  {
    LinesStep(line, tail);
    assert ([line] + Lines(tail))[1..] == Lines(tail);
    assert Scan([line] + Lines(tail), pending) == ScanLine(line, Lines(tail), pending);
  }

  lemma RenderedEvent(data: seq<Text>, rest: Text)
    requires Renderable(data)
    ensures Events(RenderData(data) + ([LF] + rest)) == [Join(data)] + Events(rest)
  {
    RenderedData(data, [], [LF] + rest);
    var blank: Text := [];
    assert blank + [LF] + rest == [LF] + rest;
    LinesStep(blank, rest);
    assert ([blank] + Lines(rest))[1..] == Lines(rest);
    assert [] + data == data;
    assert Scan([blank] + Lines(rest), data) == [Join(data)] + Events(rest);
  }

  /** Parsing rendered events gives the events back, each once and in order, and an unfinished last event
      is dispatched too. */
  lemma {:induction false} RenderedEvents(events: seq<seq<Text>>, last: seq<Text>)
    requires forall i | 0 <= i < |events| :: Renderable(events[i])
    requires forall i | 0 <= i < |last| :: Plain(last[i])
    ensures Events(Render(events) + RenderData(last)) == Joined(events) + (if last == [] then [] else [Join(last)])
  {
    if events == [] {
      RenderedData(last, [], []);
      assert RenderData(last) + [] == RenderData(last) == Render(events) + RenderData(last);
      assert [] + last == last;
      EndScan(last);
      assert Joined(events) + Flush(last) == Flush(last);
    } else {
      var rest := Render(events[1..]) + RenderData(last);
      assert Render(events) + RenderData(last) == RenderData(events[0]) + ([LF] + rest);
      RenderedEvent(events[0], rest);
      RenderedEvents(events[1..], last);
      assert [Join(events[0])] + (Joined(events[1..]) + (if last == [] then [] else [Join(last)]))
             == Joined(events) + (if last == [] then [] else [Join(last)]);
    }
  }

  /** A server that renders events on a stream that is in time and below the limit is understood: the first
      response to the request is returned, when only other messages stand before it. */
  lemma ResponseReceived(peer: Peer, limit: nat, late: nat -> bool, stream: Bytes, events: seq<seq<Text>>, i: nat, m: Json)
    requires PairedCr(stream) && |stream| < limit && (forall k :: !late(k))
    requires (forall j | 0 <= j < |events| :: Renderable(events[j])) && Decode(stream) == Some(Render(events))
    requires i < |events| && Judge(peer, Join(events[i])) == Answer(m)
    requires forall j | 0 <= j < i :: Judge(peer, Join(events[j])) == Pass
    ensures ReadFrom(EnvOf(peer, limit, late), stream, 0, [], 0).0 == Ok(m)
  {
    var env := EnvOf(peer, limit, late);
    RenderedEvents(events, []);
    assert Render(events) + RenderData([]) == Render(events);
    assert Joined(events) + [] == Joined(events);
    ReaderRefinesBatch(env, stream);
    JoinedAt(events);
    FirstJudged(env, Joined(events), i, m);
  }

  lemma {:induction false} JoinedAt(events: seq<seq<Text>>)
    ensures |Joined(events)| == |events| && forall j | 0 <= j < |events| :: Joined(events)[j] == Join(events[j])
  {
    if events != [] { JoinedAt(events[1..]); }
  }

  lemma {:induction false} FirstJudged(env: Env, events: seq<Text>, i: nat, m: Json)
    requires i < |events| && env.judge(events[i]) == Answer(m)
    requires forall j | 0 <= j < i :: env.judge(events[j]) == Pass
    ensures FirstAnswer(env, events) == Ok(m)
  {
    if i > 0 {
      assert env.judge(events[0]) == Pass;
      forall j | 0 <= j < i - 1 ensures env.judge(events[1..][j]) == Pass { assert events[1..][j] == events[j + 1]; }
      FirstJudged(env, events[1..], i - 1, m);
    }
  }

  lemma EndScan(data: seq<Text>)
    ensures Scan(Lines([]), data) == Flush(data)
  {
    var blank: Text := [];
    assert Lines([]) == [blank];
    assert [blank][1..] == [] && Scan([], []) == [];
    assert Flush(data) + [] == Flush(data);
  }
}
