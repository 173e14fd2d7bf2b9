/** The stdio client of the plugin: reassembling lines from chunks, and settling requests. */
module McpClient {
  import opened Wrappers
  import Utf8
  import Decoding

  /** `id` is None for a message without an id a request can have. */
  datatype Reply = Reply(id: Option<nat>, failed: bool, payload: string)

  /** The host's string trimming, its JSON parser, and its reading of one encoded character. */
  datatype Env = Env(trim: string -> string, json: string -> Option<Reply>, character: Utf8.Bytes -> char)

  /** How a request was settled, and after how many handled lines. */
  datatype How =
    | Answered(at: nat, payload: string)
    | Refused(at: nat)
    | TimedOut(at: nat)
    | Closed(at: nat)

  datatype Settled = Settled(id: nat, how: How)

  /** `issued[i - 1]` is the number of lines handled before request i was sent; `stream` is all output so far. */
  datatype State = State(
    process: bool,
    writable: bool,
    requestId: nat,
    pending: set<nat>,
    buffer: string,
    initialized: bool,
    started: bool,
    timers: set<nat>,
    issued: seq<nat>,
    stream: string,
    lines: seq<string>,
    log: seq<Settled>)

  const START := State(false, false, 0, {}, "", false, false, {}, [], "", [], [])

  datatype Event =
    | Spawned(pipes: bool)
    | Chunk(text: string)
    | Sent
    | Expired(id: nat)
    | Broken
    | Exited
    | Unwritable
    | Handshaken
    | Stopped

  // ----- Splitting the stream -----

  /** The parts between newlines, an unterminated tail last. */
  function Split(s: string): (parts: seq<string>)
    ensures |parts| > 0
  {
    if s == "" then [""]
    else
      var n := |s| - 1;
      var front := Split(s[..n]);
      if s[n] == '\n' then front + [""]
      else front[..|front| - 1] + [front[|front| - 1] + [s[n]]]
  }

  function Complete(parts: seq<string>): seq<string>
    requires |parts| > 0
  {
    parts[..|parts| - 1]
  }

  function Tail(parts: seq<string>): string
    requires |parts| > 0
  {
    parts[|parts| - 1]
  }

  function Joined(parts: seq<string>): string
    requires |parts| > 0
  {
    if |parts| == 1 then parts[0] else Joined(Complete(parts)) + "\n" + Tail(parts)
  }

  predicate Line(s: string) {
    '\n' !in s
  }

  predicate Lines(parts: seq<string>) {
    forall i | 0 <= i < |parts| :: Line(parts[i])
  }

  /** The parts hold no newline and put together give the text. */
  lemma {:induction false} SplitJoins(s: string)
    ensures Lines(Split(s)) && Joined(Split(s)) == s
  {
    if s != "" {
      var n := |s| - 1;
      var front := Split(s[..n]);
      SplitJoins(s[..n]);
      assert s == s[..n] + [s[n]];
      var parts := Split(s);
      if s[n] == '\n' {
        assert Complete(parts) == front && Tail(parts) == "";
      } else {
        assert Complete(parts) == Complete(front) && Tail(parts) == Tail(front) + [s[n]];
        assert Line(Tail(front));
      }
    }
  }

  lemma SplitSnoc(s: string, c: char)
    ensures Split(s + [c]) == if c == '\n' then Split(s) + [""] else Complete(Split(s)) + [Tail(Split(s)) + [c]]
  {
    assert (s + [c])[..|s|] == s;
  }

  lemma JoinedPush(front: seq<string>, tail: string)
    ensures Joined(front + [tail]) == if front == [] then tail else Joined(front) + "\n" + tail
  {
    assert Complete(front + [tail]) == front && Tail(front + [tail]) == tail;
  }

  lemma JoinedExtended(front: seq<string>, tail: string, c: char)
    ensures Joined(front + [tail + [c]]) == Joined(front + [tail]) + [c]
  {
    JoinedPush(front, tail);
    JoinedPush(front, tail + [c]);
    hide Joined;
    if front != [] {
      assert Joined(front) + "\n" + (tail + [c]) == Joined(front) + "\n" + tail + [c];
    }
  }

  lemma JoinedClosed(parts: seq<string>)
    requires |parts| > 0
    ensures Joined(parts + [""]) == Joined(parts) + ['\n']
  {
    JoinedPush(parts, "");
    hide Joined;
    assert Joined(parts) + "\n" + "" == Joined(parts) + ['\n'];
  }

  lemma SplitEmpty()
    ensures Split("") == [""]
  {
  }

  /** No other parts do. */
  lemma {:induction false} SplitUnique(parts: seq<string>)
    requires |parts| > 0 && Lines(parts)
    ensures Split(Joined(parts)) == parts
    decreases |parts|, |parts[|parts| - 1]|
  {
    hide Split, Joined;
    var front, tail := Complete(parts), Tail(parts);
    assert front + [tail] == parts;
    if tail != "" {
      var c := tail[|tail| - 1];
      var less := tail[..|tail| - 1];
      LinesShorter(parts);
      assert less + [c] == tail;
      SplitUnique(front + [less]);
      JoinedExtended(front, less, c);
      SplitSnoc(Joined(front + [less]), c);
      assert Complete(front + [less]) == front;
    } else if |parts| > 1 {
      SplitUnique(front);
      SplitSnoc(Joined(front), '\n');
      JoinedClosed(front);
    } else {
      JoinedPush([], "");
      assert [] + [""] == parts;
      SplitEmpty();
    }
  }

  lemma LinesShorter(parts: seq<string>)
    requires |parts| > 0 && Lines(parts) && Tail(parts) != ""
    ensures var tail := Tail(parts);
      Lines(Complete(parts) + [tail[..|tail| - 1]]) && tail[|tail| - 1] != '\n'
  {
    var tail := Tail(parts);
    assert Line(tail) && tail[|tail| - 1] in tail;
  }

  /** Splitting a longer text only splits again from the last newline on. */
  lemma {:induction false} SplitAppend(a: string, b: string)
    ensures Split(a + b) == Complete(Split(a)) + Split(Tail(Split(a)) + b)
    decreases |b|
  {
    hide Split;
    var tail := Tail(Split(a));
    if b == "" {
      assert a + b == a && tail + b == tail;
      SplitJoins(a);
      SplitUnique([tail]);
    } else {
      var n := |b| - 1;
      SplitAppend(a, b[..n]);
      SplitSnoc(a + b[..n], b[n]);
      SplitSnoc(tail + b[..n], b[n]);
      assert a + b == a + b[..n] + [b[n]] && tail + b == tail + b[..n] + [b[n]];
      var rest := Split(tail + b[..n]);
      assert Complete(Complete(Split(a)) + rest) == Complete(Split(a)) + Complete(rest);
      assert Tail(Complete(Split(a)) + rest) == Tail(rest);
    }
  }

  // ----- The events -----

  /** What a line says, if it is a message at all. */
  function Message(env: Env, line: string): Option<Reply> {
    var trimmed := env.trim(line);
    if trimmed == "" || trimmed[0] != '{' then None else env.json(trimmed)
  }

  predicate Bears(env: Env, line: string, id: nat) {
    var m := Message(env, line);
    m.Some? && m.value.id == Some(id)
  }

  function Handle(env: Env, s: State, line: string): State {
    var m := Message(env, line);
    var at := |s.lines|;
    var read := s.(lines := s.lines + [line]);
    if m.Some? && m.value.id.Some? && m.value.id.value in s.pending then
      var id := m.value.id.value;
      read.(pending := s.pending - {id},
            log := s.log + [Settled(id, if m.value.failed then Refused(at) else Answered(at, m.value.payload))])
    else read
  }

  function HandleAll(env: Env, s: State, lines: seq<string>): State {
    if lines == [] then s else Handle(env, HandleAll(env, s, lines[..|lines| - 1]), lines[|lines| - 1])
  }

  function Feed(env: Env, s: State, chunk: string): State {
    var parts := Split(s.buffer + chunk);
    HandleAll(env, s.(buffer := Tail(parts), stream := s.stream + chunk), Complete(parts))
  }

  /** The settlements of closing requests 1 to n that are pending, in order. */
  function Closing(pending: set<nat>, at: nat, n: nat): seq<Settled> {
    if n == 0 then []
    else Closing(pending, at, n - 1) + if n in pending then [Settled(n, Closed(at))] else []
  }

  function Rejected(s: State): State {
    s.(pending := {}, log := s.log + Closing(s.pending, |s.lines|, s.requestId))
  }

  predicate CanSend(s: State) {
    s.process && s.writable
  }

  function Send(s: State): State
    requires CanSend(s)
  {
    var id := s.requestId + 1;
    s.(requestId := id, pending := s.pending + {id}, timers := s.timers + {id}, issued := s.issued + [|s.lines|])
  }

  function Open(s: State, pipes: bool): State {
    var t := s.(process := true, started := true, writable := pipes);
    if pipes then Send(t) else t
  }

  function SettledOn(log: seq<Settled>, id: nat): seq<Settled> {
    if log == [] then []
    else
      var e := log[|log| - 1];
      SettledOn(log[..|log| - 1], id) + if e.id == id then [e] else []
  }

  predicate Connected(s: State) {
    var first := SettledOn(s.log, 1);
    |first| == 1 && first[0].how.Answered?
  }

  predicate Enabled(s: State, e: Event) {
    match e
    case Spawned(_) => !s.started
    case Sent => CanSend(s)
    case Expired(id) => id in s.timers
    case Handshaken => Connected(s)
    case _ => s.started
  }

  function Apply(env: Env, s: State, e: Event): State
    requires Enabled(s, e)
  {
    match e
    case Spawned(pipes) => Open(s, pipes)
    case Chunk(text) => Feed(env, s, text)
    case Sent => Send(s)
    case Expired(id) =>
      var t := s.(timers := s.timers - {id});
      if id in s.pending then
        t.(pending := s.pending - {id}, log := s.log + [Settled(id, TimedOut(|s.lines|))])
      else t
    case Broken => Rejected(s)
    case Exited => Rejected(s).(process := false)
    case Unwritable => s.(writable := false)
    case Handshaken => s.(initialized := true)
    case Stopped => s.(process := false, initialized := false)
  }

  // ----- Chunking does not matter -----

  lemma {:induction false} HandleAllAppend(env: Env, s: State, a: seq<string>, b: seq<string>)
    ensures HandleAll(env, s, a + b) == HandleAll(env, HandleAll(env, s, a), b)
    decreases |b|
  {
    if b == [] {
      assert a + b == a;
    } else {
      hide Handle;
      HandleAllAppend(env, s, a, b[..|b| - 1]);
      assert (a + b)[..|a + b| - 1] == a + b[..|b| - 1];
    }
  }

  /** Handling lines leaves the buffer and the stream alone and does not look at them. */
  lemma {:induction false} HandleAllFrame(env: Env, s: State, lines: seq<string>, buffer: string, stream: string)
    ensures HandleAll(env, s.(buffer := buffer, stream := stream), lines)
            == HandleAll(env, s, lines).(buffer := buffer, stream := stream)
    ensures var t := HandleAll(env, s, lines);
      t.buffer == s.buffer && t.stream == s.stream && t.lines == s.lines + lines
  {
    if lines != [] {
      hide Handle;
      var front := lines[..|lines| - 1];
      HandleAllFrame(env, s, front, buffer, stream);
      HandleFrame(env, HandleAll(env, s, front), lines[|lines| - 1], buffer, stream);
      assert lines == front + [lines[|lines| - 1]];
    }
  }

  lemma HandleFrame(env: Env, s: State, line: string, buffer: string, stream: string)
    ensures Handle(env, s.(buffer := buffer, stream := stream), line)
            == Handle(env, s, line).(buffer := buffer, stream := stream)
    ensures var t := Handle(env, s, line); t.buffer == s.buffer && t.stream == s.stream && t.lines == s.lines + [line]
  {
    hide Message;
  }

  /** Two chunks have the effect of one: on the buffer, the requests, the settlements and all the rest. */
  lemma FeedTwice(env: Env, s: State, a: string, b: string)
    ensures Feed(env, Feed(env, s, a), b) == Feed(env, s, a + b)
  {
    hide Handle, HandleAll, Split;
    var first := Split(s.buffer + a);
    var tail := Tail(first);
    var second := Split(tail + b);
    SplitAppend(s.buffer + a, b);
    assert s.buffer + (a + b) == s.buffer + a + b && s.stream + a + b == s.stream + (a + b);
    var whole := Split(s.buffer + (a + b));
    assert whole == Complete(first) + second;
    assert Tail(whole) == Tail(second) && Complete(whole) == Complete(first) + Complete(second);
    HandleAllFrame(env, s, Complete(first), tail, s.stream + a);
    var mid := HandleAll(env, s, Complete(first));
    HandleAllFrame(env, mid, Complete(second), Tail(second), s.stream + a + b);
    HandleAllFrame(env, s, Complete(first) + Complete(second), Tail(second), s.stream + a + b);
    HandleAllAppend(env, s, Complete(first), Complete(second));
  }

  function FeedAll(env: Env, s: State, chunks: seq<string>): State {
    if chunks == [] then s else Feed(env, FeedAll(env, s, chunks[..|chunks| - 1]), chunks[|chunks| - 1])
  }

  function Flat(chunks: seq<string>): string {
    if chunks == [] then "" else Flat(chunks[..|chunks| - 1]) + chunks[|chunks| - 1]
  }

  /** However the output is cut, the state afterwards is that of the output in one piece. */
  lemma {:induction false} ChunkingIrrelevant(env: Env, s: State, chunks: seq<string>)
    requires Line(s.buffer)
    ensures FeedAll(env, s, chunks) == Feed(env, s, Flat(chunks))
  {
    hide Feed;
    if chunks == [] {
      FeedNothing(env, s);
    } else {
      ChunkingIrrelevant(env, s, chunks[..|chunks| - 1]);
      FeedTwice(env, s, Flat(chunks[..|chunks| - 1]), chunks[|chunks| - 1]);
    }
  }

  lemma FeedNothing(env: Env, s: State)
    requires Line(s.buffer)
    ensures Feed(env, s, "") == s
  {
    SplitUnique([s.buffer]);
    assert s.buffer + "" == s.buffer && s.stream + "" == s.stream;
  }

  /** The output arrives in chunks of bytes, each decoded by itself. */
  function FeedBytes(env: Env, s: State, chunks: seq<Utf8.Bytes>): State {
    FeedAll(env, s, Decoding.DecodeEach(env.character, chunks))
  }

  lemma {:induction false} FlatJoined(texts: seq<string>)
    ensures Flat(texts) == Decoding.Joined(texts)
  {
    if texts != [] { FlatJoined(texts[..|texts| - 1]); }
  }

  lemma FeedStream(env: Env, s: State, text: string)
    requires Reassembled(s)
    ensures var t := Feed(env, s, text);
      Reassembled(t) && t.stream == s.stream + text && Joined(t.lines + [t.buffer]) == t.stream
  {
    hide Split, HandleAll;
    FeedReassembled(env, s, text);
    var parts := Split(s.buffer + text);
    HandleAllFrame(env, s.(buffer := Tail(parts), stream := s.stream + text), Complete(parts), Tail(parts),
                   s.stream + text);
    SplitJoins(Feed(env, s, text).stream);
  }

  /** Chunks of bytes give the lines of the whole output exactly when each is well formed by itself: a cut inside a
      character changes a line or the buffer. */
  lemma BytesExactly(env: Env, s: State, chunks: seq<Utf8.Bytes>)
    requires Reassembled(s) && Utf8.WellFormed(Decoding.Flat(chunks))
    ensures var cut := FeedBytes(env, s, chunks);
      var whole := Feed(env, s, Decoding.Decode(env.character, Decoding.Flat(chunks)));
      (Decoding.EachWellFormed(chunks) ==> cut == whole) &&
      (cut.lines == whole.lines && cut.buffer == whole.buffer <==> Decoding.EachWellFormed(chunks))
  {
    hide Feed, Reassembled, Split, Joined;
    var texts := Decoding.DecodeEach(env.character, chunks);
    var text := Decoding.Decode(env.character, Decoding.Flat(chunks));
    assert Line(s.buffer) by { BufferIsLine(s); }
    ChunkingIrrelevant(env, s, texts);
    FlatJoined(texts);
    Decoding.DecodedExactly(env.character, chunks);
    FeedStream(env, s, Flat(texts));
    FeedStream(env, s, text);
    Suffixes(s.stream, Flat(texts), text);
  }

  lemma BufferIsLine(s: State)
    requires Reassembled(s)
    ensures Line(s.buffer)
  {
  }

  lemma Suffixes(front: string, a: string, b: string)
    ensures front + a == front + b <==> a == b
  {
    assert (front + a)[|front|..] == a && (front + b)[|front|..] == b;
  }

  // ----- What every event keeps -----

  predicate NoReply(env: Env, lines: seq<string>, from: nat, to: nat, id: nat) {
    to <= |lines| && forall k | from <= k < to :: !Bears(env, lines[k], id)
  }

  /** Request id was settled by the first line bearing its id, or before any came. */
  predicate Justified(env: Env, lines: seq<string>, from: nat, id: nat, how: How) {
    from <= how.at && NoReply(env, lines, from, how.at, id) &&
    match how
    case Answered(k, v) => k < |lines| && Message(env, lines[k]) == Some(Reply(Some(id), false, v))
    case Refused(k) => k < |lines| && Bears(env, lines[k], id) && Message(env, lines[k]).value.failed
    case TimedOut(_) => true
    case Closed(_) => true
  }

  /** A request that was sent is pending with its timer running, or was settled exactly once. */
  predicate Account(env: Env, s: State, id: nat) {
    0 < id <= |s.issued| && s.issued[id - 1] <= |s.lines| &&
    if id in s.pending then
      id in s.timers && SettledOn(s.log, id) == [] && NoReply(env, s.lines, s.issued[id - 1], |s.lines|, id)
    else
      |SettledOn(s.log, id)| == 1 && SettledOn(s.log, id)[0].id == id &&
      Justified(env, s.lines, s.issued[id - 1], id, SettledOn(s.log, id)[0].how)
  }

  ghost predicate Accounts(env: Env, s: State) {
    |s.issued| == s.requestId &&
    (forall id | 0 < id <= s.requestId :: Account(env, s, id)) &&
    (forall id <- s.pending :: 0 < id <= s.requestId) &&
    (forall e <- s.log :: 0 < e.id <= s.requestId)
  }

  predicate Reassembled(s: State) {
    Split(s.stream) == s.lines + [s.buffer] && Line(s.buffer)
  }

  predicate Lifecycle(s: State) {
    (s.process ==> s.started) && (s.initialized ==> Connected(s))
  }

  ghost predicate Inv(env: Env, s: State) {
    Accounts(env, s) && Reassembled(s) && Lifecycle(s)
  }

  lemma SettledSnoc(log: seq<Settled>, e: Settled, id: nat)
    ensures SettledOn(log + [e], id) == SettledOn(log, id) + if e.id == id then [e] else []
  {
    assert (log + [e])[..|log|] == log;
  }

  lemma {:induction false} SettledNone(log: seq<Settled>, id: nat)
    requires forall e <- log :: e.id != id
    ensures SettledOn(log, id) == []
  {
    if log != [] {
      SettledNone(log[..|log| - 1], id);
    }
  }

  lemma {:induction false} SettledAppend(log: seq<Settled>, more: seq<Settled>, id: nat)
    ensures SettledOn(log + more, id) == SettledOn(log, id) + SettledOn(more, id)
  {
    if more == [] {
      assert log + more == log;
    } else {
      SettledAppend(log, more[..|more| - 1], id);
      assert (log + more)[..|log + more| - 1] == log + more[..|more| - 1];
    }
  }

  lemma {:induction false} ClosingOn(pending: set<nat>, at: nat, n: nat, id: nat)
    ensures SettledOn(Closing(pending, at, n), id) ==
            if 0 < id <= n && id in pending then [Settled(id, Closed(at))] else []
    ensures forall e <- Closing(pending, at, n) :: 0 < e.id <= n
  {
    if n > 0 {
      ClosingOn(pending, at, n - 1, id);
      var front := Closing(pending, at, n - 1);
      SettledSnoc(front, Settled(n, Closed(at)), id);
      assert n !in pending ==> Closing(pending, at, n) == front;
      assert n in pending ==> Closing(pending, at, n) == front + [Settled(n, Closed(at))];
    }
  }

  lemma NoReplyMore(env: Env, lines: seq<string>, line: string, from: nat, to: nat, id: nat)
    requires NoReply(env, lines, from, to, id)
    ensures NoReply(env, lines + [line], from, to, id)
    ensures to == |lines| && !Bears(env, line, id) ==> NoReply(env, lines + [line], from, to + 1, id)
  {
  }

  lemma JustifiedMore(env: Env, lines: seq<string>, line: string, from: nat, id: nat, how: How)
    requires Justified(env, lines, from, id, how)
    ensures Justified(env, lines + [line], from, id, how)
  {
    NoReplyMore(env, lines, line, from, how.at, id);
  }

  lemma HandleAccount(env: Env, s: State, line: string, id: nat)
    requires Accounts(env, s) && 0 < id <= s.requestId
    ensures Account(env, Handle(env, s, line), id)
  {
    assert Account(env, s, id);
    hide Accounts, Message;
    if id !in s.pending {
      HandleSettled(env, s, line, id);
    } else if Bears(env, line, id) {
      HandleReply(env, s, line, id);
    } else {
      HandleOther(env, s, line, id);
    }
  }

  lemma HandleSettled(env: Env, s: State, line: string, id: nat)
    requires Account(env, s, id) && id !in s.pending
    ensures Account(env, Handle(env, s, line), id)
  {
    hide NoReply, Justified, Message;
    var t := Handle(env, s, line);
    if |t.log| > |s.log| {
      SettledSnoc(s.log, t.log[|s.log|], id);
    }
    JustifiedMore(env, s.lines, line, s.issued[id - 1], id, SettledOn(s.log, id)[0].how);
  }

  lemma HandleReply(env: Env, s: State, line: string, id: nat)
    requires Account(env, s, id) && id in s.pending && Bears(env, line, id)
    ensures Account(env, Handle(env, s, line), id)
  {
    hide NoReply, Message;
    var t := Handle(env, s, line);
    SettledSnoc(s.log, t.log[|s.log|], id);
    NoReplyMore(env, s.lines, line, s.issued[id - 1], |s.lines|, id);
    assert t.lines[|s.lines|] == line;
  }

  lemma HandleOther(env: Env, s: State, line: string, id: nat)
    requires Account(env, s, id) && id in s.pending && !Bears(env, line, id)
    ensures Account(env, Handle(env, s, line), id)
  {
    hide NoReply, Message;
    var t := Handle(env, s, line);
    if |t.log| > |s.log| {
      SettledSnoc(s.log, t.log[|s.log|], id);
    }
    NoReplyMore(env, s.lines, line, s.issued[id - 1], |s.lines|, id);
  }

  lemma HandleAccounts(env: Env, s: State, line: string)
    requires Accounts(env, s)
    ensures Accounts(env, Handle(env, s, line))
  {
    var t := Handle(env, s, line);
    forall id | 0 < id <= t.requestId ensures Account(env, t, id) {
      HandleAccount(env, s, line, id);
    }
  }

  lemma HandleLifecycle(env: Env, s: State, line: string)
    requires Accounts(env, s) && Lifecycle(s)
    ensures Lifecycle(Handle(env, s, line))
  {
    var t := Handle(env, s, line);
    if |t.log| > |s.log| {
      SettledSnoc(s.log, t.log[|s.log|], 1);
      if s.initialized {
        SettledIssued(env, s, 1);
      }
    }
  }

  lemma SettledIssued(env: Env, s: State, id: nat)
    requires Accounts(env, s) && SettledOn(s.log, id) != []
    ensures 0 < id <= s.requestId && id !in s.pending
  {
    if !(0 < id <= s.requestId) {
      SettledNone(s.log, id);
    } else {
      assert Account(env, s, id);
    }
  }

  lemma {:induction false} HandleAllInv(env: Env, s: State, lines: seq<string>)
    requires Accounts(env, s) && Lifecycle(s)
    ensures Accounts(env, HandleAll(env, s, lines)) && Lifecycle(HandleAll(env, s, lines))
  {
    hide Accounts, Lifecycle, Handle;
    if lines != [] {
      var front := lines[..|lines| - 1];
      HandleAllInv(env, s, front);
      HandleAccounts(env, HandleAll(env, s, front), lines[|lines| - 1]);
      HandleLifecycle(env, HandleAll(env, s, front), lines[|lines| - 1]);
    }
  }

  lemma Rebuffered(env: Env, s: State, buffer: string, stream: string)
    requires Accounts(env, s) && Lifecycle(s)
    ensures Accounts(env, s.(buffer := buffer, stream := stream)) && Lifecycle(s.(buffer := buffer, stream := stream))
  {
    var t := s.(buffer := buffer, stream := stream);
    forall id | 0 < id <= t.requestId ensures Account(env, t, id) {
      assert Account(env, s, id);
    }
  }

  lemma FeedReassembled(env: Env, s: State, chunk: string)
    requires Reassembled(s)
    ensures Reassembled(Feed(env, s, chunk))
  {
    hide HandleAll, Split;
    var parts := Split(s.buffer + chunk);
    var t := s.(buffer := Tail(parts), stream := s.stream + chunk);
    HandleAllFrame(env, t, Complete(parts), Tail(parts), s.stream + chunk);
    SplitAppend(s.stream, chunk);
    assert Tail(s.lines + [s.buffer]) == s.buffer && Complete(s.lines + [s.buffer]) == s.lines;
    assert Complete(parts) + [Tail(parts)] == parts;
    assert s.lines + (Complete(parts) + [Tail(parts)]) == s.lines + Complete(parts) + [Tail(parts)];
    SplitJoins(s.buffer + chunk);
  }

  lemma FeedInv(env: Env, s: State, chunk: string)
    requires Inv(env, s)
    ensures Inv(env, Feed(env, s, chunk))
  {
    hide Accounts, Lifecycle, HandleAll, Split, Reassembled;
    var parts := Split(s.buffer + chunk);
    Rebuffered(env, s, Tail(parts), s.stream + chunk);
    HandleAllInv(env, s.(buffer := Tail(parts), stream := s.stream + chunk), Complete(parts));
    FeedReassembled(env, s, chunk);
  }

  lemma SendAccounts(env: Env, s: State)
    requires Accounts(env, s) && CanSend(s)
    ensures Accounts(env, Send(s))
  {
    var t := Send(s);
    forall id | 0 < id <= t.requestId ensures Account(env, t, id) {
      if id <= s.requestId {
        assert Account(env, s, id);
      } else {
        SettledNone(s.log, id);
      }
    }
  }

  lemma RejectAccounts(env: Env, s: State)
    requires Accounts(env, s)
    ensures Accounts(env, Rejected(s))
  {
    var t := Rejected(s);
    var more := Closing(s.pending, |s.lines|, s.requestId);
    forall id | 0 < id <= t.requestId ensures Account(env, t, id) {
      assert Account(env, s, id);
      SettledAppend(s.log, more, id);
      ClosingOn(s.pending, |s.lines|, s.requestId, id);
    }
    ClosingOn(s.pending, |s.lines|, s.requestId, 0);
  }

  lemma ExpireAccounts(env: Env, s: State, id: nat)
    requires Accounts(env, s) && id in s.timers
    ensures Accounts(env, Apply(env, s, Expired(id)))
  {
    var t := Apply(env, s, Expired(id));
    forall i | 0 < i <= t.requestId ensures Account(env, t, i) {
      assert Account(env, s, i);
      SettledSnoc(s.log, Settled(id, TimedOut(|s.lines|)), i);
    }
  }

  /** What was settled stays settled the same way. */
  lemma LogGrows(env: Env, s: State, e: Event)
    requires Inv(env, s) && Enabled(s, e)
    ensures s.log <= Apply(env, s, e).log && s.requestId <= Apply(env, s, e).requestId
  {
    if e.Chunk? {
      HandleAllGrows(env, s.(buffer := Tail(Split(s.buffer + e.text)), stream := s.stream + e.text),
                     Complete(Split(s.buffer + e.text)));
    }
  }

  lemma {:induction false} HandleAllGrows(env: Env, s: State, lines: seq<string>)
    ensures s.log <= HandleAll(env, s, lines).log && s.requestId == HandleAll(env, s, lines).requestId
  {
    if lines != [] {
      HandleAllGrows(env, s, lines[..|lines| - 1]);
    }
  }

  lemma ConnectedStays(env: Env, s: State, t: State)
    requires Accounts(env, s) && Accounts(env, t) && s.log <= t.log && Connected(s)
    ensures Connected(t)
  {
    SettledAppend(s.log, t.log[|s.log|..], 1);
    assert s.log + t.log[|s.log|..] == t.log;
    SettledIssued(env, t, 1);
    assert Account(env, t, 1);
  }

  lemma EventAccounts(env: Env, s: State, e: Event)
    requires Inv(env, s) && Enabled(s, e)
    ensures Accounts(env, Apply(env, s, e))
  {
    match e
    case Spawned(pipes) =>
      var t := s.(process := true, started := true, writable := pipes);
      SameAccounts(env, s, t);
      if pipes { SendAccounts(env, t); }
    case Chunk(text) => FeedInv(env, s, text);
    case Sent => SendAccounts(env, s);
    case Expired(id) => ExpireAccounts(env, s, id);
    case Broken => RejectAccounts(env, s);
    case Exited =>
      RejectAccounts(env, s);
      SameAccounts(env, Rejected(s), Apply(env, s, e));
    case _ => SameAccounts(env, s, Apply(env, s, e));
  }

  lemma SameAccounts(env: Env, s: State, t: State)
    requires Accounts(env, s) && t == s.(process := t.process, started := t.started, writable := t.writable,
                                         initialized := t.initialized)
    ensures Accounts(env, t)
  {
    forall id | 0 < id <= t.requestId ensures Account(env, t, id) {
      assert Account(env, s, id);
    }
  }

  lemma EventInv(env: Env, s: State, e: Event)
    requires Inv(env, s) && Enabled(s, e)
    ensures Inv(env, Apply(env, s, e))
  {
    EventAccounts(env, s, e);
    LogGrows(env, s, e);
    if e.Chunk? {
      FeedInv(env, s, e.text);
    } else {
      hide Accounts, Connected, Closing, Feed, Split;
      var t := Apply(env, s, e);
      assert t.buffer == s.buffer && t.lines == s.lines && t.stream == s.stream;
      if t.initialized && s.initialized {
        ConnectedStays(env, s, t);
      }
    }
  }

  // ----- Runs -----

  ghost predicate Run(env: Env, states: seq<State>, events: seq<Event>) {
    |states| == |events| + 1 && states[0] == START &&
    forall k | 0 <= k < |events| :: Enabled(states[k], events[k]) && states[k + 1] == Apply(env, states[k], events[k])
  }

  lemma {:induction false} RunInv(env: Env, states: seq<State>, events: seq<Event>, k: nat)
    requires Run(env, states, events) && k < |states|
    ensures Inv(env, states[k])
  {
    hide Inv, Enabled, Apply;
    if k == 0 {
      StartInv(env);
    } else {
      RunInv(env, states, events, k - 1);
      EventInv(env, states[k - 1], events[k - 1]);
    }
  }

  lemma StartInv(env: Env)
    ensures Inv(env, START)
  {
    assert Split("") == [""];
  }

  /** At every moment the lines handled are the lines of the whole output so far, and the buffer its tail. */
  lemma LinesOfStream(env: Env, states: seq<State>, events: seq<Event>, k: nat)
    requires Run(env, states, events) && k < |states|
    ensures var s := states[k]; Complete(Split(s.stream)) == s.lines && Tail(Split(s.stream)) == s.buffer
  {
    RunInv(env, states, events, k);
  }

  /** Conservation: a request sent is pending and unsettled, or no longer pending and settled exactly once, by the
      first line bearing its id since it was sent, or by the timer or the end of the process before such a line. */
  lemma SettledOnce(env: Env, states: seq<State>, events: seq<Event>, k: nat, id: nat)
    requires Run(env, states, events) && k < |states| && 0 < id <= states[k].requestId
    ensures var s := states[k];
      |s.issued| == s.requestId && |SettledOn(s.log, id)| == (if id in s.pending then 0 else 1) &&
      (id in s.pending ==> NoReply(env, s.lines, s.issued[id - 1], |s.lines|, id)) &&
      (id !in s.pending ==> Justified(env, s.lines, s.issued[id - 1], id, SettledOn(s.log, id)[0].how))
  {
    RunInv(env, states, events, k);
    assert Account(env, states[k], id);
  }

  /** Nothing but a request that was sent is ever settled. */
  lemma OnlySentSettled(env: Env, states: seq<State>, events: seq<Event>, k: nat, id: nat)
    requires Run(env, states, events) && k < |states| && (id in states[k].pending || SettledOn(states[k].log, id) != [])
    ensures 0 < id <= states[k].requestId
  {
    RunInv(env, states, events, k);
    if id !in states[k].pending {
      SettledIssued(env, states[k], id);
    }
  }

  /** Once every timer has fired, nothing is pending any more. */
  lemma TimersSettle(env: Env, states: seq<State>, events: seq<Event>, k: nat)
    requires Run(env, states, events) && k < |states| && states[k].timers == {}
    ensures states[k].pending == {}
  {
    RunInv(env, states, events, k);
    forall id | id in states[k].pending ensures id in states[k].timers {
      PendingTimed(env, states[k], id);
    }
  }

  lemma PendingTimed(env: Env, s: State, id: nat)
    requires Accounts(env, s) && id in s.pending
    ensures id in s.timers
  {
    assert Account(env, s, id);
  }

  /** After the process has exited nothing is pending, ever again. */
  lemma {:induction false} NothingPendingAfterExit(env: Env, states: seq<State>, events: seq<Event>, i: nat, k: nat)
    requires Run(env, states, events) && i < k < |states| && events[i] == Exited
    ensures states[k].pending == {} && !states[k].process && states[k].started
    decreases k
  {
    RunInv(env, states, events, k - 1);
    var s, e := states[k - 1], events[k - 1];
    assert Enabled(s, e) && states[k] == Apply(env, s, e);
    if i < k - 1 {
      NothingPendingAfterExit(env, states, events, i, k - 1);
      if e.Chunk? {
        HandleAllIdle(env, s.(buffer := Tail(Split(s.buffer + e.text)), stream := s.stream + e.text),
                      Complete(Split(s.buffer + e.text)));
      }
    }
  }

  lemma {:induction false} HandleAllIdle(env: Env, s: State, lines: seq<string>)
    requires s.pending == {}
    ensures var t := HandleAll(env, s, lines); t.pending == {} && t.process == s.process && t.started == s.started
  {
    if lines != [] {
      HandleAllIdle(env, s, lines[..|lines| - 1]);
    }
  }

  /** The client reports itself running only after its first request, the handshake, was answered. */
  lemma RunningMeansConnected(env: Env, states: seq<State>, events: seq<Event>, k: nat)
    requires Run(env, states, events) && k < |states| && states[k].initialized && states[k].process
    ensures states[k].started && Connected(states[k])
  {
    RunInv(env, states, events, k);
  }

  // ----- The client in place -----

  class McpClient {
    const env: Env
    var process: bool
    var writable: bool
    var requestId: nat
    var pending: set<nat>
    var buffer: string
    var initialized: bool
    ghost var started: bool
    ghost var timers: set<nat>
    ghost var issued: seq<nat>
    ghost var stream: string
    ghost var lines: seq<string>
    ghost var log: seq<Settled>

    ghost function View(): State
      reads this
    {
      State(process, writable, requestId, pending, buffer, initialized, started, timers, issued, stream, lines, log)
    }

    constructor (env: Env)
      ensures this.env == env && View() == START
    {
      this.env := env;
      process, writable, requestId, pending, buffer, initialized := false, false, 0, {}, "", false;
      started, timers, issued, stream, lines, log := false, {}, [], "", [], [];
    }

    /** The part of start before the handshake's answer; the host says whether the pipes are there. */
    method Start(pipes: bool)
      requires Enabled(View(), Spawned(pipes))
      modifies this
      ensures View() == Apply(env, old(View()), Spawned(pipes))
    {
      process, writable, started := true, pipes, true;
      if pipes {
        var id := SendRequest();
      }
    }

    /** None when the request is rejected at once, for want of a process to write to. */
    method SendRequest() returns (id: Option<nat>)
      modifies this
      ensures id.Some? <==> old(CanSend(View()))
      ensures id.Some? ==> View() == Apply(env, old(View()), Sent) && id.value == requestId
      ensures id.None? ==> View() == old(View())
    {
      if !process || !writable {
        return None;
      }
      requestId := requestId + 1;
      pending := pending + {requestId};
      timers := timers + {requestId};
      issued := issued + [|lines|];
      id := Some(requestId);
    }

    /** A chunk of bytes arrives and is decoded by itself. */
    method Data(chunk: Utf8.Bytes)
      requires started
      modifies this
      ensures View() == Apply(env, old(View()), Chunk(Decoding.Decode(env.character, chunk)))
    {
      var text := Decoding.Decode(env.character, chunk);
      buffer := buffer + text;
      stream := stream + text;
      ProcessBuffer();
    }

    method ProcessBuffer()
      modifies this
      ensures var parts := Split(old(buffer));
        View() == HandleAll(env, old(View()).(buffer := Tail(parts)), Complete(parts))
    {
      var parts := Split(buffer);
      var ls := parts[..|parts| - 1];
      buffer := parts[|parts| - 1];
      ghost var s := View();
      assert ls[..0] == [];
      for k := 0 to |ls|
        invariant View() == HandleAll(env, s, ls[..k])
      {
        assert ls[..k + 1][..k] == ls[..k];
        ProcessLine(ls[k]);
      }
      assert ls[..|ls|] == ls;
    }

    method ProcessLine(line: string)
      modifies this
      ensures View() == Handle(env, old(View()), line)
    {
      lines := lines + [line];
      var trimmed := env.trim(line);
      if trimmed == "" || trimmed[0] != '{' {
        return;
      }
      match env.json(trimmed) {
        case None =>
        case Some(msg) =>
          if msg.id.Some? && msg.id.value in pending {
            var id := msg.id.value;
            pending := pending - {id};
            log := log + [Settled(id, if msg.failed then Refused(|lines| - 1) else Answered(|lines| - 1, msg.payload))];
          }
      }
    }

    method Timeout(id: nat)
      requires id in timers
      modifies this
      ensures View() == Apply(env, old(View()), Expired(id))
    {
      timers := timers - {id};
      if id in pending {
        pending := pending - {id};
        log := log + [Settled(id, TimedOut(|lines|))];
      }
    }

    method RejectAll()
      requires forall id <- pending :: 0 < id <= requestId
      modifies this
      ensures View() == Rejected(old(View()))
    {
      var n := 0;
      assert log + Closing(pending, |lines|, 0) == log;
      while n < requestId
        invariant n <= requestId
        invariant View() == old(View()).(pending := pending, log := log)
        invariant pending == set id <- old(pending) | n < id
        invariant log == old(log) + Closing(old(pending), |lines|, n)
      {
        n := n + 1;
        if n in pending {
          log := log + [Settled(n, Closed(|lines|))];
          pending := pending - {n};
        }
      }
    }

    method OnError()
      requires started && forall id <- pending :: 0 < id <= requestId
      modifies this
      ensures View() == Apply(env, old(View()), Broken)
    {
      RejectAll();
    }

    method OnExit()
      requires started && forall id <- pending :: 0 < id <= requestId
      modifies this
      ensures View() == Apply(env, old(View()), Exited)
    {
      RejectAll();
      process := false;
    }

    method OnConnected()
      requires Connected(View())
      modifies this
      ensures View() == Apply(env, old(View()), Handshaken)
    {
      initialized := true;
    }

    method Stop()
      requires started
      modifies this
      ensures View() == Apply(env, old(View()), Stopped)
    {
      process := false;
      initialized := false;
    }

    predicate IsRunning()
      reads this
    {
      initialized && process
    }
  }
}
