/** Pairing the messages of imported conversations into turns. */
module Pairing {
  import opened Wrappers
  import Text

  datatype Block = Block(isUser: bool, ts: string, text: string, sid: string)
  datatype Turn = Turn(ts: string, user: string, assistant: string, sid: string)

  // ----- The pairing, read off a list of blocks -----

  /** The reply to block i: the next block, unless the user speaks again or, if `strict`, its session is another. */
  function ReplyTo(s: seq<Block>, i: nat, strict: bool): string
    requires i < |s|
  {
    if i + 1 < |s| && !s[i + 1].isUser && (strict ==> s[i + 1].sid == s[i].sid) then s[i + 1].text else ""
  }

  function TurnAt(s: seq<Block>, i: nat, strict: bool): Turn
    requires i < |s|
  {
    Turn(s[i].ts, s[i].text, ReplyTo(s, i, strict), s[i].sid)
  }

  /** The positions of the user's blocks among the first k. */
  function UserBlocks(s: seq<Block>, k: nat): (u: seq<nat>)
    requires k <= |s|
    ensures forall i | 0 <= i < |u| :: u[i] < k && s[u[i]].isUser
    ensures forall i, j | 0 <= i < j < |u| :: u[i] < u[j]
  {
    if k == 0 then [] else UserBlocks(s, k - 1) + if s[k - 1].isUser then [k - 1] else []
  }

  /** One turn for each of the user's blocks, in order. */
  function TurnsTo(s: seq<Block>, k: nat, strict: bool): seq<Turn>
    requires k <= |s|
  {
    if k == 0 then []
    else TurnsTo(s, k - 1, strict) + if s[k - 1].isUser then [TurnAt(s, k - 1, strict)] else []
  }

  function Turns(s: seq<Block>, strict: bool): seq<Turn> {
    TurnsTo(s, |s|, strict)
  }

  lemma {:induction false} TurnsAtUsers(s: seq<Block>, k: nat, strict: bool)
    requires k <= |s|
    ensures |TurnsTo(s, k, strict)| == |UserBlocks(s, k)|
    ensures forall i | 0 <= i < |UserBlocks(s, k)| :: TurnsTo(s, k, strict)[i] == TurnAt(s, UserBlocks(s, k)[i], strict)
  {
    hide TurnAt;
    if k > 0 {
      TurnsAtUsers(s, k - 1, strict);
    }
  }

  lemma {:induction false} UserBlocksAll(s: seq<Block>, k: nat, i: nat)
    requires i < k <= |s| && s[i].isUser
    ensures i in UserBlocks(s, k)
  {
    if i < k - 1 {
      UserBlocksAll(s, k - 1, i);
    }
  }

  /** Every block of the user gives one turn, in order; the reply of an answered turn is the block right behind its
      prompt and comes before the next prompt, so no reply is used twice. */
  lemma TurnsExact(s: seq<Block>, strict: bool)
    ensures var u := UserBlocks(s, |s|);
      |Turns(s, strict)| == |u| && (forall i | 0 <= i < |s| :: s[i].isUser <==> i in u) &&
      (forall i, j | 0 <= i < j < |u| && ReplyTo(s, u[i], strict) != "" :: u[i] + 1 < u[j]) &&
      forall i | 0 <= i < |u| :: Turns(s, strict)[i] == TurnAt(s, u[i], strict)
  {
    TurnsAtUsers(s, |s|, strict);
    forall i | 0 <= i < |s| && s[i].isUser ensures i in UserBlocks(s, |s|) {
      UserBlocksAll(s, |s|, i);
    }
  }

  // ----- One more block -----

  predicate Answers(s: seq<Block>, b: Block, strict: bool) {
    s != [] && s[|s| - 1].isUser && (strict ==> b.sid == s[|s| - 1].sid)
  }

  lemma {:induction false} TurnsToSame(s: seq<Block>, b: Block, k: nat, strict: bool)
    requires k <= |s| && (k == |s| ==> b.isUser || !Answers(s, b, strict))
    ensures TurnsTo(s + [b], k, strict) == TurnsTo(s, k, strict)
  {
    if k > 0 {
      TurnsToSame(s, b, k - 1, strict);
      assert (s + [b])[k - 1] == s[k - 1];
    }
  }

  lemma TurnsSnoc(s: seq<Block>, b: Block, strict: bool)
    ensures b.isUser ==> TurnsTo(s + [b], |s|, strict) == Turns(s, strict)
    ensures !b.isUser && !Answers(s, b, strict) ==> Turns(s + [b], strict) == Turns(s, strict)
    ensures !b.isUser && Answers(s, b, strict) ==>
      var u := s[|s| - 1];
      Turns(s + [b], strict) == TurnsTo(s, |s| - 1, strict) + [Turn(u.ts, u.text, b.text, u.sid)]
  {
    if b.isUser || !Answers(s, b, strict) {
      TurnsToSame(s, b, |s|, strict);
    } else {
      TurnsToSame(s, b, |s| - 1, strict);
      var t, n := s + [b], |s| - 1;
      assert t[n] == s[n] && t[n + 1] == b;
      assert TurnsTo(t, n + 1, strict) == TurnsTo(t, n, strict) + [TurnAt(t, n, strict)];
    }
  }

  /** What the loops hold after the blocks s: the turns so far, and the last block when it waits for its reply. */
  ghost predicate Holds(s: seq<Block>, strict: bool, out: seq<Turn>, pending: Option<Block>) {
    if s != [] && s[|s| - 1].isUser then
      pending == Some(s[|s| - 1]) && out == TurnsTo(s, |s| - 1, strict)
    else pending == None && out == Turns(s, strict)
  }

  lemma HoldsFlushed(s: seq<Block>, strict: bool, out: seq<Turn>, pending: Option<Block>)
    requires Holds(s, strict, out, pending)
    ensures Turns(s, strict) ==
            if pending.Some? then out + [Turn(pending.value.ts, pending.value.text, "", pending.value.sid)] else out
  {
  }

  /** One round of a pairing loop. */
  method Pair(ghost s: seq<Block>, b: Block, strict: bool, out: seq<Turn>, pending: Option<Block>)
    returns (out': seq<Turn>, pending': Option<Block>)
    requires Holds(s, strict, out, pending)
    ensures Holds(s + [b], strict, out', pending')
  {
    HoldsFlushed(s, strict, out, pending);
    TurnsSnoc(s, b, strict);
    out', pending' := out, pending;
    if b.isUser {
      if pending.Some? {
        out' := out + [Turn(pending.value.ts, pending.value.text, "", pending.value.sid)];
      }
      pending' := Some(b);
    } else if pending.Some? {
      if !strict || pending.value.sid == b.sid {
        out' := out + [Turn(pending.value.ts, pending.value.text, b.text, pending.value.sid)];
      } else {
        out' := out + [Turn(pending.value.ts, pending.value.text, "", pending.value.sid)];
      }
      pending' := None;
    }
  }

  // ----- Claude exports -----

  /** A line of a session file or a message of a conversation, after JSON; `text` is already extracted and trimmed. */
  datatype Event = Unreadable | Event(kind: string, ts: string, text: string, sid: Option<string>)

  function CodeBlock(e: Event, stem: string): Option<Block> {
    if e.Unreadable? || (e.kind != "user" && e.kind != "assistant") || e.text == "" then None
    else Some(Block(e.kind == "user", e.ts, e.text, if e.sid.Some? then e.sid.value else stem))
  }

  function WebBlock(e: Event, sid: string): Option<Block> {
    if e.Unreadable? || e.text == "" then None
    else if e.kind == "human" || e.kind == "user" then Some(Block(true, e.ts, e.text, sid))
    else if e.kind == "assistant" || e.kind == "claude" then Some(Block(false, e.ts, e.text, sid))
    else None
  }

  function Read(read: Event -> Option<Block>, events: seq<Event>): seq<Block> {
    if events == [] then []
    else
      var b := read(events[|events| - 1]);
      Read(read, events[..|events| - 1]) + if b.Some? then [b.value] else []
  }

  method ParseEvents(read: Event -> Option<Block>, events: seq<Event>) returns (out: seq<Turn>)
    ensures out == Turns(Read(read, events), false)
  {
    hide Turns, TurnsTo;
    out := [];
    var pending: Option<Block> := None;
    HoldsNothing(false);
    for k := 0 to |events|
      invariant Holds(Read(read, events[..k]), false, out, pending)
    {
      ghost var s := Read(read, events[..k]);
      assert events[..k + 1][..k] == events[..k];
      match read(events[k]) {
        case None =>
          assert s + [] == s;
        case Some(b) => out, pending := Pair(s, b, false, out, pending);
      }
    }
    assert events[..|events|] == events;
    HoldsFlushed(Read(read, events), false, out, pending);
    if pending.Some? {
      out := out + [Turn(pending.value.ts, pending.value.text, "", pending.value.sid)];
    }
  }

  lemma HoldsNothing(strict: bool)
    ensures Holds([], strict, [], None)
  {
  }

  datatype Session = Session(name: string, events: seq<Event>)

  function FileTurns(f: Session): seq<Turn> {
    Turns(Read(e => CodeBlock(e, f.name), f.events), false)
  }

  function ConversationTurns(c: Session): seq<Turn> {
    Turns(Read(e => WebBlock(e, c.name), c.events), false)
  }

  function Gather(turns: Session -> seq<Turn>, sessions: seq<Session>): seq<Turn> {
    if sessions == [] then []
    else Gather(turns, sessions[..|sessions| - 1]) + turns(sessions[|sessions| - 1])
  }

  /** Over the readable session files; a prompt never waits for a reply in the next file. */
  method ParseClaudeCode(files: seq<Session>) returns (out: seq<Turn>)
    ensures out == Gather(FileTurns, files)
  {
    out := [];
    for k := 0 to |files|
      invariant out == Gather(FileTurns, files[..k])
    {
      assert files[..k + 1][..k] == files[..k];
      var turns := ParseEvents(e => CodeBlock(e, files[k].name), files[k].events);
      out := out + turns;
    }
    assert files[..|files|] == files;
  }

  method ParseClaudeWeb(conversations: seq<Session>) returns (out: seq<Turn>)
    ensures out == Gather(ConversationTurns, conversations)
  {
    out := [];
    for k := 0 to |conversations|
      invariant out == Gather(ConversationTurns, conversations[..k])
    {
      assert conversations[..k + 1][..k] == conversations[..k];
      var turns := ParseEvents(e => WebBlock(e, conversations[k].name), conversations[k].events);
      out := out + turns;
    }
    assert conversations[..|conversations|] == conversations;
  }

  function Prompts(turns: seq<Turn>): seq<string> {
    if turns == [] then [] else Prompts(turns[..|turns| - 1]) + [turns[|turns| - 1].user]
  }

  /** The texts the user spoke, in order. */
  function UserTexts(s: seq<Block>): seq<string> {
    if s == [] then []
    else UserTexts(s[..|s| - 1]) + if s[|s| - 1].isUser then [s[|s| - 1].text] else []
  }

  lemma {:induction false} PromptsTo(s: seq<Block>, k: nat, strict: bool)
    requires k <= |s|
    ensures Prompts(TurnsTo(s, k, strict)) == UserTexts(s[..k])
  {
    if k > 0 {
      PromptsTo(s, k - 1, strict);
      assert s[..k][..k - 1] == s[..k - 1];
      var front := TurnsTo(s, k - 1, strict);
      if s[k - 1].isUser {
        assert (front + [TurnAt(s, k - 1, strict)])[..|front|] == front;
      } else {
        assert front + [] == front && UserTexts(s[..k - 1]) + [] == UserTexts(s[..k - 1]);
      }
    }
  }

  /** The prompts of the turns are the texts of the user, each once and in order. */
  lemma PromptsConserved(s: seq<Block>, strict: bool)
    ensures Prompts(Turns(s, strict)) == UserTexts(s)
  {
    PromptsTo(s, |s|, strict);
    assert s[..|s|] == s;
  }

  // ----- Telegram: sessions -----

  datatype Message = Service | Message(from: string, ts: string, text: string)

  predicate IsNew(m: Message, self: string) {
    m.Message? && m.from == self && m.text != "" && (m.text == "/new" || "/new " <= m.text)
  }

  predicate IsBareCommand(text: string) {
    text != "" && (text[0] == '/' || Text.Lower(text) == "stop" || Text.Lower(text) == "wait")
  }

  predicate Kept(m: Message, self: string) {
    m.Message? && m.text != "" && !(m.from == self && (IsNew(m, self) || IsBareCommand(m.text)))
  }

  /** The number of the session message k falls in. */
  function SessionNo(msgs: seq<Message>, self: string, k: nat): nat
    requires k <= |msgs|
  {
    if k == 0 then 1 else SessionNo(msgs, self, k - 1) + if IsNew(msgs[k - 1], self) then 1 else 0
  }

  /** The user gives no /new from message a up to message b. */
  predicate Uninterrupted(msgs: seq<Message>, self: string, a: nat, b: nat) {
    b <= |msgs| && forall z | a <= z < b :: !IsNew(msgs[z], self)
  }

  lemma {:induction false} SessionsRise(msgs: seq<Message>, self: string, i: nat, j: nat)
    requires i <= j <= |msgs|
    ensures 1 <= SessionNo(msgs, self, i) <= SessionNo(msgs, self, j)
    ensures SessionNo(msgs, self, i) == SessionNo(msgs, self, j) <==> Uninterrupted(msgs, self, i, j)
    decreases i + j
  {
    hide IsNew;
    if i < j {
      SessionsRise(msgs, self, i, j - 1);
      assert Uninterrupted(msgs, self, i, j) <==>
             Uninterrupted(msgs, self, i, j - 1) && !IsNew(msgs[j - 1], self);
    } else if i > 0 {
      SessionsRise(msgs, self, i - 1, i - 1);
    }
  }

  function Digits(n: nat): (s: string)
    ensures s != ""
  {
    if n < 10 then [(n + '0' as int) as char] else Digits(n / 10) + [(n % 10 + '0' as int) as char]
  }

  function Zeros(n: nat): string {
    if n == 0 then "" else Zeros(n - 1) + "0"
  }

  /** "%04d". */
  function Padded(n: nat): string {
    var d := Digits(n);
    (if |d| < 4 then Zeros(4 - |d|) else "") + d
  }

  const PREFIX := "telegram-import-"

  function Guid(n: nat): string {
    PREFIX + Padded(n)
  }

  function Number(s: string): int {
    if s == "" then 0 else Number(s[..|s| - 1]) * 10 + (s[|s| - 1] as int - '0' as int)
  }

  lemma {:induction false} NumberZeros(k: nat, s: string)
    ensures Number(Zeros(k) + s) == Number(s)
    decreases |s|, k
  {
    var t := Zeros(k) + s;
    if s != "" {
      NumberZeros(k, s[..|s| - 1]);
      assert t[..|t| - 1] == Zeros(k) + s[..|s| - 1];
    } else if k > 0 {
      NumberZeros(k - 1, "");
      assert t == Zeros(k) && Zeros(k - 1) + "" == Zeros(k - 1);
      assert t[..|t| - 1] == Zeros(k - 1);
    }
  }

  lemma {:induction false} NumberDigits(n: nat)
    ensures Number(Digits(n)) == n
  {
    if n >= 10 {
      NumberDigits(n / 10);
      assert Digits(n)[..|Digits(n)| - 1] == Digits(n / 10);
    } else {
      assert Digits(n)[..0] == "";
    }
  }

  /** Two sessions have the same name only when they are the same. */
  lemma GuidInjective(m: nat, n: nat)
    ensures Guid(m) == Guid(n) <==> m == n
  {
    if Guid(m) == Guid(n) {
      assert Guid(m)[|PREFIX|..] == Padded(m) && Guid(n)[|PREFIX|..] == Padded(n);
      GuidNumber(m);
      GuidNumber(n);
    }
  }

  lemma GuidNumber(n: nat)
    ensures Number(Padded(n)) == n
  {
    NumberDigits(n);
    var d := Digits(n);
    if |d| < 4 {
      NumberZeros(4 - |d|, d);
    } else {
      assert "" + d == d;
    }
  }

  // ----- Telegram: blocks -----

  datatype Spoken = Spoken(index: nat, session: nat, isUser: bool, ts: string, text: string)

  function SpokenAt(msgs: seq<Message>, self: string, k: nat): Spoken
    requires k < |msgs| && msgs[k].Message?
  {
    Spoken(k, SessionNo(msgs, self, k), msgs[k].from == self, msgs[k].ts, msgs[k].text)
  }

  /** The messages that are conversation, among the first k. */
  function Conversation(msgs: seq<Message>, self: string, k: nat): seq<Spoken>
    requires k <= |msgs|
  {
    if k == 0 then []
    else Conversation(msgs, self, k - 1) + if Kept(msgs[k - 1], self) then [SpokenAt(msgs, self, k - 1)] else []
  }

  predicate Alike(a: Spoken, b: Spoken) {
    a.isUser == b.isUser && a.session == b.session
  }

  /** The merged bubbles: a message joins the last group when sender and session are the same. */
  function Groups(s: seq<Spoken>): (gs: seq<seq<Spoken>>)
    ensures forall i | 0 <= i < |gs| :: gs[i] != []
  {
    if s == [] then []
    else
      var gs := Groups(s[..|s| - 1]);
      var m := s[|s| - 1];
      if gs != [] && Alike(gs[|gs| - 1][0], m) then gs[..|gs| - 1] + [gs[|gs| - 1] + [m]] else gs + [[m]]
  }

  function Bubbles(g: seq<Spoken>): string
    requires g != []
  {
    if |g| == 1 then g[0].text else Bubbles(g[..|g| - 1]) + "\n" + g[|g| - 1].text
  }

  function BlockOf(g: seq<Spoken>): Block
    requires g != []
  {
    Block(g[0].isUser, g[0].ts, Bubbles(g), Guid(g[0].session))
  }

  function Blocks(gs: seq<seq<Spoken>>): (s: seq<Block>)
    requires forall i | 0 <= i < |gs| :: gs[i] != []
    ensures |s| == |gs| && forall i | 0 <= i < |gs| :: s[i] == BlockOf(gs[i])
  {
    if gs == [] then [] else Blocks(gs[..|gs| - 1]) + [BlockOf(gs[|gs| - 1])]
  }

  function TelegramBlocks(msgs: seq<Message>, self: string, k: nat): seq<Block>
    requires k <= |msgs|
  {
    Blocks(Groups(Conversation(msgs, self, k)))
  }

  lemma BlocksJoin(s: seq<Spoken>, m: Spoken)
    ensures var bs, more := Blocks(Groups(s)), Blocks(Groups(s + [m]));
      var merges := bs != [] && bs[|bs| - 1].isUser == m.isUser && bs[|bs| - 1].sid == Guid(m.session);
      more == if merges then bs[..|bs| - 1] + [bs[|bs| - 1].(text := bs[|bs| - 1].text + "\n" + m.text)]
              else bs + [Block(m.isUser, m.ts, m.text, Guid(m.session))]
  {
    hide Guid, Bubbles, Blocks, BlockOf;
    var gs: seq<seq<Spoken>> := Groups(s);
    assert (s + [m])[..|s|] == s;
    BlockOfOne(m);
    if gs != [] {
      var n := |gs| - 1;
      GuidInjective(gs[n][0].session, m.session);
      BlockOfMore(gs[n], m);
      assert Alike(gs[n][0], m) <==> Blocks(gs)[n].isUser == m.isUser && Blocks(gs)[n].sid == Guid(m.session);
    }
  }

  lemma BlockOfOne(m: Spoken)
    ensures BlockOf([m]) == Block(m.isUser, m.ts, m.text, Guid(m.session))
  {
    hide Guid, Bubbles;
    BubblesOne(m);
  }

  lemma BlockOfMore(g: seq<Spoken>, m: Spoken)
    requires g != []
    ensures BlockOf(g + [m]) == BlockOf(g).(text := BlockOf(g).text + "\n" + m.text)
    ensures BlockOf(g).isUser == g[0].isUser && BlockOf(g).sid == Guid(g[0].session)
  {
    hide Guid, Bubbles;
    BubblesMore(g, m);
  }

  lemma BubblesOne(m: Spoken)
    ensures Bubbles([m]) == m.text
  {
  }

  lemma BubblesMore(g: seq<Spoken>, m: Spoken)
    requires g != []
    ensures Bubbles(g + [m]) == Bubbles(g) + "\n" + m.text
  {
    assert (g + [m])[..|g|] == g;
  }

  method MergeBubbles(msgs: seq<Message>, self: string) returns (blocks: seq<Block>)
    ensures blocks == TelegramBlocks(msgs, self, |msgs|)
  {
    hide Guid, Bubbles, Groups, Blocks, IsBareCommand;
    blocks := [];
    NoBlocks();
    var sessionNo := 1;
    for k := 0 to |msgs|
      invariant sessionNo == SessionNo(msgs, self, k)
      invariant blocks == TelegramBlocks(msgs, self, k)
    {
      var m := msgs[k];
      ghost var s := Conversation(msgs, self, k);
      assert s + [] == s;
      if !m.Message? || m.text == "" {
        continue;
      }
      var isSelf := m.from == self;
      if isSelf && (m.text == "/new" || "/new " <= m.text) {
        sessionNo := sessionNo + 1;
        continue;
      }
      if isSelf && IsBareCommand(m.text) {
        continue;
      }
      BlocksJoin(s, SpokenAt(msgs, self, k));
      var n := |blocks|;
      if n > 0 && blocks[n - 1].isUser == isSelf && blocks[n - 1].sid == Guid(sessionNo) {
        blocks := blocks[..n - 1] + [blocks[n - 1].(text := blocks[n - 1].text + "\n" + m.text)];
      } else {
        blocks := blocks + [Block(isSelf, m.ts, m.text, Guid(sessionNo))];
      }
    }
  }

  lemma NoBlocks()
    ensures Blocks(Groups([])) == []
  {
  }

  method ParseTelegramChat(msgs: seq<Message>, self: string) returns (out: seq<Turn>)
    ensures out == Turns(TelegramBlocks(msgs, self, |msgs|), true)
  {
    hide Turns, TurnsTo, TelegramBlocks;
    var blocks := MergeBubbles(msgs, self);
    out := [];
    var pending: Option<Block> := None;
    HoldsNothing(true);
    for k := 0 to |blocks|
      invariant Holds(blocks[..k], true, out, pending)
    {
      out, pending := Pair(blocks[..k], blocks[k], true, out, pending);
      assert blocks[..k + 1] == blocks[..k] + [blocks[k]];
    }
    assert blocks[..|blocks|] == blocks;
    HoldsFlushed(blocks, true, out, pending);
    if pending.Some? {
      out := out + [Turn(pending.value.ts, pending.value.text, "", pending.value.sid)];
    }
  }

  // ----- Telegram: what is kept -----

  function Flat(gs: seq<seq<Spoken>>): seq<Spoken> {
    if gs == [] then [] else Flat(gs[..|gs| - 1]) + gs[|gs| - 1]
  }

  predicate Uniform(g: seq<Spoken>) {
    g != [] && forall i | 0 <= i < |g| :: Alike(g[0], g[i])
  }

  ghost predicate Runs(gs: seq<seq<Spoken>>, s: seq<Spoken>) {
    Flat(gs) == s && (forall i | 0 <= i < |gs| :: Uniform(gs[i])) &&
    forall i | 0 < i < |gs| :: Apart(gs, i)
  }

  predicate Apart(gs: seq<seq<Spoken>>, i: nat) {
    0 < i < |gs| && gs[i - 1] != [] && gs[i] != [] && !Alike(gs[i - 1][0], gs[i][0])
  }

  lemma RunsJoin(gs: seq<seq<Spoken>>, s: seq<Spoken>, m: Spoken)
    requires Runs(gs, s) && gs != [] && Alike(gs[|gs| - 1][0], m)
    ensures Runs(gs[..|gs| - 1] + [gs[|gs| - 1] + [m]], s + [m])
  {
    var front, last := gs[..|gs| - 1], gs[|gs| - 1];
    assert Uniform(last);
    assert Uniform(last + [m]);
    FlatSnoc(front, last);
    FlatSnoc(front, last + [m]);
    assert front + [last] == gs;
    hide Alike, Uniform;
    var more := front + [last + [m]];
    forall i | 0 < i < |more| ensures Apart(more, i) {
      assert Apart(gs, i) && more[i][0] == gs[i][0];
    }
  }

  lemma RunsStart(gs: seq<seq<Spoken>>, s: seq<Spoken>, m: Spoken)
    requires Runs(gs, s) && (gs == [] || (gs[|gs| - 1] != [] && !Alike(gs[|gs| - 1][0], m)))
    ensures Runs(gs + [[m]], s + [m])
  {
    FlatSnoc(gs, [m]);
    assert Uniform([m]);
    hide Alike, Uniform;
    forall i | 0 < i < |gs| + 1 ensures Apart(gs + [[m]], i) {
      if i < |gs| {
        assert Apart(gs, i);
      }
    }
  }

  /** The groups are the runs of the conversation: together it, each of one sender and session, and none could join
      the next. */
  lemma {:induction false} GroupsAreRuns(s: seq<Spoken>)
    ensures Runs(Groups(s), s)
  {
    if s != [] {
      hide Runs, Alike;
      var n := |s| - 1;
      GroupsAreRuns(s[..n]);
      var gs := Groups(s[..n]);
      assert s == s[..n] + [s[n]];
      if gs != [] && Alike(gs[|gs| - 1][0], s[n]) {
        RunsJoin(gs, s[..n], s[n]);
      } else {
        RunsStart(gs, s[..n], s[n]);
      }
    }
  }

  lemma FlatSnoc(gs: seq<seq<Spoken>>, g: seq<Spoken>)
    ensures Flat(gs + [g]) == Flat(gs) + g
  {
    assert (gs + [g])[..|gs|] == gs;
  }

  /** The user's groups. */
  function Users(gs: seq<seq<Spoken>>): (us: seq<seq<Spoken>>)
    requires forall i | 0 <= i < |gs| :: gs[i] != []
    ensures forall i | 0 <= i < |us| :: us[i] != []
  {
    if gs == [] then []
    else Users(gs[..|gs| - 1]) + if gs[|gs| - 1][0].isUser then [gs[|gs| - 1]] else []
  }

  function OfUser(s: seq<Spoken>): seq<Spoken> {
    if s == [] then [] else OfUser(s[..|s| - 1]) + if s[|s| - 1].isUser then [s[|s| - 1]] else []
  }

  lemma {:induction false} OfUserAppend(a: seq<Spoken>, b: seq<Spoken>)
    ensures OfUser(a + b) == OfUser(a) + OfUser(b)
    decreases |b|
  {
    if b == [] {
      assert a + b == a;
    } else {
      OfUserAppend(a, b[..|b| - 1]);
      assert (a + b)[..|a + b| - 1] == a + b[..|b| - 1];
    }
  }

  lemma {:induction false} OfUserUniform(g: seq<Spoken>, isUser: bool)
    requires forall i | 0 <= i < |g| :: g[i].isUser == isUser
    ensures OfUser(g) == if isUser then g else []
  {
    if g != [] {
      OfUserUniform(g[..|g| - 1], isUser);
      assert g == g[..|g| - 1] + [g[|g| - 1]];
    }
  }

  lemma {:induction false} UsersFlat(gs: seq<seq<Spoken>>)
    requires forall i | 0 <= i < |gs| :: gs[i] != [] && Uniform(gs[i])
    ensures Flat(Users(gs)) == OfUser(Flat(gs))
  {
    if gs != [] {
      var n := |gs| - 1;
      UsersFlat(gs[..n]);
      assert Uniform(gs[n]);
      OfUserUniform(gs[n], gs[n][0].isUser);
      OfUserAppend(Flat(gs[..n]), gs[n]);
      FlatSnoc(gs[..n], gs[n]);
      assert gs[..n] + [gs[n]] == gs;
      var us := Users(gs[..n]);
      if gs[n][0].isUser {
        FlatSnoc(us, gs[n]);
      } else {
        assert us + [] == us && OfUser(Flat(gs[..n])) + [] == OfUser(Flat(gs[..n]));
      }
    }
  }

  lemma {:induction false} TurnsOfUsers(gs: seq<seq<Spoken>>, k: nat)
    requires forall i | 0 <= i < |gs| :: gs[i] != []
    requires k <= |gs|
    ensures var turns, us := TurnsTo(Blocks(gs), k, true), Users(gs[..k]);
      |turns| == |us| && forall i | 0 <= i < |us| ::
        turns[i].user == Bubbles(us[i]) && turns[i].ts == us[i][0].ts && turns[i].sid == Guid(us[i][0].session)
  {
    hide Guid, Bubbles;
    if k > 0 {
      TurnsOfUsers(gs, k - 1);
      assert gs[..k][..k - 1] == gs[..k - 1];
    }
  }

  /** Conservation: the user's messages that are no commands, in order and cut into the groups, are the prompts of
      the turns, one each. */
  lemma TelegramConserves(msgs: seq<Message>, self: string)
    ensures var s := Conversation(msgs, self, |msgs|);
      var turns, us := Turns(TelegramBlocks(msgs, self, |msgs|), true), Users(Groups(s));
      Flat(us) == OfUser(s) && |turns| == |us| && forall i | 0 <= i < |us| ::
        turns[i].user == Bubbles(us[i]) && turns[i].ts == us[i][0].ts && turns[i].sid == Guid(us[i][0].session)
  {
    hide Guid, Bubbles, Conversation, Groups;
    var s := Conversation(msgs, self, |msgs|);
    var gs: seq<seq<Spoken>> := Groups(s);
    GroupsAreRuns(s);
    UsersFlat(gs);
    TurnsOfUsers(gs, |gs|);
    assert gs[..|gs|] == gs;
  }

  ghost predicate FromMessage(msgs: seq<Message>, self: string, m: Spoken) {
    m.index < |msgs| && Kept(msgs[m.index], self) && m == SpokenAt(msgs, self, m.index)
  }

  ghost predicate Transcript(msgs: seq<Message>, self: string, s: seq<Spoken>, k: nat) {
    (forall i | 0 <= i < |s| :: s[i].index < k && FromMessage(msgs, self, s[i])) &&
    forall i, j | 0 <= i < j < |s| :: s[i].index < s[j].index
  }

  lemma {:induction false} ConversationExact(msgs: seq<Message>, self: string, k: nat)
    requires k <= |msgs|
    ensures Transcript(msgs, self, Conversation(msgs, self, k), k)
  {
    if k > 0 {
      ConversationExact(msgs, self, k - 1);
      var front := Conversation(msgs, self, k - 1);
      assert front + [] == front;
      if Kept(msgs[k - 1], self) {
        TranscriptMore(msgs, self, front, k - 1);
      }
    }
  }

  lemma TranscriptMore(msgs: seq<Message>, self: string, s: seq<Spoken>, k: nat)
    requires k < |msgs| && Kept(msgs[k], self) && Transcript(msgs, self, s, k)
    ensures Transcript(msgs, self, s + [SpokenAt(msgs, self, k)], k + 1)
  {
    var m := SpokenAt(msgs, self, k);
    assert FromMessage(msgs, self, m) && m.index == k;
    hide FromMessage, Kept, SpokenAt;
  }

  lemma {:induction false} InFlat(gs: seq<seq<Spoken>>, i: nat, x: nat) returns (at: nat)
    requires i < |gs| && x < |gs[i]|
    ensures at < |Flat(gs)| && Flat(gs)[at] == gs[i][x]
  {
    var n := |gs| - 1;
    if i < n {
      at := InFlat(gs[..n], i, x);
    } else {
      at := |Flat(gs[..n])| + x;
    }
  }

  lemma {:induction false} InOrder(gs: seq<seq<Spoken>>, i: nat, x: nat, j: nat, y: nat) returns (a: nat, b: nat)
    requires i < j < |gs| && x < |gs[i]| && y < |gs[j]|
    ensures a < b < |Flat(gs)| && Flat(gs)[a] == gs[i][x] && Flat(gs)[b] == gs[j][y]
  {
    var n := |gs| - 1;
    if j < n {
      a, b := InOrder(gs[..n], i, x, j, y);
    } else {
      a := InFlat(gs[..n], i, x);
      b := |Flat(gs[..n])| + y;
    }
  }

  /** A message of an earlier group comes earlier, in the same session or one before; in the same exactly when the
      user gave no /new in between. */
  lemma GroupsInOrder(msgs: seq<Message>, self: string, i: nat, x: nat, j: nat, y: nat)
    requires var gs := Groups(Conversation(msgs, self, |msgs|)); i < j < |gs| && x < |gs[i]| && y < |gs[j]|
    ensures var gs := Groups(Conversation(msgs, self, |msgs|));
      gs[i][x].index < gs[j][y].index < |msgs| && 1 <= gs[i][x].session <= gs[j][y].session &&
      (gs[i][x].session == gs[j][y].session <==>
        Uninterrupted(msgs, self, gs[i][x].index, gs[j][y].index))
  {
    hide Groups, Conversation, Kept, IsNew, SessionNo;
    var s := Conversation(msgs, self, |msgs|);
    GroupsAreRuns(s);
    var a, b := InOrder(Groups(s), i, x, j, y);
    ConversationExact(msgs, self, |msgs|);
    assert FromMessage(msgs, self, s[a]) && FromMessage(msgs, self, s[b]);
    SessionsRise(msgs, self, s[a].index, s[b].index);
  }

  /** No /new comes between any message of g and any of h. */
  ghost predicate SameSitting(msgs: seq<Message>, self: string, g: seq<Spoken>, h: seq<Spoken>) {
    forall x, y | 0 <= x < |g| && 0 <= y < |h| :: Uninterrupted(msgs, self, g[x].index, h[y].index)
  }

  /** A reply is never paired across a /new: it is the group right behind the prompt's, of the other side, with no
      /new between any two of their messages. */
  lemma NoPairAcrossNew(msgs: seq<Message>, self: string, i: nat)
    requires var gs := Groups(Conversation(msgs, self, |msgs|));
      i < |gs| && gs[i][0].isUser && ReplyTo(Blocks(gs), i, true) != ""
    ensures var gs := Groups(Conversation(msgs, self, |msgs|));
      i + 1 < |gs| && !gs[i + 1][0].isUser && ReplyTo(Blocks(gs), i, true) == Bubbles(gs[i + 1]) &&
      SameSitting(msgs, self, gs[i], gs[i + 1])
  {
    hide Groups, Conversation, Bubbles, IsNew;
    var s := Conversation(msgs, self, |msgs|);
    var gs: seq<seq<Spoken>> := Groups(s);
    GuidInjective(gs[i][0].session, gs[i + 1][0].session);
    hide Guid;
    GroupsAreRuns(s);
    assert Uniform(gs[i]) && Uniform(gs[i + 1]);
    var g, h := gs[i], gs[i + 1];
    forall x, y | 0 <= x < |g| && 0 <= y < |h| ensures Uninterrupted(msgs, self, g[x].index, h[y].index) {
      GroupsInOrder(msgs, self, i, x, i + 1, y);
      assert Alike(gs[i][0], gs[i][x]) && Alike(gs[i + 1][0], gs[i + 1][y]);
    }
  }

  /** A prompt goes without a reply exactly when the user's next group, or none, follows, or the next group lies
      behind a /new. */
  lemma UnansweredExactly(msgs: seq<Message>, self: string, i: nat)
    requires var gs := Groups(Conversation(msgs, self, |msgs|)); i < |gs| && gs[i][0].isUser
    ensures var gs := Groups(Conversation(msgs, self, |msgs|));
      ReplyTo(Blocks(gs), i, true) == "" <==>
        i + 1 == |gs| || gs[i + 1][0].isUser || gs[i + 1][0].session != gs[i][0].session
  {
    hide Groups, Conversation;
    var s := Conversation(msgs, self, |msgs|);
    var gs: seq<seq<Spoken>> := Groups(s);
    GroupsAreRuns(s);
    if i + 1 < |gs| {
      GuidInjective(gs[i + 1][0].session, gs[i][0].session);
      hide Guid;
      var at := InFlat(gs, i + 1, 0);
      ConversationExact(msgs, self, |msgs|);
      assert FromMessage(msgs, self, s[at]);
      BubblesKeepText(gs[i + 1]);
    }
  }

  lemma {:induction false} BubblesKeepText(g: seq<Spoken>)
    requires g != [] && g[0].text != ""
    ensures Bubbles(g) != ""
  {
    if |g| > 1 {
      BubblesKeepText(g[..|g| - 1]);
    }
  }

  /** The session numbers of the turns never fall. */
  lemma TurnSessionsRise(msgs: seq<Message>, self: string, i: nat, j: nat)
    requires i < j < |Turns(TelegramBlocks(msgs, self, |msgs|), true)|
    ensures var turns := Turns(TelegramBlocks(msgs, self, |msgs|), true);
      exists m, n: nat :: 1 <= m <= n && turns[i].sid == Guid(m) && turns[j].sid == Guid(n)
  {
    hide Guid, Conversation, Groups;
    var gs: seq<seq<Spoken>> := Groups(Conversation(msgs, self, |msgs|));
    var s := Blocks(gs);
    TurnsExact(s, true);
    var u := UserBlocks(s, |s|);
    GroupsInOrder(msgs, self, u[i], 0, u[j], 0);
    var m, n := gs[u[i]][0].session, gs[u[j]][0].session;
    assert Turns(s, true)[i].sid == Guid(m) && Turns(s, true)[j].sid == Guid(n);
  }
}
