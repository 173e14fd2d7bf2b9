/** Which messages of an export are read, as whose, and into which session. */
module ImportSources {
  import opened Wrappers
  import opened Pairing
  import Text

  // ----- Claude exports -----

  function Said(events: seq<Event>, user: Event -> bool): seq<string> {
    if events == [] then []
    else
      var e := events[|events| - 1];
      Said(events[..|events| - 1], user) + if e.Event? && user(e) && e.text != "" then [e.text] else []
  }

  function SaidAll(sessions: seq<Session>, user: Event -> bool): seq<string> {
    if sessions == [] then []
    else SaidAll(sessions[..|sessions| - 1], user) + Said(sessions[|sessions| - 1].events, user)
  }

  function CodeUser(e: Event): bool {
    e.Event? && e.kind == "user"
  }

  function WebUser(e: Event): bool {
    e.Event? && (e.kind == "human" || e.kind == "user")
  }

  /** A session file gives the readable messages of the two sides with a text; a
      message without a session is of the session the file is named after. */
  lemma CodeRead(e: Event, stem: string)
    ensures var b := CodeBlock(e, stem);
      && (b.Some? <==> e.Event? && (e.kind == "user" || e.kind == "assistant") && e.text != "")
      && (b.Some? ==>
            && (b.value.isUser <==> e.kind == "user") && b.value.text == e.text && b.value.ts == e.ts
            && (e.sid.Some? ==> b.value.sid == e.sid.value) && (e.sid.None? ==> b.value.sid == stem))
  {
  }

  lemma WebRead(e: Event, sid: string)
    ensures var b := WebBlock(e, sid);
      && (b.Some? <==> e.Event? && e.text != "" &&
                       (e.kind == "human" || e.kind == "user" || e.kind == "assistant" || e.kind == "claude"))
      && (b.Some? ==>
            && (b.value.isUser <==> e.kind == "human" || e.kind == "user") && b.value.text == e.text
            && b.value.ts == e.ts && b.value.sid == sid)
  {
  }

  lemma {:induction false} ReadSaid(read: Event -> Option<Block>, user: Event -> bool, events: seq<Event>)
    requires forall e :: read(e).Some? && read(e).value.isUser <==> e.Event? && user(e) && e.text != ""
    requires forall e :: read(e).Some? && read(e).value.isUser ==> read(e).value.text == e.text
    ensures UserTexts(Read(read, events)) == Said(events, user)
  {
    if events != [] {
      var n := |events| - 1;
      ReadSaid(read, user, events[..n]);
      var front, b := Read(read, events[..n]), read(events[n]);
      if b.Some? {
        assert (front + [b.value])[..|front|] == front;
      } else {
        assert front + [] == front;
      }
    }
  }

  /** The prompts of a session file are the texts of its user's messages, in order. */
  lemma FilePrompts(f: Session)
    ensures Prompts(FileTurns(f)) == Said(f.events, CodeUser)
  {
    hide Turns, Prompts, UserTexts;
    var read: Event -> Option<Block> := e => CodeBlock(e, f.name);
    PromptsConserved(Read(read, f.events), false);
    ReadSaid(read, CodeUser, f.events);
  }

  lemma ConversationPrompts(c: Session)
    ensures Prompts(ConversationTurns(c)) == Said(c.events, WebUser)
  {
    hide Turns, Prompts, UserTexts;
    var read: Event -> Option<Block> := e => WebBlock(e, c.name);
    PromptsConserved(Read(read, c.events), false);
    ReadSaid(read, WebUser, c.events);
  }

  lemma {:induction false} PromptsJoin(a: seq<Turn>, b: seq<Turn>)
    ensures Prompts(a + b) == Prompts(a) + Prompts(b)
    decreases |b|
  {
    if b == [] {
      assert a + b == a;
    } else {
      PromptsJoin(a, b[..|b| - 1]);
      assert (a + b)[..|a + b| - 1] == a + b[..|b| - 1];
    }
  }

  /** Over all files, or all conversations, one behind the other. */
  lemma {:induction false} ExportPrompts(sessions: seq<Session>)
    ensures Prompts(Gather(FileTurns, sessions)) == SaidAll(sessions, CodeUser)
    ensures Prompts(Gather(ConversationTurns, sessions)) == SaidAll(sessions, WebUser)
  {
    if sessions != [] {
      hide Prompts, Said;
      var n := |sessions| - 1;
      ExportPrompts(sessions[..n]);
      PromptsJoin(Gather(FileTurns, sessions[..n]), FileTurns(sessions[n]));
      PromptsJoin(Gather(ConversationTurns, sessions[..n]), ConversationTurns(sessions[n]));
      FilePrompts(sessions[n]);
      ConversationPrompts(sessions[n]);
    } else {
      assert Prompts([]) == [];
    }
  }

  // ----- Telegram -----

  /** Whether a message is part of the talk: one with a text, and of the user's own
      neither a command nor a bare stop or wait. */
  predicate Talk(m: Message, self: string) {
    m.Message? && m.text != "" &&
    (m.from == self ==> m.text[0] != '/' && Text.Lower(m.text) != "stop" && Text.Lower(m.text) != "wait")
  }

  lemma KeptIsTalk(m: Message, self: string)
    ensures Kept(m, self) <==> Talk(m, self)
  {
    if m.Message? && m.text != "" && IsNew(m, self) { assert m.text[0] == '/'; }
  }

  lemma {:induction false} TalkThere(msgs: seq<Message>, self: string, n: nat, k: nat)
    requires k < n <= |msgs| && Talk(msgs[k], self)
    ensures Spoken(k, SessionNo(msgs, self, k), msgs[k].from == self, msgs[k].ts, msgs[k].text)
            in Conversation(msgs, self, n)
  {
    KeptIsTalk(msgs[k], self);
    hide SessionNo;
    var m := Spoken(k, SessionNo(msgs, self, k), msgs[k].from == self, msgs[k].ts, msgs[k].text);
    if k < n - 1 {
      TalkThere(msgs, self, n - 1, k);
    } else {
      assert Conversation(msgs, self, n) == Conversation(msgs, self, k) + [m];
    }
  }

  /** The conversation is every message of either side that is talk, once, in order,
      with its sender, time, text and the session it falls in; and nothing else. */
  lemma ConversationComplete(msgs: seq<Message>, self: string, k: nat)
    requires k < |msgs|
    ensures var s := Conversation(msgs, self, |msgs|);
      && (Talk(msgs[k], self) ==>
            Spoken(k, SessionNo(msgs, self, k), msgs[k].from == self, msgs[k].ts, msgs[k].text) in s)
      && (forall i | 0 <= i < |s| :: s[i].index < |msgs| && Talk(msgs[s[i].index], self))
      && forall i, j | 0 <= i < j < |s| :: s[i].index < s[j].index
  {
    var s := Conversation(msgs, self, |msgs|);
    if Talk(msgs[k], self) { TalkThere(msgs, self, |msgs|, k); }
    ConversationExact(msgs, self, |msgs|);
    hide Conversation, Talk, Kept;
    forall i | 0 <= i < |s| ensures s[i].index < |msgs| && Talk(msgs[s[i].index], self) {
      assert FromMessage(msgs, self, s[i]);
      KeptIsTalk(msgs[s[i].index], self);
    }
  }

  /** Sessions are counted from 1, one more behind each /new of the user's, alone or with
      a topic; nothing else starts one. */
  lemma SessionStarts(msgs: seq<Message>, self: string, k: nat)
    requires k < |msgs|
    ensures SessionNo(msgs, self, 0) == 1
    ensures SessionNo(msgs, self, k + 1) == SessionNo(msgs, self, k) +
      if msgs[k].Message? && msgs[k].from == self && (msgs[k].text == "/new" || "/new " <= msgs[k].text) then 1 else 0
  {
  }

  /** A session's name is the prefix and its number, in at least four digits and no more
      than it needs. */
  lemma GuidShown(n: nat)
    ensures var s := Padded(n);
      Guid(n) == "telegram-import-" + s && |s| >= 4 && Number(s) == n && (|s| > 4 ==> s[0] != '0') &&
      forall i | 0 <= i < |s| :: '0' <= s[i] <= '9'
  {
    GuidNumber(n);
    DigitsShape(n);
    ZerosShape(if |Digits(n)| < 4 then 4 - |Digits(n)| else 0);
  }

  lemma {:induction false} DigitsShape(n: nat)
    ensures var d := Digits(n); (forall i | 0 <= i < |d| :: '0' <= d[i] <= '9') && (n > 0 ==> d[0] != '0')
    ensures n == 0 ==> |Digits(n)| == 1
  {
    if n >= 10 { DigitsShape(n / 10); }
  }

  lemma {:induction false} ZerosShape(n: nat)
    ensures |Zeros(n)| == n && forall i | 0 <= i < n :: Zeros(n)[i] == '0'
  {
    if n > 0 { ZerosShape(n - 1); }
  }
}
