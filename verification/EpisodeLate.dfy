/** Turns that come late: summaries and embeddings may arrive after a close has
    gone past their turn. */
module EpisodeLate {
  import opened Wrappers
  import opened EpisodeBoundaries
  import opened EpisodeClose

  /** What can happen to a session: a turn is captured, a summary or an embedding
      arrives, or a close commits the first `k` of its segments. */
  datatype Op =
    | Captures(epoch: int)
    | Fills(i: nat, text: string, turn: Option<seq<real>>, summary: Option<seq<real>>)
    | Closes(bs: seq<nat>, infer: nat -> string, k: nat)

  ghost predicate Enabled(s: Session, op: Op) {
    match op
    case Captures(epoch) => s.rows != [] ==> s.rows[|s.rows| - 1].epoch < epoch
    case Fills(i, _, _, _) => i < |s.rows|
    case Closes(bs, _, k) => Cuts(bs, |Candidates(s.rows, LastEnd(s))|) && k <= |bs|
  }

  ghost function Apply(s: Session, op: Op): Session
    requires Enabled(s, op)
  {
    match op
    case Captures(epoch) => Session(s.rows + [Row(epoch, "", None, None, None)], s.episodes)
    case Fills(i, text, turn, summary) =>
      Session(s.rows[i := s.rows[i].(text := text, turn := turn, summary := summary)], s.episodes)
    case Closes(bs, infer, k) => Committed(s, Candidates(s.rows, LastEnd(s)), bs, infer, k)
  }

  ghost predicate Run(sessions: seq<Session>, ops: seq<Op>) {
    |sessions| == |ops| + 1 &&
    forall n | 0 <= n < |ops| :: Enabled(sessions[n], ops[n]) && sessions[n + 1] == Apply(sessions[n], ops[n])
  }

  /** What was in an episode stays in it, what lies behind the last end stays out. */
  ghost predicate Later(s: Session, t: Session) {
    && |s.rows| <= |t.rows| && LastEnd(s) <= LastEnd(t)
    && forall i | 0 <= i < |s.rows| ::
         && t.rows[i].epoch == s.rows[i].epoch
         && (s.rows[i].episode.Some? ==> t.rows[i].episode == s.rows[i].episode)
         && (s.rows[i].episode.None? && s.rows[i].epoch <= LastEnd(s) ==> t.rows[i].episode.None?)
  }

  lemma CloseLater(s: Session, bs: seq<nat>, infer: nat -> string, k: nat)
    requires Wf(s) && Enabled(s, Closes(bs, infer, k))
    ensures Wf(Apply(s, Closes(bs, infer, k))) && Later(s, Apply(s, Closes(bs, infer, k)))
  {
    hide LastEnd, Committed, Ordered, Membership, StrictEpochs;
    var cs := Candidates(s.rows, LastEnd(s));
    CommitInv(s, cs, bs, infer, k);
    if k == 0 {
      CommittedNone(s, cs, bs, infer);
    } else {
      assert cs[StartOf(bs, |cs|, k) - 1] in cs;
    }
  }

  lemma OpLater(s: Session, op: Op)
    requires Wf(s) && Enabled(s, op)
    ensures Wf(Apply(s, op)) && Later(s, Apply(s, op))
  {
    hide Wf, Candidates, Committed;
    match op
    case Captures(epoch) => CaptureWf(s, Row(epoch, "", None, None, None));
    case Fills(i, text, turn, summary) => FillWf(s, i, s.rows[i].(text := text, turn := turn, summary := summary));
    case Closes(bs, infer, k) => CloseLater(s, bs, infer, k);
  }

  /** In every state of every run from `s`, an unassigned turn not after the last
      episode's end is unassigned still. */
  lemma {:induction false} PassedStaysOut(sessions: seq<Session>, ops: seq<Op>, n: nat)
    requires Run(sessions, ops) && n < |sessions| && Wf(sessions[0])
    ensures Wf(sessions[n]) && Later(sessions[0], sessions[n])
  {
    hide Wf, Enabled, Apply, LastEnd;
    if n > 0 {
      PassedStaysOut(sessions, ops, n - 1);
      OpLater(sessions[n - 1], ops[n - 1]);
    }
  }

  ghost predicate EntersIn(s: Session, i: nat, sessions: seq<Session>, ops: seq<Op>, n: nat) {
    Run(sessions, ops) && sessions[0] == s && n < |sessions| && i < |sessions[n].rows| &&
      sessions[n].rows[i].episode.Some?
  }

  /** Once its summary and both embeddings are there, every close that completes
      takes such a turn in. */
  lemma FilledEnters(s: Session, i: nat, text: string, turn: seq<real>, summary: seq<real>, bs: seq<nat>,
                     infer: nat -> string)
    requires Wf(s) && i < |s.rows| && s.rows[i].episode.None? && s.rows[i].epoch > LastEnd(s) && text != ""
    requires Enabled(Apply(s, Fills(i, text, Some(turn), Some(summary))), Closes(bs, infer, |bs|))
    ensures var t := Apply(Apply(s, Fills(i, text, Some(turn), Some(summary))), Closes(bs, infer, |bs|));
      i < |t.rows| && t.rows[i].episode.Some?
  {
    hide Wf, Committed;
    var u := Apply(s, Fills(i, text, Some(turn), Some(summary)));
    OpLater(s, Fills(i, text, Some(turn), Some(summary)));
    assert LastEnd(u) == LastEnd(s) && Pending(u.rows[i], LastEnd(u));
    CompletedCloseCovers(u, Candidates(u.rows, LastEnd(u)), bs, infer);
  }

  /** An unassigned turn can still enter an episode exactly when it lies after the
      end of the last one, whatever turns, summaries, embeddings and closes come. */
  lemma EntersLaterExactly(s: Session, i: nat)
    requires Wf(s) && i < |s.rows| && s.rows[i].episode.None?
    ensures (exists sessions, ops, n: nat :: EntersIn(s, i, sessions, ops, n)) <==> s.rows[i].epoch > LastEnd(s)
  {
    hide Wf, Enabled, Apply, LastEnd, Candidates, Cuts;
    if s.rows[i].epoch > LastEnd(s) {
      Enters(s, i);
    } else {
      forall sessions, ops, n: nat ensures !EntersIn(s, i, sessions, ops, n) {
        if Run(sessions, ops) && sessions[0] == s && n < |sessions| {
          PassedStaysOut(sessions, ops, n);
        }
      }
    }
  }

  lemma Enters(s: Session, i: nat)
    requires Wf(s) && i < |s.rows| && s.rows[i].episode.None? && s.rows[i].epoch > LastEnd(s)
    ensures exists sessions, ops, n: nat :: EntersIn(s, i, sessions, ops, n)
  {
    hide Wf, Committed;
    var fill := Fills(i, "a", Some([]), Some([]));
    var u := Apply(s, fill);
    assert Pending(u.rows[i], LastEnd(u));
    assert i in Candidates(u.rows, LastEnd(u));
    var close := Closes([0], n => "a", 1);
    FilledEnters(s, i, "a", [], [], [0], n => "a");
    assert EntersIn(s, i, [s, u, Apply(u, close)], [fill, close], 2);
  }
}
