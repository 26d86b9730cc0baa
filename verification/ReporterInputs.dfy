/** Small transcripts on which the reporter does what its documentation does not say: each reached
    from an entry that is blank or was baselined, on a channel that is ready. */
module ReporterInputs {
  import opened Wrappers
  import opened Text
  import opened Reporter
  import opened ReporterRuns
  import opened ReporterSeen

  const HOME := "s"
  const READY := Registry(map["s" := Channel(true, Some("o"))], [], true)
  const AWAY := Registry(map["s" := Channel(false, Some("o"))], [], true)

  const FIRST := Message("m", Agent, "x", None, "")
  const SECOND := Message("n", Agent, "x", None, "")

  function Named(status: string, activity: string): Session {
    Session("id", status, Some(activity), HOME)
  }

  /** What a tick sees of the session with these messages, if its turn ends so. */
  function Sees(status: string, activity: string, messages: seq<Message>, turn: Turn): Sighting {
    Sighting(Named(status, activity), messages, false, turn)
  }

  /** `n` messages that are no answers. */
  function Chatter(n: nat): seq<Message> {
    seq(n, k requires 0 <= k => Message(seq(k + 2, _ => 'c'), Other, "", None, ""))
  }

  lemma Finals()
    ensures IsFinal(FIRST) && IsFinal(SECOND)
  {
    assert !IsSpace("x"[0]);
  }

  /** With an answer last, that is the latest; none of the messages says where it came from, so the
      report goes where the session came from. */
  lemma AnswerLast(status: string, activity: string, messages: seq<Message>, turn: Turn)
    requires 0 < |messages| <= TAIL && IsFinal(messages[|messages| - 1])
    requires forall k | 0 <= k < |messages| :: messages[k].supervisor == ""
    ensures var s := Sees(status, activity, messages, turn);
            && Tail(messages) == messages && LatestFinal(messages) == Some(|messages| - 1)
            && RoutingSupervisor(s.session, messages, LatestFinal(messages)) == HOME
  {
  }

  lemma Registries()
    ensures Ready(READY, HOME) && IsOurs(READY, HOME) && !Ready(AWAY, HOME) && IsOurs(AWAY, HOME)
  {
    assert "s" != "";
  }

  // ---- deaths carry answers ----

  /** An answer known at activation goes out when the session dies later. */
  lemma DeathCarriesHistory()
    ensures var e := Baseline(BLANK, Sees("idle", "1", [FIRST], Sent));
            var s := Sees("error", "2", [FIRST], Sent);
            var o := Decide(e, READY, s);
            o == Delivered(Report("error", Some(0))) && Sends(s, o) == [Carried("error", 0)]
  {
    Finals();
    AnswerLast("idle", "1", [FIRST], Sent);
    AnswerLast("error", "2", [FIRST], Sent);
    Registries();
  }

  /** A session that was dead with its answer at activation: its death, settled by then, goes out
      with that answer at its next change. */
  lemma OldDeathIsDelivered()
    ensures var e := Baseline(BLANK, Sees("error", "1", [FIRST], Sent));
            var s := Sees("error", "2", [FIRST], Sent);
            var o := Decide(e, READY, s);
            o == Delivered(Report("error", Some(0))) && Sends(s, o) == [Carried("error", 0)]
  {
    Finals();
    AnswerLast("error", "1", [FIRST], Sent);
    AnswerLast("error", "2", [FIRST], Sent);
    Registries();
  }

  /** An answer delivered once goes out again when its session is cancelled. */
  lemma DeathRepeatsAnswer()
    ensures var s, t := Sees("idle", "1", [FIRST], Sent), Sees("cancelled", "2", [FIRST], Sent);
            SentBy(BLANK, [Look(READY, s), Look(READY, t)]) == [Carried(COMPLETED, 0), Carried("cancelled", 0)]
  {
    Finals();
    AnswerLast("idle", "1", [FIRST], Sent);
    AnswerLast("cancelled", "2", [FIRST], Sent);
    Registries();
    var a, b := Look(READY, Sees("idle", "1", [FIRST], Sent)), Look(READY, Sees("cancelled", "2", [FIRST], Sent));
    var v := Visit(BLANK, READY, a.sight);
    assert Sends(a.sight, v.1) == [Carried(COMPLETED, 0)];
    var w := Visit(v.0, READY, b.sight);
    assert Sends(b.sight, w.1) == [Carried("cancelled", 0)];
    assert [a, b][1..] == [b] && [b][1..] == [];
    assert SentBy(v.0, [b]) == Sends(b.sight, w.1) + SentBy(w.0, []);
  }

  // ---- deaths not reported ----

  /** A session that dies with a new answer: the answer is delivered, its death is due and the session
      counts as seen. */
  lemma DeathNotReported()
    ensures var s := Sees("error", "1", [FIRST], Sent);
            var v := Visit(BLANK, READY, s);
            && v.1 == Delivered(Report(COMPLETED, Some(0))) && !NeedsCheck(s.session, v.0)
            && PlanReport(s.session, Tail(s.transcript), v.0) == Some(Report("error", Some(0)))
  {
    Finals();
    AnswerLast("error", "1", [FIRST], Sent);
    Registries();
  }

  /** A session that dies, is taken up again and dies the same death with no new answer: the second
      death is not reported. */
  lemma SecondDeathNotReported()
    ensures var e := Visit(Baseline(BLANK, Sees("idle", "1", [FIRST], Sent)), READY, Sees("error", "2", [FIRST], Sent));
            var f := Visit(e.0, READY, Sees("running", "3", [FIRST], Sent));
            && e.1.Delivered? && f.1.NothingDue?
            && Decide(f.0, READY, Sees("error", "4", [FIRST], Sent)).NothingDue?
  {
    Finals();
    AnswerLast("idle", "1", [FIRST], Sent);
    AnswerLast("error", "2", [FIRST], Sent);
    AnswerLast("running", "3", [FIRST], Sent);
    AnswerLast("error", "4", [FIRST], Sent);
    Registries();
  }

  // ---- answers passed over ----

  lemma OutOfTail(n: nat)
    requires n >= TAIL
    ensures LatestFinal(Tail([FIRST] + Chatter(n))) == None
  {
    var all := [FIRST] + Chatter(n);
    var tail := Tail(all);
    assert forall k | 0 <= k < |tail| :: tail[k].role.Other?;
    LatestIs(tail);
  }

  /** A report held back while its channel is away is lost when 30 messages follow its answer before
      the channel is back: nothing is found due, and the session counts as seen. */
  lemma HeldReportIsLost()
    ensures var held := Visit(BLANK, AWAY, Sees("idle", "1", [FIRST], Sent));
            var back := Sees("idle", "2", [FIRST] + Chatter(TAIL), Sent);
            var v := Visit(held.0, READY, back);
            held.1.Held? && v.1.NothingDue? && !NeedsCheck(back.session, v.0) && v.0.lastReportedMessageId == None
  {
    Finals();
    AnswerLast("idle", "1", [FIRST], Sent);
    Registries();
    OutOfTail(TAIL);
  }

  // ---- answers given up untried ----

  lemma FailsOnce(e: Entry)
    requires e == BLANK.(reportAttempts := e.reportAttempts) && e.reportAttempts < REPORT_ATTEMPT_LIMIT
    ensures Visit(e, READY, Sees("idle", "1", [FIRST], Raised)) ==
            (e.(reportAttempts := e.reportAttempts + 1), Retried(Report(COMPLETED, Some(0))))
  {
    Finals();
    AnswerLast("idle", "1", [FIRST], Raised);
    Registries();
  }

  lemma FailsThrice()
    ensures var fails := Look(READY, Sees("idle", "1", [FIRST], Raised));
            Visits(BLANK, [fails, fails, fails]).0 == BLANK.(reportAttempts := 3)
  {
    var fails := Look(READY, Sees("idle", "1", [FIRST], Raised));
    FailsOnce(BLANK);
    FailsOnce(BLANK.(reportAttempts := 1));
    FailsOnce(BLANK.(reportAttempts := 2));
    VisitsOfThree(BLANK, fails);
  }

  lemma VisitsOfThree(e: Entry, look: Look)
    ensures var a := Visit(e, look.reg, look.sight).0;
            var b := Visit(a, look.reg, look.sight).0;
            Visits(e, [look, look, look]).0 == Visit(b, look.reg, look.sight).0
  {
    VisitsSnoc(e, [], look);
    VisitsSnoc(e, [look], look);
    VisitsSnoc(e, [look, look], look);
    assert [] + [look] == [look] && [look] + [look] == [look, look];
    assert [look, look] + [look] == [look, look, look];
  }

  lemma GivenUpAtOnce(e: Entry)
    requires e == BLANK.(reportAttempts := 3)
    ensures Decide(e, READY, Sees("idle", "2", [FIRST, SECOND], Sent)) == GaveUp(Report(COMPLETED, Some(1)))
  {
    Finals();
    AnswerLast("idle", "2", [FIRST, SECOND], Sent);
    Registries();
  }

  lemma DeathGivenUpAtOnce(e: Entry)
    requires e == BLANK.(reportAttempts := 3)
    ensures Decide(e, READY, Sees("error", "2", [FIRST] + Chatter(TAIL), Sent)) == GaveUp(Report("error", None))
  {
    OutOfTail(TAIL);
    Registries();
    var s := Sees("error", "2", [FIRST] + Chatter(TAIL), Sent);
    assert PlanReport(s.session, Tail(s.transcript), e) == Some(Report("error", None));
    NobodyAsked(Tail(s.transcript));
  }

  lemma NobodyAsked(messages: seq<Message>)
    requires forall k | 0 <= k < |messages| :: messages[k].supervisor == ""
    ensures RoutingSupervisor(Named("error", "2"), messages, None) == HOME
  {
  }

  /** Three turns fail for an answer that then leaves what is shown; the session's death is given up
      without a turn. */
  lemma DeathIsGivenUp()
    ensures var fails := Look(READY, Sees("idle", "1", [FIRST], Raised));
            var e := Visits(BLANK, [fails, fails, fails]).0;
            Decide(e, READY, Sees("error", "2", [FIRST] + Chatter(TAIL), Sent)) == GaveUp(Report("error", None))
  {
    FailsThrice();
    DeathGivenUpAtOnce(BLANK.(reportAttempts := 3));
  }

  /** Three turns fail for one answer; the next answer is given up without a turn. */
  lemma NewerAnswerIsGivenUp()
    ensures var fails := Look(READY, Sees("idle", "1", [FIRST], Raised));
            var e := Visits(BLANK, [fails, fails, fails]).0;
            Decide(e, READY, Sees("idle", "2", [FIRST, SECOND], Sent)) == GaveUp(Report(COMPLETED, Some(1)))
  {
    FailsThrice();
    GivenUpAtOnce(BLANK.(reportAttempts := 3));
  }
}
