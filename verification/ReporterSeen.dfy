/** What it takes for a session to count as seen, over any visits: no answer that was shown is lost
    but to another process, a report held back comes up again as long as it is shown, and a channel
    that is ready and idle settles a report in a bounded number of visits. */
module ReporterSeen {
  import opened Wrappers
  import Text
  import opened Reporter
  import opened ReporterRuns
  import opened ReporterOutcomes

  // ---- one visit ----

  /** The outcomes after which a session counts as seen. */
  predicate MarksSeen(o: Outcome) {
    o.NothingDue? || o.Foreign? || o.Delivered? || o.GaveUp?
  }

  lemma SeenExactly(e: Entry, reg: Registry, s: Sighting)
    ensures var v := Visit(e, reg, s); !NeedsCheck(s.session, v.0) <==> v.1.Unchecked? || MarksSeen(v.1)
  {
  }

  /** What another process is to report is never marked reported here. */
  lemma ForeignIsNotMarked(e: Entry, reg: Registry, s: Sighting)
    requires Decide(e, reg, s).Foreign?
    ensures Visit(e, reg, s).0 ==
            e.(lastSeenActivityAt := s.session.lastActivityAt, lastSeenStatus := Some(s.session.status))
  {
  }

  /** Of a settled report's session something is still due, and not looked at again until it
      changes, exactly if the report was an answer of a session whose death is not reported: the
      answer goes out, the report that the session died does not. */
  lemma DeathUnreportedExactly(e: Entry, reg: Registry, s: Sighting)
    requires Settles(Decide(e, reg, s))
    ensures var v := Visit(e, reg, s);
            && !NeedsCheck(s.session, v.0)
            && (PlanReport(s.session, Tail(s.transcript), v.0).Some? <==>
                v.1.report.kind == COMPLETED && Dead(s.session.status)
                && e.reportedDeadStatus != Some(s.session.status))
  {
    DecideIsPlanned(e, reg, s);
  }

  /** An unreported answer is passed over, and its session counts as seen, exactly if it is out
      of what is shown: 30 messages or more have followed it. */
  lemma PassedOverExactly(e: Entry, reg: Registry, s: Sighting)
    requires NeedsCheck(s.session, e) && !Dead(s.session.status)
    requires LatestFinal(s.transcript).Some?
    requires Some(s.transcript[LatestFinal(s.transcript).value].id) != e.lastReportedMessageId
    ensures Decide(e, reg, s).NothingDue? <==> LatestFinal(s.transcript).value + TAIL < |s.transcript|
  {
    LatestInTail(s.transcript);
    var shown := LatestFinal(Tail(s.transcript));
    if shown.Some? {
      TailAt(s.transcript, shown.value);
    }
  }

  // ---- one visit more ----

  lemma {:induction false} VisitsSnoc(e: Entry, looks: seq<Look>, look: Look)
    ensures var v := Visits(e, looks);
            var w := Visit(v.0, look.reg, look.sight);
            Visits(e, looks + [look]) == (w.0, v.1 + [w.1]) && |v.1| == |looks|
    decreases |looks|
  {
    if looks == [] {
      OneLook(e, look);
    } else {
      var first := Visit(e, looks[0].reg, looks[0].sight).0;
      assert (looks + [look])[0] == looks[0] && (looks + [look])[1..] == looks[1..] + [look];
      VisitsSnoc(first, looks[1..], look);
      var v := Visits(first, looks[1..]);
      Text.Assoc([Visit(e, looks[0].reg, looks[0].sight).1], v.1, [Visit(v.0, look.reg, look.sight).1]);
    }
  }

  lemma OneLook(e: Entry, look: Look)
    ensures var w := Visit(e, look.reg, look.sight); Visits(e, [] + [look]) == (w.0, [] + [w.1])
  {
    var w := Visit(e, look.reg, look.sight);
    assert [] + [look] == [look] && [look][1..] == [];
    assert Visits(w.0, []) == (w.0, []);
    assert [w.1] + [] == [] + [w.1];
  }

  lemma VisitsLength(e: Entry, looks: seq<Look>)
    ensures |Visits(e, looks).1| == |looks|
  {
    if looks != [] {
      VisitsSnoc(e, looks[..|looks| - 1], looks[|looks| - 1]);
      assert looks[..|looks| - 1] + [looks[|looks| - 1]] == looks;
    }
  }

  // ---- no answer is lost ----

  /** The last visit after which the session counted as seen. */
  function LastSeen(outcomes: seq<Outcome>): (k: Option<nat>)
    ensures k.Some? ==> k.value < |outcomes| && MarksSeen(outcomes[k.value])
  {
    if outcomes == [] then None
    else if MarksSeen(outcomes[|outcomes| - 1]) then Some(|outcomes| - 1)
    else LastSeen(outcomes[..|outcomes| - 1])
  }

  /** The message with this id was in a report delivered or given up at visit `k`. */
  predicate SettledAt(look: Look, o: Outcome, id: string) {
    && Settles(o) && o.report.message.Some? && o.report.message.value < |Tail(look.sight.transcript)|
    && Tail(look.sight.transcript)[o.report.message.value].id == id
  }

  ghost predicate WasSettled(looks: seq<Look>, outcomes: seq<Outcome>, id: string)
    requires |outcomes| == |looks|
  {
    exists k :: 0 <= k < |looks| && SettledAt(looks[k], outcomes[k], id)
  }

  /** What the look shows is to go to another process, or to nobody: its recipient is no registered
      channel and has no prefix this process owns. */
  ghost predicate GoesElsewhere(look: Look) {
    var messages := Tail(look.sight.transcript);
    Elsewhere(look.reg, RoutingSupervisor(look.sight.session, messages, LatestFinal(messages)))
  }

  function ShownId(s: Sighting): Option<string> {
    var latest := LatestFinal(Tail(s.transcript));
    if latest.Some? then Some(Tail(s.transcript)[latest.value].id) else None
  }

  predicate SeenAs(e: Entry, session: Session) {
    e.lastSeenActivityAt == session.lastActivityAt && e.lastSeenStatus == Some(session.status)
  }

  /** The entry after some visits: as seen as at the last one that marked it seen, when the answer
      shown was the one marked, unless what it showed went elsewhere. */
  ghost predicate SeenOk(e: Entry, looks: seq<Look>, outcomes: seq<Outcome>, after: Entry)
    requires |outcomes| == |looks|
  {
    var k := LastSeen(outcomes);
    if k.None? then
      && after.lastSeenActivityAt == e.lastSeenActivityAt && after.lastSeenStatus == e.lastSeenStatus
      && after.lastReportedMessageId == e.lastReportedMessageId
    else
      var s := looks[k.value].sight;
      && SeenAs(after, s.session)
      && (GoesElsewhere(looks[k.value]) || ShownId(s).None? || after.lastReportedMessageId == ShownId(s))
  }

  ghost predicate MarkOk(e: Entry, looks: seq<Look>, outcomes: seq<Outcome>, after: Entry)
    requires |outcomes| == |looks|
  {
    after.lastReportedMessageId != e.lastReportedMessageId ==>
      after.lastReportedMessageId.Some? && WasSettled(looks, outcomes, after.lastReportedMessageId.value)
  }

  /** What a visit does to mark and seen fields. */
  lemma VisitSees(e: Entry, reg: Registry, s: Sighting)
    ensures var v := Visit(e, reg, s);
            && (MarksSeen(v.1) ==>
                 && SeenAs(v.0, s.session)
                 && (GoesElsewhere(Look(reg, s)) || ShownId(s).None? || v.0.lastReportedMessageId == ShownId(s)))
            && (!MarksSeen(v.1) ==> v.0 == e.(reportAttempts := v.0.reportAttempts))
            && (v.0.lastReportedMessageId != e.lastReportedMessageId ==>
                 v.0.lastReportedMessageId.Some? && SettledAt(Look(reg, s), v.1, v.0.lastReportedMessageId.value))
  {
    DecideIsPlanned(e, reg, s);
    OursExactly(reg, RoutingSupervisor(s.session, Tail(s.transcript), LatestFinal(Tail(s.transcript))));
  }

  lemma SeenSnoc(e: Entry, looks: seq<Look>, outcomes: seq<Outcome>, mid: Entry, look: Look, o: Outcome, after: Entry)
    requires |outcomes| == |looks| && SeenOk(e, looks, outcomes, mid)
    requires (after, o) == Visit(mid, look.reg, look.sight)
    ensures SeenOk(e, looks + [look], outcomes + [o], after)
  {
    VisitSees(mid, look.reg, look.sight);
    assert (outcomes + [o])[..|outcomes|] == outcomes;
  }

  lemma MarkSnoc(e: Entry, looks: seq<Look>, outcomes: seq<Outcome>, mid: Entry, look: Look, o: Outcome, after: Entry)
    requires |outcomes| == |looks| && MarkOk(e, looks, outcomes, mid)
    requires (after, o) == Visit(mid, look.reg, look.sight)
    ensures MarkOk(e, looks + [look], outcomes + [o], after)
  {
    VisitSees(mid, look.reg, look.sight);
    var all, os := looks + [look], outcomes + [o];
    if after.lastReportedMessageId != mid.lastReportedMessageId {
      assert SettledAt(all[|looks|], os[|looks|], after.lastReportedMessageId.value);
    } else if mid.lastReportedMessageId != e.lastReportedMessageId {
      var k :| 0 <= k < |looks| && SettledAt(looks[k], outcomes[k], mid.lastReportedMessageId.value);
      assert SettledAt(all[k], os[k], mid.lastReportedMessageId.value);
    }
  }

  lemma {:induction false} VisitsSee(e: Entry, looks: seq<Look>)
    ensures var v := Visits(e, looks);
            |v.1| == |looks| && SeenOk(e, looks, v.1, v.0) && MarkOk(e, looks, v.1, v.0)
    decreases |looks|
  {
    if looks != [] {
      var init, look := looks[..|looks| - 1], looks[|looks| - 1];
      VisitsSee(e, init);
      VisitsSnoc(e, init, look);
      assert init + [look] == looks;
      var v := Visits(e, init);
      var w := Visit(v.0, look.reg, look.sight);
      SeenSnoc(e, init, v.1, v.0, look, w.1, w.0);
      MarkSnoc(e, init, v.1, v.0, look, w.1, w.0);
    }
  }

  /** No completed report is lost: whenever a session counts as seen, at this observation there was a
      visit, the last that marked it seen, when it looked the same, and the latest answer shown to it
      has been delivered or given up, at that visit or before, unless its recipient was then nobody, or
      unregistered and of no owned prefix. */
  lemma NoAnswerLost(looks: seq<Look>, session: Session)
    requires !NeedsCheck(session, Visits(BLANK, looks).0)
    ensures var outcomes := Visits(BLANK, looks).1;
            var k := LastSeen(outcomes);
            && |outcomes| == |looks| && k.Some?
            && (var s := looks[k.value].sight;
                && s.session.status == session.status && s.session.lastActivityAt == session.lastActivityAt
                && (GoesElsewhere(looks[k.value]) || ShownId(s).None? || WasSettled(looks, outcomes, ShownId(s).value)))
  {
    VisitsSee(BLANK, looks);
  }

  /** The same from the first activation on: what was baselined counts as settled. */
  lemma NoAnswerLostSince(first: Sighting, looks: seq<Look>, session: Session)
    requires !NeedsCheck(session, Visits(Baseline(BLANK, first), looks).0)
    ensures var outcomes := Visits(Baseline(BLANK, first), looks).1;
            var k := LastSeen(outcomes);
            |outcomes| == |looks| &&
            (var s := if k.Some? then looks[k.value].sight else first;
             && s.session.status == session.status && s.session.lastActivityAt == session.lastActivityAt
             && ((k.Some? && GoesElsewhere(looks[k.value])) || ShownId(s).None? || ShownId(s) == ShownId(first)
                 || WasSettled(looks, outcomes, ShownId(s).value)))
  {
    VisitsSee(Baseline(BLANK, first), looks);
  }

  // ---- a report held back ----

  ghost predicate AllHeld(outcomes: seq<Outcome>) {
    forall k | 0 <= k < |outcomes| :: outcomes[k].Held? || outcomes[k].Busy?
  }

  lemma {:induction false} HeldKeeps(e: Entry, looks: seq<Look>)
    requires AllHeld(Visits(e, looks).1)
    ensures Visits(e, looks).0 == e
    decreases |looks|
  {
    if looks != [] {
      var v := Visit(e, looks[0].reg, looks[0].sight);
      var rest := Visits(v.0, looks[1..]).1;
      assert Visits(e, looks).1 == [v.1] + rest;
      assert ([v.1] + rest)[0] == v.1;
      assert forall k | 0 <= k < |rest| :: rest[k] == ([v.1] + rest)[k + 1];
      HeldKeeps(e, looks[1..]);
    }
  }

  /** The report a session is due, if the next visit looks. */
  function Due(e: Entry, s: Sighting): Option<Report> {
    if NeedsCheck(s.session, e) then PlanReport(s.session, Tail(s.transcript), e) else None
  }

  lemma {:induction false} GrowsTo(transcript: seq<Message>, looks: seq<Look>)
    requires Grows(transcript, looks)
    ensures transcript <= LastTranscript(transcript, looks)
    decreases |looks|
  {
    if looks != [] {
      GrowsTo(looks[0].sight.transcript, looks[1..]);
      assert LastTranscript(transcript, looks) == LastTranscript(looks[0].sight.transcript, looks[1..]);
    }
  }

  /** After any number of visits that found the channel busy, unready or unregistered, and however
      the transcript has grown, an answer is due exactly if the session still looks changed and an
      answer after the mark is among the last 30 messages; then the newest of them is planned, so a
      report held back is replaced only by a newer one, and lost exactly when 30 messages have
      followed the answer. A death is due exactly if no such answer is shown and the session is dead
      with a status not reported. */
  lemma HeldExactly(e: Entry, transcript: seq<Message>, p: int, looks: seq<Look>, t: Sighting)
    requires Marked(e, transcript, p) && Grows(transcript, looks) && AllHeld(Visits(e, looks).1)
    requires LastTranscript(transcript, looks) <= t.transcript && DistinctIds(t.transcript)
    ensures var due := Due(Visits(e, looks).0, t);
            && (due.Some? && due.value.kind == COMPLETED <==> NeedsCheck(t.session, e) && !NoneNewer(t.transcript, p))
            && (due.Some? && due.value.kind == COMPLETED ==> Newest(t.transcript, At(t, due.value)))
            && (due.Some? && due.value.kind != COMPLETED <==>
                && NeedsCheck(t.session, e) && NoneNewer(t.transcript, p)
                && Dead(t.session.status) && e.reportedDeadStatus != Some(t.session.status))
  {
    HeldKeeps(e, looks);
    GrowsTo(transcript, looks);
    MarkedStays(e, transcript, t.transcript, p);
    PlanIs(e, t, p);
  }

  // ---- a channel that is ready and idle ----

  /** The session's channel, wherever its report goes, is registered, connected and bound, and its
      agent idle. */
  predicate ReadyIdle(look: Look) {
    var messages := Tail(look.sight.transcript);
    var to := RoutingSupervisor(look.sight.session, messages, LatestFinal(messages));
    to != "" && Ready(look.reg, to) && !look.sight.busy
  }

  /** A visit on such a channel settles what is due, or costs an attempt. */
  lemma ReadyVisit(e: Entry, look: Look)
    requires ReadyIdle(look) && e.reportAttempts <= REPORT_ATTEMPT_LIMIT
    ensures var v := Visit(e, look.reg, look.sight);
            if v.1.Retried? then
              v.0 == e.(reportAttempts := e.reportAttempts + 1) && e.reportAttempts < REPORT_ATTEMPT_LIMIT
            else !NeedsCheck(look.sight.session, v.0) && (Settles(v.1) <==> Due(e, look.sight).Some?)
  {
    var messages := Tail(look.sight.transcript);
    var plan := PlanReport(look.sight.session, messages, e);
    assert plan.Some? ==> plan.value.message == LatestFinal(messages);
  }

  /** Up to visit `k` all turns fail, and there the session comes to count as seen, with its report
      delivered or given up exactly if one is due. */
  ghost predicate SettledBy(e: Entry, looks: seq<Look>, k: nat) {
    var outcomes := Visits(e, looks).1;
    && k < |looks| == |outcomes|
    && (forall j | 0 <= j < k :: outcomes[j].Retried?)
    && !NeedsCheck(looks[k].sight.session, Visits(e, looks[..k + 1]).0)
    && (Settles(outcomes[k]) <==> Due(e, looks[k].sight).Some?)
  }

  lemma SettledNow(e: Entry, looks: seq<Look>)
    requires looks != [] && ReadyIdle(looks[0]) && e.reportAttempts <= REPORT_ATTEMPT_LIMIT
    requires !Visit(e, looks[0].reg, looks[0].sight).1.Retried?
    ensures SettledBy(e, looks, 0)
  {
    ReadyVisit(e, looks[0]);
    OneLook(e, looks[0]);
    assert looks[..1] == [] + [looks[0]];
    VisitsLength(e, looks);
  }

  lemma SettledLater(e: Entry, looks: seq<Look>, f: Entry, k: nat)
    requires looks != [] && f == e.(reportAttempts := f.reportAttempts) && SettledBy(f, looks[1..], k)
    requires (f, Visit(e, looks[0].reg, looks[0].sight).1) == Visit(e, looks[0].reg, looks[0].sight)
    requires Visit(e, looks[0].reg, looks[0].sight).1.Retried?
    ensures SettledBy(e, looks, k + 1)
  {
    var o, rest := Visit(e, looks[0].reg, looks[0].sight).1, looks[1..];
    assert Visits(e, looks).1 == [o] + Visits(f, rest).1;
    var begin := looks[..k + 2];
    assert begin[0] == looks[0] && begin[1..] == rest[..k + 1];
    assert Visits(e, begin).0 == Visits(f, rest[..k + 1]).0;
    assert looks[k + 1] == rest[k];
  }

  /** On a channel that is ready and idle, whatever the turns do, one visit more than the attempts
      left is enough. */
  lemma {:induction false} SettledWithin(e: Entry, looks: seq<Look>) returns (k: nat)
    requires e.reportAttempts <= REPORT_ATTEMPT_LIMIT && |looks| == REPORT_ATTEMPT_LIMIT + 1 - e.reportAttempts
    requires forall j | 0 <= j < |looks| :: ReadyIdle(looks[j])
    ensures SettledBy(e, looks, k)
    decreases |looks|
  {
    ReadyVisit(e, looks[0]);
    var v := Visit(e, looks[0].reg, looks[0].sight);
    if v.1.Retried? {
      var rest := looks[1..];
      assert forall j | 0 <= j < |rest| :: rest[j] == looks[j + 1];
      k := SettledWithin(v.0, rest);
      SettledLater(e, looks, v.0, k);
      k := k + 1;
    } else {
      SettledNow(e, looks);
      k := 0;
    }
  }
}
