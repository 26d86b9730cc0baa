/** What one visit of the completion reporter does, decision by decision, in terms of the session, its
    last 30 messages, the registered channels and the entry's fields. */
module ReporterOutcomes {
  import opened Wrappers
  import opened Text
  import opened Reporter
  import opened ReporterRuns

  // ---- what is looked at ----

  /** The last 30 messages, or all if there are not as many. */
  lemma TailExactly(transcript: seq<Message>)
    ensures var tail := Tail(transcript);
            && |tail| == (if |transcript| < 30 then |transcript| else 30)
            && tail == transcript[|transcript| - |tail|..]
  {
  }

  /** An agent's message with a visible final answer. */
  ghost predicate IsAnswer(m: Message) {
    m.role.Agent? && exists i :: 0 <= i < |m.finalAnswer| && !IsSpace(m.finalAnswer[i])
  }

  /** `k` is the last answer of the messages. */
  ghost predicate IsLatest(messages: seq<Message>, k: nat) {
    k < |messages| && IsAnswer(messages[k]) && forall j | k < j < |messages| :: !IsAnswer(messages[j])
  }

  lemma LatestExactly(messages: seq<Message>, k: nat)
    ensures LatestFinal(messages) == Some(k) <==> IsLatest(messages, k)
    ensures LatestFinal(messages).None? <==> forall j | 0 <= j < |messages| :: !IsAnswer(messages[j])
  {
    LatestIs(messages);
    forall j | 0 <= j < |messages| ensures IsFinal(messages[j]) <==> IsAnswer(messages[j]) {
    }
  }

  /** An answer is due: it is the last one shown, and not the one reported. */
  ghost predicate AnswerDue(e: Entry, messages: seq<Message>, k: nat) {
    IsLatest(messages, k) && e.lastReportedMessageId != Some(messages[k].id)
  }

  /** A death is due: no answer is, the session is dead, and that status is not the one reported. It
      carries the last answer shown, if there is one. */
  ghost predicate DeathDue(e: Entry, session: Session, messages: seq<Message>, carried: Option<nat>) {
    && (session.status == "error" || session.status == "cancelled")
    && e.reportedDeadStatus != Some(session.status)
    && (forall k: nat :: !AnswerDue(e, messages, k))
    && match carried
       case Some(k) => IsLatest(messages, k)
       case None => forall j | 0 <= j < |messages| :: !IsAnswer(messages[j])
  }

  ghost predicate IsDue(e: Entry, session: Session, messages: seq<Message>, r: Report) {
    || (r.kind == "completed" && r.message.Some? && AnswerDue(e, messages, r.message.value))
    || (r.kind == session.status && DeathDue(e, session, messages, r.message))
  }

  lemma DueExactly(e: Entry, session: Session, messages: seq<Message>, r: Report)
    ensures PlanReport(session, messages, e) == Some(r) <==> IsDue(e, session, messages, r)
  {
    var latest := LatestFinal(messages);
    forall k: nat ensures LatestFinal(messages) == Some(k) <==> IsLatest(messages, k) {
      LatestExactly(messages, k);
    }
    LatestExactly(messages, 0);
    assert forall k: nat :: AnswerDue(e, messages, k) <==>
        latest == Some(k) && e.lastReportedMessageId != Some(messages[k].id);
    assert latest.Some? ==> (AnswerDue(e, messages, latest.value) <==>
        e.lastReportedMessageId != Some(messages[latest.value].id));
  }

  lemma NothingDueExactly(e: Entry, session: Session, messages: seq<Message>)
    ensures PlanReport(session, messages, e).None? <==> forall r :: !IsDue(e, session, messages, r)
  {
    var plan := PlanReport(session, messages, e);
    if plan.Some? {
      DueExactly(e, session, messages, plan.value);
    } else {
      forall r ensures !IsDue(e, session, messages, r) {
        DueExactly(e, session, messages, r);
      }
    }
  }

  // ---- where it goes ----

  /** The recipient is nobody, or is not registered and has no prefix this process owns. */
  ghost predicate Elsewhere(reg: Registry, to: string) {
    to == "" || (to !in reg.channels && forall k | 0 <= k < |reg.owned| :: !(reg.owned[k] <= to))
  }

  /** The recipient is registered, connected, and bound to one owner. */
  predicate Reachable(reg: Registry, to: string) {
    to in reg.channels && reg.channels[to].connected && reg.channels[to].owner.Some?
  }

  lemma {:induction false} OwnedExactly(owned: seq<string>, to: string)
    ensures OwnedPrefix(owned, to) <==> exists k :: 0 <= k < |owned| && owned[k] <= to
  {
    if owned != [] {
      OwnedExactly(owned[1..], to);
      assert forall k | 0 < k < |owned| :: owned[k] == owned[1..][k - 1];
    }
  }

  lemma OursExactly(reg: Registry, to: string)
    ensures IsOurs(reg, to) <==> !Elsewhere(reg, to)
  {
    OwnedExactly(reg.owned, to);
  }

  // ---- a visit ----

  function Seen(e: Entry, session: Session): Entry {
    Entry(e.lastReportedMessageId, e.reportedDeadStatus, e.reportAttempts, session.lastActivityAt, Some(session.status))
  }

  /** The entry with a report settled: its answer, if it carries one, and its death, if it is one, are
      the ones reported, and the attempts start over. */
  function Marks(e: Entry, messages: seq<Message>, r: Report): Entry
    requires r.message.Some? ==> r.message.value < |messages|
  {
    Entry(if r.message.Some? then Some(messages[r.message.value].id) else e.lastReportedMessageId,
          if r.kind == "completed" then e.reportedDeadStatus else Some(r.kind),
          0, e.lastSeenActivityAt, e.lastSeenStatus)
  }

  /** What a visit does with a report that is due. */
  ghost predicate Answers(e: Entry, reg: Registry, s: Sighting, r: Report, after: Entry, o: Outcome)
    requires IsDue(e, s.session, Tail(s.transcript), r)
  {
    var messages := Tail(s.transcript);
    var to := RoutingSupervisor(s.session, messages, r.message);
    if Elsewhere(reg, to) then o == Foreign && after == Seen(e, s.session)
    else if !Reachable(reg, to) then o == Held && after == e
    else if s.busy then o == Outcome.Busy && after == e
    else if e.reportAttempts >= 3 then o == GaveUp(r) && after == Seen(Marks(e, messages, r), s.session)
    else if s.turn == TimedOut || s.turn == Raised then
      o == Retried(r) && after == e.(reportAttempts := e.reportAttempts + 1)
    else o == Delivered(r) && after == Seen(Marks(e, messages, r), s.session)
  }

  lemma MarksExactly(e: Entry, session: Session, messages: seq<Message>, r: Report)
    requires IsDue(e, session, messages, r)
    ensures MarkReported(e, messages, r) == Marks(e, messages, r)
  {
  }

  /** A visit, exactly: a session that looks as when it last counted as seen is not touched; one with
      nothing due counts as seen; and with a report due, that goes by the recipient, the channel's
      agent, the attempts and the turn, in this order. */
  lemma VisitExactly(e: Entry, reg: Registry, s: Sighting)
    ensures var messages, v := Tail(s.transcript), Visit(e, reg, s);
            if e.lastSeenActivityAt == s.session.lastActivityAt && e.lastSeenStatus == Some(s.session.status)
            then v == (e, Unchecked)
            else if forall r :: !IsDue(e, s.session, messages, r) then v == (Seen(e, s.session), NothingDue)
            else exists r :: IsDue(e, s.session, messages, r) && Answers(e, reg, s, r, v.0, v.1)
  {
    var messages := Tail(s.transcript);
    NothingDueExactly(e, s.session, messages);
    var plan := PlanReport(s.session, messages, e);
    if plan.Some? && NeedsCheck(s.session, e) {
      DueExactly(e, s.session, messages, plan.value);
      OursExactly(reg, RoutingSupervisor(s.session, messages, plan.value.message));
      MarksExactly(e, s.session, messages, plan.value);
      WithReport(e, reg, s, plan.value);
    }
  }

  lemma WithReport(e: Entry, reg: Registry, s: Sighting, r: Report)
    requires NeedsCheck(s.session, e) && PlanReport(s.session, Tail(s.transcript), e) == Some(r)
    requires IsDue(e, s.session, Tail(s.transcript), r)
    requires var to := RoutingSupervisor(s.session, Tail(s.transcript), r.message);
             IsOurs(reg, to) <==> !Elsewhere(reg, to)
    requires MarkReported(e, Tail(s.transcript), r) == Marks(e, Tail(s.transcript), r)
    ensures var v := Visit(e, reg, s); Answers(e, reg, s, r, v.0, v.1)
  {
  }

  /** With a report due, a session is taken for another process's exactly if the recipient is nobody,
      or unregistered and of no owned prefix; for an owned prefix that is not registered the report is
      held, and the entry stays as it is. */
  lemma ForeignExactly(e: Entry, reg: Registry, s: Sighting)
    requires NeedsCheck(s.session, e) && PlanReport(s.session, Tail(s.transcript), e).Some?
    ensures var to := RoutingSupervisor(s.session, Tail(s.transcript), LatestFinal(Tail(s.transcript)));
            var v := Visit(e, reg, s);
            && (v.1.Foreign? <==>
                to == "" || (to !in reg.channels && forall k | 0 <= k < |reg.owned| :: !(reg.owned[k] <= to)))
            && (!v.1.Foreign? && to !in reg.channels ==> v == (e, Held))
  {
    var to := RoutingSupervisor(s.session, Tail(s.transcript), LatestFinal(Tail(s.transcript)));
    OursExactly(reg, to);
  }

  // ---- the baseline ----

  /** What the first activation marks of a session not seen before: the last answer shown, or else the
      death, and the session as seen. */
  lemma BaselineExactly(s: Sighting)
    ensures var messages, e := Tail(s.transcript), Baseline(BLANK, s);
            && e.lastSeenActivityAt == s.session.lastActivityAt && e.lastSeenStatus == Some(s.session.status)
            && e.reportAttempts == 0
            && match LatestFinal(messages)
               case Some(k) => e.lastReportedMessageId == Some(messages[k].id) && e.reportedDeadStatus == None
               case None =>
                 && e.lastReportedMessageId == None
                 && e.reportedDeadStatus ==
                    (if s.session.status == "error" || s.session.status == "cancelled"
                     then Some(s.session.status) else None)
  {
  }

  // ---- a tick ----

  /** A tick does nothing without the command line or a channel that is connected and bound. */
  lemma IdleExactly(store: Store, reg: Registry, listing: seq<Sighting>)
    requires !reg.cli || forall to | to in reg.channels :: !Reachable(reg, to)
    ensures Tick(store, reg, listing) == (store, [])
  {
  }

  lemma {:induction false} VisitedIds(sessions: Entries, reg: Registry, listing: seq<Sighting>, id: string)
    ensures id in VisitEach(sessions, reg, listing).0 <==>
            id in sessions || (id != "" && exists k :: 0 <= k < |listing| && listing[k].session.id == id
                                                       && listing[k].session.status != "archived")
  {
    if listing != [] {
      var n := |listing| - 1;
      VisitedIds(sessions, reg, listing[..n], id);
      assert forall k | 0 <= k < n :: listing[..n][k] == listing[k];
      assert Candidate(listing[n]) <==> listing[n].session.status != "archived" && listing[n].session.id != "";
    }
  }

  /** The entries after a tick that lists the sessions: of those listed, archived or not, the ones
      there were and the ones looked at. */
  lemma KeptExactly(store: Store, reg: Registry, listing: seq<Sighting>, id: string)
    requires !store.isNew && reg.cli && exists to :: to in reg.channels && Reachable(reg, to)
    ensures var sessions := Tick(store, reg, listing).0.sessions;
            id in sessions <==>
            && id != "" && (exists k :: 0 <= k < |listing| && listing[k].session.id == id)
            && (id in store.sessions || exists k :: 0 <= k < |listing| && listing[k].session.id == id
                                                    && listing[k].session.status != "archived")
  {
    VisitedIds(store.sessions, reg, listing, id);
    var to :| to in reg.channels && Reachable(reg, to);
    assert Ready(reg, to);
  }
}
