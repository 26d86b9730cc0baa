/** The completion reporter over time: one session visited again and again while its transcript
    grows. Which answers go out in which order, which of them again with the report that a session
    died, and how many report turns are spent on what. */
module ReporterRuns {
  import opened Wrappers
  import opened Reporter

  /** A visit's circumstances. */
  datatype Look = Look(reg: Registry, sight: Sighting)

  /** The visits of one session, in order. */
  function Visits(e: Entry, looks: seq<Look>): (Entry, seq<Outcome>)
    decreases |looks|
  {
    if looks == [] then (e, [])
    else
      var v := Visit(e, looks[0].reg, looks[0].sight);
      var rest := Visits(v.0, looks[1..]);
      (rest.0, [v.1] + rest.1)
  }

  /** Messages are only ever added to a transcript. */
  ghost predicate Grows(transcript: seq<Message>, looks: seq<Look>)
    decreases |looks|
  {
    looks == [] || (transcript <= looks[0].sight.transcript && Grows(looks[0].sight.transcript, looks[1..]))
  }

  ghost predicate DistinctIds(transcript: seq<Message>) {
    forall i, j | 0 <= i < j < |transcript| :: transcript[i].id != transcript[j].id
  }

  ghost predicate AllDistinct(looks: seq<Look>) {
    forall k | 0 <= k < |looks| :: DistinctIds(looks[k].sight.transcript)
  }

  // ---- the latest answer and the tail ----

  ghost predicate NoFinalFrom(messages: seq<Message>, from: nat) {
    forall k | from <= k < |messages| :: !IsFinal(messages[k])
  }

  lemma {:induction false} LatestIs(messages: seq<Message>)
    ensures var r := LatestFinal(messages);
            if r.Some? then NoFinalFrom(messages, r.value + 1) else NoFinalFrom(messages, 0)
  {
    if messages != [] && !IsFinal(messages[|messages| - 1]) {
      var init := messages[..|messages| - 1];
      LatestIs(init);
      forall k | 0 <= k < |init| ensures messages[k] == init[k] {
      }
    }
  }

  lemma LatestUnique(messages: seq<Message>, k: nat)
    requires k < |messages| && IsFinal(messages[k]) && NoFinalFrom(messages, k + 1)
    ensures LatestFinal(messages) == Some(k)
  {
    LatestIs(messages);
  }

  function TailStart(transcript: seq<Message>): nat {
    |transcript| - |Tail(transcript)|
  }

  lemma TailAt(transcript: seq<Message>, k: nat)
    requires k < |Tail(transcript)|
    ensures TailStart(transcript) + k < |transcript| && Tail(transcript)[k] == transcript[TailStart(transcript) + k]
  {
  }

  lemma TailNoFinal(transcript: seq<Message>, from: nat)
    requires NoFinalFrom(Tail(transcript), from)
    ensures NoFinalFrom(transcript, TailStart(transcript) + from)
  {
    var start := TailStart(transcript);
    forall k | start + from <= k < |transcript| ensures !IsFinal(transcript[k]) {
      TailAt(transcript, k - start);
      assert !IsFinal(Tail(transcript)[k - start]);
    }
  }

  /** `session show` gives the last messages only: the latest answer of the whole transcript is
      found in them exactly if no more than 29 messages have followed it. */
  lemma LatestInTail(transcript: seq<Message>)
    ensures var all, shown := LatestFinal(transcript), LatestFinal(Tail(transcript));
            && (shown.Some? <==> all.Some? && all.value + TAIL >= |transcript|)
            && (shown.Some? ==> all == Some(TailStart(transcript) + shown.value))
  {
    var tail, start := Tail(transcript), TailStart(transcript);
    var all, shown := LatestFinal(transcript), LatestFinal(tail);
    LatestIs(tail);
    if shown.Some? {
      TailAt(transcript, shown.value);
      TailNoFinal(transcript, shown.value + 1);
      LatestUnique(transcript, start + shown.value);
    } else {
      TailNoFinal(transcript, 0);
      assert all.Some? ==> !(start <= all.value);
    }
  }

  // ---- what one visit does ----

  /** Where in the transcript the answer is that a report of it carries; -1 if it carries none. */
  function At(s: Sighting, r: Report): int {
    if r.message.Some? then TailStart(s.transcript) + r.message.value else -1
  }

  /** The entry names the answer at `p` of the transcript as reported, or none if `p` is -1. */
  ghost predicate Marked(e: Entry, transcript: seq<Message>, p: int) {
    && -1 <= p < |transcript|
    && e.lastReportedMessageId == (if p < 0 then None else Some(transcript[p].id))
    && (p >= 0 ==> IsFinal(transcript[p]))
  }

  lemma MarkedStays(e: Entry, transcript: seq<Message>, more: seq<Message>, p: int)
    requires Marked(e, transcript, p) && transcript <= more
    ensures Marked(e, more, p)
  {
  }

  /** The answer at `q` is shown, and the latest. */
  ghost predicate Newest(transcript: seq<Message>, q: int) {
    0 <= q < |transcript| && q + TAIL >= |transcript| && IsFinal(transcript[q]) && NoFinalFrom(transcript, q + 1)
  }

  lemma ShownIsNewest(s: Sighting)
    ensures var latest := LatestFinal(Tail(s.transcript));
            && (latest.Some? ==>
                 && Newest(s.transcript, TailStart(s.transcript) + latest.value)
                 && Tail(s.transcript)[latest.value] == s.transcript[TailStart(s.transcript) + latest.value])
            && (latest.None? ==> NoFinalFrom(s.transcript, TailStart(s.transcript)))
  {
    var latest := LatestFinal(Tail(s.transcript));
    LatestIs(Tail(s.transcript));
    if latest.Some? {
      TailAt(s.transcript, latest.value);
      TailNoFinal(s.transcript, latest.value + 1);
    } else {
      TailNoFinal(s.transcript, 0);
    }
  }

  /** What is planned for an entry whose mark is at `p`: a newer answer, if one is shown; else, if
      the session is dead and that is not reported, the death, with the marked answer if that is
      still shown; else nothing. */
  ghost predicate PlansAs(e: Entry, s: Sighting, p: int) {
    var plan := PlanReport(s.session, Tail(s.transcript), e);
    var unreported := Dead(s.session.status) && e.reportedDeadStatus != Some(s.session.status);
    && (plan.Some? && plan.value.kind == COMPLETED ==> At(s, plan.value) > p && Newest(s.transcript, At(s, plan.value)))
    && (plan.Some? && plan.value.kind != COMPLETED ==>
         && unreported && plan.value.kind == s.session.status && NoneNewer(s.transcript, p)
         && At(s, plan.value) == (if p + TAIL >= |s.transcript| then p else -1))
    && (plan.None? ==> !unreported && NoneNewer(s.transcript, p))
  }

  /** No answer after `p` is shown. */
  ghost predicate NoneNewer(transcript: seq<Message>, p: int) {
    forall q: nat | p < q < |transcript| && q + TAIL >= |transcript| :: !IsFinal(transcript[q])
  }

  lemma MarkIsNewest(e: Entry, s: Sighting, p: int)
    requires Marked(e, s.transcript, p) && DistinctIds(s.transcript)
    ensures var latest := LatestFinal(Tail(s.transcript));
            latest.Some? ==>
              && p <= TailStart(s.transcript) + latest.value
              && (p < TailStart(s.transcript) + latest.value <==>
                  Some(Tail(s.transcript)[latest.value].id) != e.lastReportedMessageId)
  {
    ShownIsNewest(s);
  }

  lemma PlanIs(e: Entry, s: Sighting, p: int)
    requires Marked(e, s.transcript, p) && DistinctIds(s.transcript)
    ensures PlansAs(e, s, p)
  {
    ShownIsNewest(s);
    MarkIsNewest(e, s, p);
  }

  ghost predicate Planned(e: Entry, s: Sighting, o: Outcome) {
    o.Delivered? || o.GaveUp? || o.Retried? ==> PlanReport(s.session, Tail(s.transcript), e) == Some(o.report)
  }

  lemma DecideIsPlanned(e: Entry, reg: Registry, s: Sighting)
    ensures Planned(e, s, Decide(e, reg, s))
  {
  }

  predicate Settles(o: Outcome) {
    o.Delivered? || o.GaveUp?
  }

  // ---- a session's story ----

  /** A report by what it says: `completed` or a death, and where its answer is. */
  datatype Carried = Carried(kind: string, at: int)

  /** What the visits so far amount to: where the mark is, the failed turns up to the last report
      settled, and those since. */
  datatype Story = Story(mark: int, past: seq<Carried>, tries: seq<Carried>)

  const UNTOLD := Story(-1, [], [])

  function StoryAfter(s: Sighting, o: Outcome, y: Story): Story {
    match o
    case Retried(r) => y.(tries := y.tries + [Carried(r.kind, At(s, r))])
    case Delivered(r) => Story(if r.kind == COMPLETED then At(s, r) else y.mark, y.past + y.tries, [])
    case GaveUp(r) => Story(if r.kind == COMPLETED then At(s, r) else y.mark, y.past + y.tries, [])
    case _ => y
  }

  function Follow(e: Entry, looks: seq<Look>, y: Story): Story
    decreases |looks|
  {
    if looks == [] then y
    else
      var v := Visit(e, looks[0].reg, looks[0].sight);
      Follow(v.0, looks[1..], StoryAfter(looks[0].sight, v.1, y))
  }

  ghost predicate TriesOk(transcript: seq<Message>, tries: seq<Carried>) {
    forall k | 0 <= k < |tries| && tries[k].kind == COMPLETED ::
      0 <= tries[k].at < |transcript| && IsFinal(transcript[tries[k].at])
  }

  /** None of the tries is of an answer that could still be planned. */
  ghost predicate Past(transcript: seq<Message>, mark: int, tries: seq<Carried>) {
    forall k | 0 <= k < |tries| && tries[k].kind == COMPLETED ::
      tries[k].at <= mark || tries[k].at + TAIL < |transcript|
  }

  ghost predicate StoryOk(e: Entry, transcript: seq<Message>, y: Story) {
    && Marked(e, transcript, y.mark)
    && |y.tries| == e.reportAttempts <= REPORT_ATTEMPT_LIMIT
    && TriesOk(transcript, y.tries) && TriesOk(transcript, y.past) && Past(transcript, y.mark, y.past)
    && Ahead(y.mark, y.tries)
  }

  /** The tries since the last settled report are of answers after the mark, or of deaths. */
  ghost predicate Ahead(mark: int, tries: seq<Carried>) {
    forall k | 0 <= k < |tries| :: if tries[k].kind == COMPLETED then tries[k].at > mark else Dead(tries[k].kind)
  }

  lemma StoryStays(e: Entry, transcript: seq<Message>, more: seq<Message>, y: Story)
    requires StoryOk(e, transcript, y) && transcript <= more
    ensures StoryOk(e, more, y)
  {
  }

  /** Settling a report leaves every try so far behind: the mark is then the newest answer shown, or
      none is shown. */
  lemma TriesGoPast(transcript: seq<Message>, mark: int, after: int, y: Story)
    requires TriesOk(transcript, y.tries) && TriesOk(transcript, y.past) && Past(transcript, mark, y.past)
    requires mark <= after && NoneNewer(transcript, after)
    ensures TriesOk(transcript, y.past + y.tries) && Past(transcript, after, y.past + y.tries)
  {
    var all := y.past + y.tries;
    forall k | 0 <= k < |all| && all[k].kind == COMPLETED
      ensures 0 <= all[k].at < |transcript| && IsFinal(transcript[all[k].at])
      ensures all[k].at <= after || all[k].at + TAIL < |transcript|
    {
      if k < |y.past| {
        assert all[k] == y.past[k];
      } else {
        assert all[k] == y.tries[k - |y.past|];
      }
    }
  }

  lemma SettledStory(e: Entry, s: Sighting, o: Outcome, y: Story)
    requires StoryOk(e, s.transcript, y) && PlansAs(e, s, y.mark) && Planned(e, s, o) && Settles(o)
    ensures ReportFits(o, Tail(s.transcript)) && StoryOk(Settle(e, s, o), s.transcript, StoryAfter(s, o, y))
  {
    var after := if o.report.kind == COMPLETED then At(s, o.report) else y.mark;
    assert NoneNewer(s.transcript, after);
    TriesGoPast(s.transcript, y.mark, after, y);
    if o.report.message.Some? {
      TailAt(s.transcript, o.report.message.value);
    }
  }

  lemma TriedStory(e: Entry, s: Sighting, o: Outcome, y: Story)
    requires StoryOk(e, s.transcript, y) && PlansAs(e, s, y.mark) && Planned(e, s, o) && o.Retried?
    requires e.reportAttempts < REPORT_ATTEMPT_LIMIT
    ensures StoryOk(Settle(e, s, o), s.transcript, StoryAfter(s, o, y))
  {
  }

  lemma RetryIsWithin(e: Entry, reg: Registry, s: Sighting)
    ensures Decide(e, reg, s).Retried? ==> e.reportAttempts < REPORT_ATTEMPT_LIMIT
    ensures Decide(e, reg, s).GaveUp? ==> e.reportAttempts >= REPORT_ATTEMPT_LIMIT
  {
  }

  lemma VisitKeepsStory(e: Entry, reg: Registry, s: Sighting, y: Story)
    requires StoryOk(e, s.transcript, y) && DistinctIds(s.transcript)
    ensures var v := Visit(e, reg, s); StoryOk(v.0, s.transcript, StoryAfter(s, v.1, y))
  {
    var o := Decide(e, reg, s);
    DecideIsPlanned(e, reg, s);
    PlanIs(e, s, y.mark);
    RetryIsWithin(e, reg, s);
    if Settles(o) {
      SettledStory(e, s, o, y);
    } else if o.Retried? {
      TriedStory(e, s, o, y);
    }
  }

  function LastTranscript(transcript: seq<Message>, looks: seq<Look>): seq<Message> {
    if looks == [] then transcript else looks[|looks| - 1].sight.transcript
  }

  lemma DistinctRest(looks: seq<Look>)
    requires AllDistinct(looks) && looks != []
    ensures DistinctIds(looks[0].sight.transcript) && AllDistinct(looks[1..])
  {
    assert forall k | 0 <= k < |looks[1..]| :: looks[1..][k] == looks[k + 1];
  }

  /** Over any visits the story is that of the entry. */
  lemma {:induction false} StoryIsTrue(e: Entry, looks: seq<Look>, transcript: seq<Message>, y: Story)
    requires StoryOk(e, transcript, y) && Grows(transcript, looks) && AllDistinct(looks)
    ensures StoryOk(Visits(e, looks).0, LastTranscript(transcript, looks), Follow(e, looks, y))
    decreases |looks|
  {
    if looks != [] {
      var s := looks[0].sight;
      StoryStays(e, transcript, s.transcript, y);
      DistinctRest(looks);
      VisitKeepsStory(e, looks[0].reg, s, y);
      var v := Visit(e, looks[0].reg, s);
      StoryIsTrue(v.0, looks[1..], s.transcript, StoryAfter(s, v.1, y));
    }
  }

  lemma BlankStory()
    ensures StoryOk(BLANK, [], UNTOLD)
  {
  }

  // ---- the order of answers ----

  /** What a visit sends, if it sends an answer: a finished run's, or that of a session that died. */
  function Sends(s: Sighting, o: Outcome): seq<Carried> {
    if o.Delivered? && o.report.message.Some? then [Carried(o.report.kind, At(s, o.report))] else []
  }

  /** The answers sent by some visits, in order. */
  function SentBy(e: Entry, looks: seq<Look>): seq<Carried>
    decreases |looks|
  {
    if looks == [] then []
    else
      var v := Visit(e, looks[0].reg, looks[0].sight);
      Sends(looks[0].sight, v.1) + SentBy(v.0, looks[1..])
  }

  /** Of the first `known` messages, none that could still be shown after `p` is an answer. */
  ghost predicate Silent(transcript: seq<Message>, p: int, known: nat) {
    && known <= |transcript|
    && forall q: nat | p < q < known && q + TAIL >= |transcript| :: !IsFinal(transcript[q])
  }

  lemma StaysSilent(transcript: seq<Message>, more: seq<Message>, p: int, q: int, known: nat)
    requires Silent(transcript, p, known) && transcript <= more && p <= q
    ensures Silent(more, q, known)
  {
    forall k: nat | q < k < known && k + TAIL >= |more| ensures !IsFinal(more[k]) {
      assert more[k] == transcript[k];
    }
  }

  /** Answers never go back, and a finished run's is past everything sent before and past what was
      known: what is sent again, or was known, is sent with a death. */
  ghost predicate Forward(sent: seq<Carried>, low: int, known: nat) {
    && (forall k | 0 <= k < |sent| ::
          sent[k].at >= low && (sent[k].kind == COMPLETED ==> sent[k].at > low && sent[k].at >= known))
    && forall j, k | 0 <= j < k < |sent| ::
         sent[j].at <= sent[k].at && (sent[k].kind == COMPLETED ==> sent[j].at < sent[k].at)
  }

  lemma ForwardNone(rest: seq<Carried>, low: int, mid: int, known: nat)
    requires Forward(rest, mid, known) && low <= mid
    ensures Forward([] + rest, low, known)
  {
    assert [] + rest == rest;
  }

  lemma ForwardMore(first: Carried, rest: seq<Carried>, low: int, known: nat)
    requires Forward(rest, first.at, known) && first.at >= low
    requires first.kind == COMPLETED ==> first.at > low && first.at >= known
    ensures Forward([first] + rest, low, known)
  {
    var all := [first] + rest;
    forall k | 0 < k < |all| ensures all[k] == rest[k - 1] {
    }
  }

  /** One visit: the mark does not go back, and what is sent is the new mark. */
  lemma VisitSends(e: Entry, reg: Registry, s: Sighting, y: Story, known: nat)
    requires StoryOk(e, s.transcript, y) && DistinctIds(s.transcript) && Silent(s.transcript, y.mark, known)
    ensures var o := Decide(e, reg, s);
            var q := StoryAfter(s, o, y).mark;
            && y.mark <= q && Silent(s.transcript, q, known)
            && (Sends(s, o) != [] ==>
                 Sends(s, o)[0].at == q && (Sends(s, o)[0].kind == COMPLETED ==> q > y.mark && q >= known))
  {
    var o := Decide(e, reg, s);
    DecideIsPlanned(e, reg, s);
    PlanIs(e, s, y.mark);
    StaysSilent(s.transcript, s.transcript, y.mark, StoryAfter(s, o, y).mark, known);
  }

  /** While its transcript grows, the answers sent of a session never go back, and no finished run's
      answer is sent that was sent before, or was known. */
  lemma {:induction false} AnswersGoForward(e: Entry, looks: seq<Look>, transcript: seq<Message>, y: Story, known: nat)
    requires StoryOk(e, transcript, y) && Silent(transcript, y.mark, known)
    requires Grows(transcript, looks) && AllDistinct(looks)
    ensures Forward(SentBy(e, looks), y.mark, known)
    decreases |looks|
  {
    if looks != [] {
      var s := looks[0].sight;
      var v := Visit(e, looks[0].reg, s);
      StoryStays(e, transcript, s.transcript, y);
      StaysSilent(transcript, s.transcript, y.mark, y.mark, known);
      DistinctRest(looks);
      VisitSends(e, looks[0].reg, s, y, known);
      VisitKeepsStory(e, looks[0].reg, s, y);
      var z := StoryAfter(s, v.1, y);
      AnswersGoForward(v.0, looks[1..], s.transcript, z, known);
      var rest := SentBy(v.0, looks[1..]);
      if Sends(s, v.1) == [] {
        ForwardNone(rest, y.mark, z.mark, known);
      } else {
        ForwardMore(Sends(s, v.1)[0], rest, y.mark, known);
      }
    }
  }

  /** What goes out after any visits, exactly: a finished run's answer if and only if it is newer than
      the mark; and an answer at the mark or before, sent before or known before, if and only if what
      goes out is that the session died with a status not reported yet, no newer answer is shown,
      and the marked one still is. */
  lemma OldAnswersExactly(e: Entry, looks: seq<Look>, transcript: seq<Message>, y: Story, reg: Registry, s: Sighting)
    requires StoryOk(e, transcript, y) && Grows(transcript, looks) && AllDistinct(looks)
    requires LastTranscript(transcript, looks) <= s.transcript && DistinctIds(s.transcript)
    ensures var before, p := Visits(e, looks).0, Follow(e, looks, y).mark;
            var o := Decide(before, reg, s);
            && (Sends(s, o) != [] ==> (Sends(s, o)[0].kind == COMPLETED <==> Sends(s, o)[0].at > p))
            && (Sends(s, o) != [] && Sends(s, o)[0].at <= p <==>
                && o.Delivered? && Dead(s.session.status) && before.reportedDeadStatus != Some(s.session.status)
                && 0 <= p && p + TAIL >= |s.transcript| && NoneNewer(s.transcript, p))
  {
    StoryIsTrue(e, looks, transcript, y);
    var before, z := Visits(e, looks).0, Follow(e, looks, y);
    StoryStays(before, LastTranscript(transcript, looks), s.transcript, z);
    NextExactly(before, reg, s, z.mark);
  }

  lemma NextExactly(e: Entry, reg: Registry, s: Sighting, p: int)
    requires Marked(e, s.transcript, p) && DistinctIds(s.transcript)
    ensures var o := Decide(e, reg, s);
            && (Sends(s, o) != [] ==> (Sends(s, o)[0].kind == COMPLETED <==> Sends(s, o)[0].at > p))
            && (Sends(s, o) != [] && Sends(s, o)[0].at <= p <==>
                && o.Delivered? && Dead(s.session.status) && e.reportedDeadStatus != Some(s.session.status)
                && 0 <= p && p + TAIL >= |s.transcript| && NoneNewer(s.transcript, p))
  {
    DecideIsPlanned(e, reg, s);
    PlanIs(e, s, p);
  }

  // ---- first activation ----

  function ShownAt(s: Sighting): int {
    var latest := LatestFinal(Tail(s.transcript));
    if latest.Some? then TailStart(s.transcript) + latest.value else -1
  }

  /** The baseline marks the latest answer shown, so nothing before it can be shown and planned. */
  lemma BaselineSilences(s: Sighting)
    ensures StoryOk(Baseline(BLANK, s), s.transcript, Story(ShownAt(s), [], []))
    ensures Silent(s.transcript, ShownAt(s), |s.transcript|)
  {
    ShownIsNewest(s);
  }

  /** After the first activation no finished run's answer is sent that was in the transcript then,
      and none is sent twice. */
  lemma NoHistory(s: Sighting, looks: seq<Look>)
    requires Grows(s.transcript, looks) && AllDistinct(looks)
    ensures Forward(SentBy(Baseline(BLANK, s), looks), ShownAt(s), |s.transcript|)
  {
    BaselineSilences(s);
    AnswersGoForward(Baseline(BLANK, s), looks, s.transcript, Story(ShownAt(s), [], []), |s.transcript|);
  }

  /** What the baseline leaves due, exactly: the death of a session that had an answer, which marks
      the answer and not the death. */
  lemma BaselineLeavesDeathExactly(s: Sighting)
    ensures !NeedsCheck(s.session, Baseline(BLANK, s))
    ensures PlanReport(s.session, Tail(s.transcript), Baseline(BLANK, s)).Some? <==>
            LatestFinal(Tail(s.transcript)).Some? && Dead(s.session.status)
  {
  }

  // ---- when a death is reported ----

  /** The death settled last. */
  function LastDeath(e: Entry, outcomes: seq<Outcome>): Option<string> {
    if outcomes == [] then e.reportedDeadStatus
    else
      var o := outcomes[|outcomes| - 1];
      if Settles(o) && Dead(o.report.kind) then Some(o.report.kind) else LastDeath(e, outcomes[..|outcomes| - 1])
  }

  lemma {:induction false} DeathFirst(e: Entry, f: Entry, o: Outcome, rest: seq<Outcome>)
    requires f.reportedDeadStatus ==
             (if Settles(o) && Dead(o.report.kind) then Some(o.report.kind) else e.reportedDeadStatus)
    ensures LastDeath(e, [o] + rest) == LastDeath(f, rest)
    decreases |rest|
  {
    var all := [o] + rest;
    if rest == [] {
      assert all[..0] == [];
    } else {
      assert all[..|all| - 1] == [o] + rest[..|rest| - 1];
      DeathFirst(e, f, o, rest[..|rest| - 1]);
    }
  }

  lemma {:induction false} DeathKept(e: Entry, looks: seq<Look>)
    ensures Visits(e, looks).0.reportedDeadStatus == LastDeath(e, Visits(e, looks).1)
    decreases |looks|
  {
    if looks != [] {
      var v := Visit(e, looks[0].reg, looks[0].sight);
      DeathKept(v.0, looks[1..]);
      DeathFirst(e, v.0, v.1, Visits(v.0, looks[1..]).1);
    }
  }

  /** After any visits, exactly when a session's death is due: it is dead, no answer is shown but the
      marked one, and the death settled last was not of this status. A session that dies the same
      death again is reported again only if it died another in between. */
  lemma DeathDueExactly(looks: seq<Look>, s: Sighting)
    requires Grows([], looks) && AllDistinct(looks)
    requires LastTranscript([], looks) <= s.transcript && DistinctIds(s.transcript)
    ensures var v := Visits(BLANK, looks);
            var plan := PlanReport(s.session, Tail(s.transcript), v.0);
            plan.Some? && plan.value.kind != COMPLETED <==>
              && Dead(s.session.status) && LastDeath(BLANK, v.1) != Some(s.session.status)
              && NoneNewer(s.transcript, Follow(BLANK, looks, UNTOLD).mark)
  {
    BlankStory();
    StoryIsTrue(BLANK, looks, [], UNTOLD);
    DeathKept(BLANK, looks);
    var e, y := Visits(BLANK, looks).0, Follow(BLANK, looks, UNTOLD);
    StoryStays(e, LastTranscript([], looks), s.transcript, y);
    PlanIs(e, s, y.mark);
  }

  // ---- bounded report turns ----

  /** How many outcomes cost a report turn. */
  function Turns(outcomes: seq<Outcome>): nat {
    if outcomes == [] then 0
    else (if outcomes[0].Delivered? || outcomes[0].Retried? then 1 else 0) + Turns(outcomes[1..])
  }

  /** How many outcomes settle a report. */
  function Settled(outcomes: seq<Outcome>): nat {
    if outcomes == [] then 0
    else (if outcomes[0].Delivered? || outcomes[0].GaveUp? then 1 else 0) + Settled(outcomes[1..])
  }

  lemma OneTurn(e: Entry, reg: Registry, s: Sighting)
    requires e.reportAttempts <= REPORT_ATTEMPT_LIMIT
    ensures var v := Visit(e, reg, s);
            && v.0.reportAttempts <= REPORT_ATTEMPT_LIMIT
            && Turns([v.1]) + e.reportAttempts <= REPORT_ATTEMPT_LIMIT * Settled([v.1]) + v.0.reportAttempts
            && (v.1.GaveUp? ==> e.reportAttempts == REPORT_ATTEMPT_LIMIT)
  {
    assert [Decide(e, reg, s)][1..] == [];
  }

  /** The attempts never exceed the limit, and over any visits there are at most as many report
      turns as the limit allows per settled report, plus the attempts still counted: a report
      whose every turn fails costs the limit and is then given up. */
  lemma {:induction false} BoundedTurns(e: Entry, looks: seq<Look>)
    requires e.reportAttempts <= REPORT_ATTEMPT_LIMIT
    ensures var (after, outcomes) := Visits(e, looks);
            && after.reportAttempts <= REPORT_ATTEMPT_LIMIT
            && Turns(outcomes) + e.reportAttempts <= REPORT_ATTEMPT_LIMIT * Settled(outcomes) + after.reportAttempts
    decreases |looks|
  {
    if looks != [] {
      var v := Visit(e, looks[0].reg, looks[0].sight);
      OneTurn(e, looks[0].reg, looks[0].sight);
      BoundedTurns(v.0, looks[1..]);
      var rest := Visits(v.0, looks[1..]).1;
      assert ([v.1] + rest)[1..] == rest && [v.1][1..] == [];
    }
  }

  /** The count is the session's, not the report's. After any visits, when an answer is given up, the
      limit's turns have failed since the last report was settled; and that answer was never tried,
      at any visit, if and only if all of those turns were for earlier answers or for a death. */
  lemma GivenUpUntriedExactly(looks: seq<Look>, reg: Registry, s: Sighting)
    requires Grows([], looks) && AllDistinct(looks)
    requires LastTranscript([], looks) <= s.transcript && DistinctIds(s.transcript)
    requires var o := Decide(Visits(BLANK, looks).0, reg, s); o.GaveUp? && o.report.kind == COMPLETED
    ensures var y, o := Follow(BLANK, looks, UNTOLD), Decide(Visits(BLANK, looks).0, reg, s);
            var answer := Carried(COMPLETED, At(s, o.report));
            && |y.tries| == REPORT_ATTEMPT_LIMIT
            && (answer !in y.past + y.tries <==>
                forall k | 0 <= k < |y.tries| :: y.tries[k].kind != COMPLETED || y.tries[k].at < answer.at)
  {
    BlankStory();
    StoryIsTrue(BLANK, looks, [], UNTOLD);
    var e, y := Visits(BLANK, looks).0, Follow(BLANK, looks, UNTOLD);
    StoryStays(e, LastTranscript([], looks), s.transcript, y);
    DecideIsPlanned(e, reg, s);
    PlanIs(e, s, y.mark);
    RetryIsWithin(e, reg, s);
    TriedExactly(s.transcript, y, At(s, Decide(e, reg, s).report));
  }

  /** And of a death: when one is given up, the limit's turns have failed since the last report
      was settled, each for a death, or for an answer after the mark that has left what is shown. */
  lemma DeathGivenUpAfter(looks: seq<Look>, reg: Registry, s: Sighting)
    requires Grows([], looks) && AllDistinct(looks)
    requires LastTranscript([], looks) <= s.transcript && DistinctIds(s.transcript)
    requires var o := Decide(Visits(BLANK, looks).0, reg, s); o.GaveUp? && o.report.kind != COMPLETED
    ensures var y := Follow(BLANK, looks, UNTOLD);
            && |y.tries| == REPORT_ATTEMPT_LIMIT
            && forall k | 0 <= k < |y.tries| ::
                 if y.tries[k].kind == COMPLETED then y.mark < y.tries[k].at < |s.transcript| - TAIL
                 else Dead(y.tries[k].kind)
  {
    BlankStory();
    StoryIsTrue(BLANK, looks, [], UNTOLD);
    var e, y := Visits(BLANK, looks).0, Follow(BLANK, looks, UNTOLD);
    StoryStays(e, LastTranscript([], looks), s.transcript, y);
    DecideIsPlanned(e, reg, s);
    PlanIs(e, s, y.mark);
    RetryIsWithin(e, reg, s);
    AnswersLeft(s.transcript, y);
  }

  /** With no answer after the mark shown, the answers tried since have left what is shown. */
  lemma AnswersLeft(transcript: seq<Message>, y: Story)
    requires TriesOk(transcript, y.tries) && Ahead(y.mark, y.tries) && NoneNewer(transcript, y.mark)
    ensures forall k | 0 <= k < |y.tries| && y.tries[k].kind == COMPLETED :: y.tries[k].at + TAIL < |transcript|
    ensures forall k | 0 <= k < |y.tries| && y.tries[k].kind != COMPLETED :: Dead(y.tries[k].kind)
  {
    forall k | 0 <= k < |y.tries| && y.tries[k].kind == COMPLETED ensures y.tries[k].at + TAIL < |transcript| {
      assert IsFinal(transcript[y.tries[k].at]);
    }
  }

  lemma TriedExactly(transcript: seq<Message>, y: Story, q: int)
    requires TriesOk(transcript, y.tries) && Past(transcript, y.mark, y.past) && Newest(transcript, q) && q > y.mark
    ensures Carried(COMPLETED, q) !in y.past + y.tries <==>
            forall k | 0 <= k < |y.tries| :: y.tries[k].kind != COMPLETED || y.tries[k].at < q
  {
    var answer, all := Carried(COMPLETED, q), y.past + y.tries;
    assert answer !in y.past;
    if answer !in all {
      forall k | 0 <= k < |y.tries| ensures y.tries[k].kind != COMPLETED || y.tries[k].at < q {
        assert all[|y.past| + k] == y.tries[k];
      }
    }
  }

  /** A report counts as delivered only when its turn ran to an end, on a channel that is ready and
      idle, within the limit; a turn that times out or raises never does. */
  lemma DeliveredExactly(e: Entry, reg: Registry, s: Sighting)
    requires NeedsCheck(s.session, e) && PlanReport(s.session, Tail(s.transcript), e).Some?
    requires var report := PlanReport(s.session, Tail(s.transcript), e).value;
             IsOurs(reg, RoutingSupervisor(s.session, Tail(s.transcript), report.message))
    ensures var report := PlanReport(s.session, Tail(s.transcript), e).value;
            var to := RoutingSupervisor(s.session, Tail(s.transcript), report.message);
            var o := Decide(e, reg, s);
            && (o == Delivered(report) <==>
                Ready(reg, to) && !s.busy && e.reportAttempts < REPORT_ATTEMPT_LIMIT && (s.turn.Sent? || s.turn.Skip?))
            && (o == GaveUp(report) <==> Ready(reg, to) && !s.busy && e.reportAttempts >= REPORT_ATTEMPT_LIMIT)
            && (o.Held? || o.Busy? <==> !Ready(reg, to) || s.busy)
  {
  }
}
