/** Ticks over all sessions, session by session: what any number of ticks do to one session's entry,
    and deliver of it, is what the visits of that session do. The properties of visits in
    ReporterRuns are thereby properties of the reporter. */
module ReporterTicks {
  import opened Wrappers
  import opened Reporter
  import opened ReporterRuns
  import opened ReporterOutcomes
  import opened ReporterSeen

  datatype Poll = Poll(reg: Registry, listing: seq<Sighting>)

  function Ticks(store: Store, polls: seq<Poll>): (Store, seq<Delivery>)
    decreases |polls|
  {
    if polls == [] then (store, [])
    else
      var t := Tick(store, polls[0].reg, polls[0].listing);
      var rest := Ticks(t.0, polls[1..]);
      (rest.0, t.1 + rest.1)
  }

  /** Whether a tick gets as far as listing the sessions. */
  predicate Live(reg: Registry) {
    reg.channels != map[] && reg.cli && SomeReady(reg)
  }

  ghost predicate UniqueIds(listing: seq<Sighting>) {
    forall j, k | 0 <= j < k < |listing| :: listing[j].session.id != listing[k].session.id
  }

  /** What a listing has of session `id`, if it is to be looked at. */
  function SightOf(listing: seq<Sighting>, id: string): Option<Sighting> {
    if listing == [] then None
    else
      var s := listing[|listing| - 1];
      if Candidate(s) && s.session.id == id then Some(s) else SightOf(listing[..|listing| - 1], id)
  }

  function ReportsOf(deliveries: seq<Delivery>, id: string): seq<Report> {
    if deliveries == [] then []
    else
      ReportsOf(deliveries[..|deliveries| - 1], id)
      + (if deliveries[|deliveries| - 1].session == id then [deliveries[|deliveries| - 1].report] else [])
  }

  function Delivers(o: Outcome): seq<Report> {
    if o.Delivered? then [o.report] else []
  }

  function AllDelivered(outcomes: seq<Outcome>): seq<Report> {
    if outcomes == [] then [] else Delivers(outcomes[0]) + AllDelivered(outcomes[1..])
  }

  // ---- one tick ----

  lemma ReportsAfter(deliveries: seq<Delivery>, d: Delivery, id: string)
    ensures ReportsOf(deliveries + [d], id) == ReportsOf(deliveries, id) + (if d.session == id then [d.report] else [])
  {
    assert (deliveries + [d])[..|deliveries|] == deliveries;
  }

  lemma {:induction false} ReportsConcat(a: seq<Delivery>, b: seq<Delivery>, id: string)
    ensures ReportsOf(a + b, id) == ReportsOf(a, id) + ReportsOf(b, id)
  {
    if b == [] {
      assert a + b == a && ReportsOf(a, id) + [] == ReportsOf(a, id);
    } else {
      var init := b[..|b| - 1];
      assert (a + b)[..|a + b| - 1] == a + init;
      ReportsConcat(a, init, id);
    }
  }

  lemma {:induction false} NoSight(listing: seq<Sighting>, id: string)
    requires forall k | 0 <= k < |listing| :: listing[k].session.id != id
    ensures SightOf(listing, id) == None
  {
    if listing != [] {
      NoSight(listing[..|listing| - 1], id);
    }
  }

  /** The visits of a listing do to a session what its own visit does, and nothing if it is not
      looked at. */
  ghost predicate VisitsOnly(sessions: Entries, reg: Registry, listing: seq<Sighting>, id: string) {
    var r := VisitEach(sessions, reg, listing);
    var sight := SightOf(listing, id);
    if sight.None? then EntryOf(r.0, id) == EntryOf(sessions, id) && ReportsOf(r.1, id) == []
    else
      var v := Visit(EntryOf(sessions, id), reg, sight.value);
      EntryOf(r.0, id) == v.0 && ReportsOf(r.1, id) == Delivers(v.1)
  }

  lemma {:induction false} VisitEachIs(sessions: Entries, reg: Registry, listing: seq<Sighting>, id: string)
    requires UniqueIds(listing)
    ensures VisitsOnly(sessions, reg, listing, id)
    decreases |listing|
  {
    if listing != [] {
      var init, s := listing[..|listing| - 1], listing[|listing| - 1];
      VisitEachIs(sessions, reg, init, id);
      if s.session.id == id {
        NoSight(init, id);
      }
      if Candidate(s) {
        var before := VisitEach(sessions, reg, init);
        var v := Visit(EntryOf(before.0, s.session.id), reg, s);
        if v.1.Delivered? {
          ReportsAfter(before.1, Delivery(s.session.id, v.1.report), id);
        }
      }
    }
  }

  lemma TickIs(store: Store, reg: Registry, listing: seq<Sighting>, id: string)
    requires UniqueIds(listing) && !store.isNew && (Live(reg) ==> id in ListedIds(listing))
    ensures var t, e, sight := Tick(store, reg, listing), EntryOf(store.sessions, id), SightOf(listing, id);
            && !t.0.isNew
            && EntryOf(t.0.sessions, id) == (if Live(reg) && sight.Some? then Visit(e, reg, sight.value).0 else e)
            && ReportsOf(t.1, id) == (if Live(reg) && sight.Some? then Delivers(Visit(e, reg, sight.value).1) else [])
  {
    if Live(reg) {
      VisitEachIs(store.sessions, reg, listing, id);
    }
  }

  // ---- any number of ticks ----

  /** The visits of session `id` in a sequence of ticks. */
  function LooksOf(polls: seq<Poll>, id: string): seq<Look> {
    if polls == [] then []
    else
      var sight := SightOf(polls[0].listing, id);
      (if Live(polls[0].reg) && sight.Some? then [Look(polls[0].reg, sight.value)] else []) + LooksOf(polls[1..], id)
  }

  /** Session ids are unique, and session `id` is in every list the reporter gets. */
  ghost predicate StaysListed(polls: seq<Poll>, id: string) {
    forall k | 0 <= k < |polls| ::
      UniqueIds(polls[k].listing) && (Live(polls[k].reg) ==> id in ListedIds(polls[k].listing))
  }

  lemma OneVisitMore(e: Entry, look: Look, rest: seq<Look>)
    ensures var v := Visit(e, look.reg, look.sight);
            Visits(e, [look] + rest).0 == Visits(v.0, rest).0
            && AllDelivered(Visits(e, [look] + rest).1) == Delivers(v.1) + AllDelivered(Visits(v.0, rest).1)
  {
    var v := Visit(e, look.reg, look.sight);
    assert ([look] + rest)[1..] == rest;
    var outcomes := Visits(v.0, rest).1;
    assert ([v.1] + outcomes)[1..] == outcomes;
  }

  /** What a sequence of ticks does to a session's entry, and delivers of it, is what the visits of
      that session do. */
  lemma {:induction false} TicksAreVisits(store: Store, polls: seq<Poll>, id: string)
    requires !store.isNew && StaysListed(polls, id)
    ensures var t, v := Ticks(store, polls), Visits(EntryOf(store.sessions, id), LooksOf(polls, id));
            EntryOf(t.0.sessions, id) == v.0 && ReportsOf(t.1, id) == AllDelivered(v.1)
    decreases |polls|
  {
    if polls != [] {
      var reg, listing := polls[0].reg, polls[0].listing;
      var t := Tick(store, reg, listing);
      TickIs(store, reg, listing, id);
      assert StaysListed(polls[1..], id) by {
        assert forall k | 0 <= k < |polls[1..]| :: polls[1..][k] == polls[k + 1];
      }
      TicksAreVisits(t.0, polls[1..], id);
      ReportsConcat(t.1, Ticks(t.0, polls[1..]).1, id);
      var looks := LooksOf(polls[1..], id);
      if Live(reg) && SightOf(listing, id).Some? {
        OneVisitMore(EntryOf(store.sessions, id), Look(reg, SightOf(listing, id).value), looks);
      } else {
        assert [] + looks == looks;
        var later := AllDelivered(Visits(EntryOf(store.sessions, id), looks).1);
        assert [] + later == later;
      }
    }
  }

  // ---- activation ----

  lemma {:induction false} BaselineEachIs(sessions: Entries, listing: seq<Sighting>, id: string)
    requires UniqueIds(listing)
    ensures var sight := SightOf(listing, id);
            EntryOf(BaselineEach(sessions, listing), id) ==
            if sight.None? then EntryOf(sessions, id) else Baseline(EntryOf(sessions, id), sight.value)
    decreases |listing|
  {
    if listing != [] {
      var init, s := listing[..|listing| - 1], listing[|listing| - 1];
      BaselineEachIs(sessions, init, id);
      if s.session.id == id {
        NoSight(init, id);
      }
    }
  }

  /** The first tick of a new reporter delivers nothing and baselines what it looks at. */
  lemma FirstTick(reg: Registry, listing: seq<Sighting>, id: string)
    requires UniqueIds(listing) && Live(reg)
    ensures var t := Tick(Store(map[], true), reg, listing);
            var sight := SightOf(listing, id);
            && t.1 == [] && !t.0.isNew
            && EntryOf(t.0.sessions, id) == (if sight.None? then BLANK else Baseline(BLANK, sight.value))
  {
    BaselineEachIs(map[], listing, id);
  }

  /** Over any ticks after its activation, a new reporter sends of a session it then looked at no
      finished run's answer that was in the transcript already, and each later one at most once, in
      the transcript's order; an old answer goes out only with a death. */
  lemma NewReporterIsQuiet(reg: Registry, listing: seq<Sighting>, polls: seq<Poll>, id: string)
    requires UniqueIds(listing) && Live(reg) && StaysListed(polls, id)
    requires SightOf(listing, id).Some?
    requires Grows(SightOf(listing, id).value.transcript, LooksOf(polls, id)) && AllDistinct(LooksOf(polls, id))
    ensures var first := Tick(Store(map[], true), reg, listing);
            var looks, seen := LooksOf(polls, id), SightOf(listing, id).value;
            && first.1 == []
            && ReportsOf(Ticks(first.0, polls).1, id) == AllDelivered(Visits(EntryOf(first.0.sessions, id), looks).1)
            && Forward(SentBy(EntryOf(first.0.sessions, id), looks), ShownAt(seen), |seen.transcript|)
  {
    FirstTick(reg, listing, id);
    NoHistory(SightOf(listing, id).value, LooksOf(polls, id));
    TicksAreVisits(Tick(Store(map[], true), reg, listing).0, polls, id);
  }

  /** Over any ticks: whenever the entry of a session counts as seen, its latest answer shown when it
      last came to count as seen was delivered or given up by one of the ticks, or its recipient
      was then nobody, or unregistered and of no owned prefix. */
  lemma NoAnswerLostByTicks(polls: seq<Poll>, id: string, session: Session)
    requires StaysListed(polls, id)
    requires !NeedsCheck(session, EntryOf(Ticks(Store(map[], false), polls).0.sessions, id))
    ensures var looks := LooksOf(polls, id);
            var outcomes := Visits(BLANK, looks).1;
            var k := LastSeen(outcomes);
            && ReportsOf(Ticks(Store(map[], false), polls).1, id) == AllDelivered(outcomes)
            && |outcomes| == |looks| && k.Some?
            && (var s := looks[k.value].sight;
                && s.session.status == session.status && s.session.lastActivityAt == session.lastActivityAt
                && (GoesElsewhere(looks[k.value]) || ShownId(s).None? || WasSettled(looks, outcomes, ShownId(s).value)))
  {
    TicksAreVisits(Store(map[], false), polls, id);
    NoAnswerLost(LooksOf(polls, id), session);
  }

  /** The same of a new reporter, whose first tick is the baseline: what the session showed then counts
      as settled. */
  lemma NoAnswerLostByNewReporter(reg: Registry, listing: seq<Sighting>, polls: seq<Poll>, id: string, session: Session)
    requires UniqueIds(listing) && Live(reg) && StaysListed(polls, id) && SightOf(listing, id).Some?
    requires var first := Tick(Store(map[], true), reg, listing);
             !NeedsCheck(session, EntryOf(Ticks(first.0, polls).0.sessions, id))
    ensures var first, seen := Tick(Store(map[], true), reg, listing), SightOf(listing, id).value;
            var looks := LooksOf(polls, id);
            var outcomes := Visits(Baseline(BLANK, seen), looks).1;
            var k := LastSeen(outcomes);
            && first.1 == [] && ReportsOf(Ticks(first.0, polls).1, id) == AllDelivered(outcomes)
            && |outcomes| == |looks|
            && (var s := if k.Some? then looks[k.value].sight else seen;
                && s.session.status == session.status && s.session.lastActivityAt == session.lastActivityAt
                && ((k.Some? && GoesElsewhere(looks[k.value])) || ShownId(s).None? || ShownId(s) == ShownId(seen)
                    || WasSettled(looks, outcomes, ShownId(s).value)))
  {
    FirstTick(reg, listing, id);
    TicksAreVisits(Tick(Store(map[], true), reg, listing).0, polls, id);
    NoAnswerLostSince(SightOf(listing, id).value, LooksOf(polls, id), session);
  }

  /** A session archived when the reporter is activated is not looked at, and its last answer is
      history that is delivered if the session comes back: an entry left blank plans it. */
  lemma ArchivedHistoryIsDelivered(reg: Registry, listing: seq<Sighting>, k: nat, s: Sighting)
    requires UniqueIds(listing) && Live(reg) && k < |listing| && listing[k].session.status == "archived"
    requires s.session.id == listing[k].session.id && s.transcript == listing[k].transcript && !s.busy && s.turn.Sent?
    requires var latest := LatestFinal(Tail(s.transcript));
             var to := RoutingSupervisor(s.session, Tail(s.transcript), latest);
             latest.Some? && to != "" && Ready(reg, to)
    ensures var first := Tick(Store(map[], true), reg, listing);
            Decide(EntryOf(first.0.sessions, s.session.id), reg, s) ==
            Delivered(Report(COMPLETED, LatestFinal(Tail(s.transcript))))
  {
    FirstTick(reg, listing, s.session.id);
    ArchivedNotSeen(listing, k);
  }

  lemma {:induction false} ArchivedNotSeen(listing: seq<Sighting>, k: nat)
    requires UniqueIds(listing) && k < |listing| && listing[k].session.status == "archived"
    ensures SightOf(listing, listing[k].session.id) == None
    decreases |listing|
  {
    var init := listing[..|listing| - 1];
    if k < |init| {
      ArchivedNotSeen(init, k);
    } else {
      NoSight(init, listing[k].session.id);
    }
  }
}
