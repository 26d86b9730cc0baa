/** The completion reporter of the IM channels: runner/im_reporter.py. What it decides about one
    session is a function of the session's entry and of what a tick sees of the session; a tick
    visits every session in turn. */
module Reporter {
  import opened Wrappers
  import opened Text

  datatype Role = Agent | User | Other

  /** A message of a transcript. `supervisor` is its origin's, empty if it has none. */
  datatype Message = Message(id: string, role: Role, finalAnswer: string, turnIndex: Option<int>, supervisor: string)

  datatype Session = Session(id: string, status: string, lastActivityAt: Option<string>, supervisor: string)

  /** What is kept per session. */
  datatype Entry = Entry(
    lastReportedMessageId: Option<string>,
    reportedDeadStatus: Option<string>,
    reportAttempts: nat,
    lastSeenActivityAt: Option<string>,
    lastSeenStatus: Option<string>)

  const BLANK := Entry(None, None, 0, None, None)
  const REPORT_ATTEMPT_LIMIT: nat := 3
  const TAIL: nat := 30
  const COMPLETED := "completed"

  /** `kind` is `completed`, or the status the session died with; `message` is an index. */
  datatype Report = Report(kind: string, message: Option<nat>)

  /** How a synthetic report turn ends: no `done` in time, rendering or sending raises, GA replies
      that there is nothing to say, or the report is sent. */
  datatype Turn = TimedOut | Raised | Skip | Sent

  /** What a tick sees of a session, if it looks: the whole transcript, of which `session show`
      gives the tail, whether the channel's agent is busy, and how a report turn would end. */
  datatype Sighting = Sighting(session: Session, transcript: seq<Message>, busy: bool, turn: Turn)

  datatype Channel = Channel(connected: bool, owner: Option<string>)

  /** The registered channels by supervisor id, and the id prefixes this process owns. */
  datatype Registry = Registry(channels: map<string, Channel>, owned: seq<string>, cli: bool)

  datatype Outcome =
    | Unchecked
    | NothingDue
    | Foreign
    | Held
    | Busy
    | Delivered(report: Report)
    | GaveUp(report: Report)
    | Retried(report: Report)

  // ---- decisions ----

  predicate Dead(status: string) {
    status == "error" || status == "cancelled"
  }

  predicate IsFinal(m: Message) {
    m.role.Agent? && !AllSpace(m.finalAnswer)
  }

  /** `latest_final_output`. */
  function LatestFinal(messages: seq<Message>): (r: Option<nat>)
    ensures r.Some? ==> r.value < |messages| && IsFinal(messages[r.value])
  {
    if messages == [] then None
    else if IsFinal(messages[|messages| - 1]) then Some(|messages| - 1)
    else LatestFinal(messages[..|messages| - 1])
  }

  method FindLatestFinal(messages: seq<Message>) returns (latest: Option<nat>)
    ensures latest == LatestFinal(messages)
  {
    latest := None;
    for k := 0 to |messages|
      invariant latest == LatestFinal(messages[..k])
    {
      assert messages[..k + 1][..k] == messages[..k];
      if !messages[k].role.Agent? {
        continue;
      }
      if !AllSpace(messages[k].finalAnswer) {
        latest := Some(k);
      }
    }
    assert messages[..|messages|] == messages;
  }

  function LastUser(messages: seq<Message>): (r: Option<nat>)
    ensures r.Some? ==> r.value < |messages|
  {
    if messages == [] then None
    else if messages[|messages| - 1].role.User? then Some(|messages| - 1)
    else LastUser(messages[..|messages| - 1])
  }

  function LastUserOf(messages: seq<Message>, turn: int): (r: Option<nat>)
    ensures r.Some? ==> r.value < |messages|
  {
    if messages == [] then None
    else if messages[|messages| - 1].role.User? && messages[|messages| - 1].turnIndex == Some(turn)
    then Some(|messages| - 1)
    else LastUserOf(messages[..|messages| - 1], turn)
  }

  /** The user message that started what is reported. */
  function Initiator(messages: seq<Message>, final: Option<nat>): (r: Option<nat>)
    requires final.Some? ==> final.value < |messages|
    ensures r.Some? ==> r.value < |messages|
  {
    if final.None? then LastUser(messages)
    else
      var turn := messages[final.value].turnIndex;
      var ofTurn := if turn.Some? then LastUserOf(messages, turn.value) else None;
      if ofTurn.Some? then ofTurn else LastUser(messages[..final.value])
  }

  /** `routing_supervisor`; empty for none. */
  function RoutingSupervisor(session: Session, messages: seq<Message>, final: Option<nat>): string
    requires final.Some? ==> final.value < |messages|
  {
    var initiator := Initiator(messages, final);
    if initiator.Some? && messages[initiator.value].supervisor != ""
    then messages[initiator.value].supervisor else session.supervisor
  }

  method FindRoutingSupervisor(session: Session, messages: seq<Message>, final: Option<nat>)
    returns (supervisor: string)
    requires final.Some? ==> final.value < |messages|
    ensures supervisor == RoutingSupervisor(session, messages, final)
  {
    var initiator: Option<nat> := None;
    var turn := if final.Some? then messages[final.value].turnIndex else None;
    if turn.Some? {
      for k := 0 to |messages|
        invariant initiator == LastUserOf(messages[..k], turn.value)
      {
        assert messages[..k + 1][..k] == messages[..k];
        if messages[k].role.User? && messages[k].turnIndex == turn {
          initiator := Some(k);
        }
      }
      assert messages[..|messages|] == messages;
    }
    if initiator.None? {
      var upto := if final.Some? then final.value else |messages|;
      for k := 0 to upto
        invariant initiator == LastUser(messages[..k])
      {
        assert messages[..k + 1][..k] == messages[..k];
        if messages[k].role.User? {
          initiator := Some(k);
        }
      }
      assert messages[..|messages|] == messages;
    }
    if initiator.Some? && messages[initiator.value].supervisor != "" {
      return messages[initiator.value].supervisor;
    }
    supervisor := session.supervisor;
  }

  /** A user's message, of that turn if one is given. */
  predicate UserOf(m: Message, turn: Option<int>) {
    m.role.User? && (turn.None? || m.turnIndex == turn)
  }

  /** `r` is the last of the first `upto` messages that is a user's, of that turn. */
  ghost predicate LastOf(messages: seq<Message>, upto: nat, turn: Option<int>, r: Option<nat>)
    requires upto <= |messages|
  {
    && (r.Some? ==> r.value < upto && UserOf(messages[r.value], turn))
    && forall k | 0 <= k < upto && UserOf(messages[k], turn) :: r.Some? && k <= r.value
  }

  lemma {:induction false} LastUserIs(messages: seq<Message>)
    ensures LastOf(messages, |messages|, None, LastUser(messages))
  {
    if messages != [] {
      var init := messages[..|messages| - 1];
      LastUserIs(init);
      assert forall k | 0 <= k < |init| :: messages[k] == init[k];
    }
  }

  lemma {:induction false} LastUserOfIs(messages: seq<Message>, turn: int)
    ensures LastOf(messages, |messages|, Some(turn), LastUserOf(messages, turn))
  {
    if messages != [] {
      var init := messages[..|messages| - 1];
      LastUserOfIs(init, turn);
      assert forall k | 0 <= k < |init| :: messages[k] == init[k];
    }
  }

  /** The message that started what is reported: for an answer, the last user's message of its turn,
      or, if it has no turn or nobody's message is of it, the last one before it; for a death without
      an answer, the last one of all; `None` where there is no such message. */
  ghost predicate Started(messages: seq<Message>, final: Option<nat>, r: Option<nat>)
    requires final.Some? ==> final.value < |messages|
  {
    if final.None? then LastOf(messages, |messages|, None, r)
    else
      var turn := messages[final.value].turnIndex;
      if turn.Some? && exists k :: 0 <= k < |messages| && UserOf(messages[k], turn)
      then LastOf(messages, |messages|, turn, r) else LastOf(messages, final.value, None, r)
  }

  /** A report goes where the message that started it came from, and without such a message, or with
      one that has no supervisor, where the session came from. */
  lemma RoutesToInitiator(session: Session, messages: seq<Message>, final: Option<nat>, r: Option<nat>)
    requires final.Some? ==> final.value < |messages|
    requires Started(messages, final, r)
    ensures r.Some? ==> r.value < |messages|
    ensures RoutingSupervisor(session, messages, final) ==
            if r.Some? && messages[r.value].supervisor != "" then messages[r.value].supervisor else session.supervisor
  {
    InitiatorStarted(messages, final);
  }

  /** There always is exactly one answer to who started it. */
  lemma InitiatorStarted(messages: seq<Message>, final: Option<nat>)
    requires final.Some? ==> final.value < |messages|
    ensures Started(messages, final, Initiator(messages, final))
  {
    if final.None? {
      LastUserIs(messages);
    } else {
      var turn, before := messages[final.value].turnIndex, messages[..final.value];
      LastUserIs(before);
      assert forall k | 0 <= k < |before| :: messages[k] == before[k];
      if turn.Some? {
        LastUserOfIs(messages, turn.value);
      }
    }
  }

  /** `needs_check`. */
  predicate NeedsCheck(session: Session, e: Entry) {
    session.lastActivityAt != e.lastSeenActivityAt || Some(session.status) != e.lastSeenStatus
  }

  /** `plan_report`. */
  function PlanReport(session: Session, messages: seq<Message>, e: Entry): (r: Option<Report>)
    ensures r.Some? && r.value.message.Some? ==> r.value.message.value < |messages|
  {
    var latest := LatestFinal(messages);
    if latest.Some? && Some(messages[latest.value].id) != e.lastReportedMessageId then Some(Report(COMPLETED, latest))
    else if Dead(session.status) && e.reportedDeadStatus != Some(session.status) then Some(Report(session.status, latest))
    else None
  }

  /** `mark_reported`. */
  function MarkReported(e: Entry, messages: seq<Message>, r: Report): Entry
    requires r.message.Some? ==> r.message.value < |messages|
  {
    e.(lastReportedMessageId := if r.message.Some? then Some(messages[r.message.value].id) else e.lastReportedMessageId,
       reportedDeadStatus := if Dead(r.kind) then Some(r.kind) else e.reportedDeadStatus,
       reportAttempts := 0)
  }

  /** `mark_seen`. */
  function MarkSeen(e: Entry, session: Session): Entry {
    e.(lastSeenActivityAt := session.lastActivityAt, lastSeenStatus := Some(session.status))
  }

  // ---- channels ----

  predicate Ready(reg: Registry, supervisor: string) {
    supervisor in reg.channels && reg.channels[supervisor].connected && reg.channels[supervisor].owner.Some?
  }

  predicate SomeReady(reg: Registry) {
    exists supervisor :: supervisor in reg.channels && Ready(reg, supervisor)
  }

  predicate OwnedPrefix(owned: seq<string>, supervisor: string) {
    owned != [] && (owned[0] <= supervisor || OwnedPrefix(owned[1..], supervisor))
  }

  /** Whether a report routed to `supervisor` is this process's. */
  predicate IsOurs(reg: Registry, supervisor: string) {
    supervisor != "" && (supervisor in reg.channels || OwnedPrefix(reg.owned, supervisor))
  }

  /** The `--tail 30` of a transcript. */
  function Tail(transcript: seq<Message>): seq<Message> {
    if |transcript| <= TAIL then transcript else transcript[|transcript| - TAIL..]
  }

  /** `_deliver`. */
  function Deliver(e: Entry, s: Sighting, r: Report): Outcome {
    if s.busy then Busy
    else if e.reportAttempts >= REPORT_ATTEMPT_LIMIT then GaveUp(r)
    else if s.turn.TimedOut? || s.turn.Raised? then Retried(r)
    else Delivered(r)
  }

  /** What a tick decides about a session it visits. */
  function Decide(e: Entry, reg: Registry, s: Sighting): Outcome {
    if !NeedsCheck(s.session, e) then Unchecked
    else
      var messages := Tail(s.transcript);
      var report := PlanReport(s.session, messages, e);
      if report.None? then NothingDue
      else
        var to := RoutingSupervisor(s.session, messages, report.value.message);
        if !IsOurs(reg, to) then Foreign
        else if !Ready(reg, to) then Held
        else Deliver(e, s, report.value)
  }

  predicate ReportFits(o: Outcome, messages: seq<Message>) {
    (o.Delivered? || o.GaveUp? || o.Retried?) && o.report.message.Some? ==> o.report.message.value < |messages|
  }

  function Settle(e: Entry, s: Sighting, o: Outcome): Entry
    requires ReportFits(o, Tail(s.transcript))
  {
    match o
    case NothingDue => MarkSeen(e, s.session)
    case Foreign => MarkSeen(e, s.session)
    case Delivered(r) => MarkSeen(MarkReported(e, Tail(s.transcript), r), s.session)
    case GaveUp(r) => MarkSeen(MarkReported(e, Tail(s.transcript), r), s.session)
    case Retried(_) => e.(reportAttempts := e.reportAttempts + 1)
    case _ => e
  }

  /** A visit: the decision, and the entry after it. */
  function Visit(e: Entry, reg: Registry, s: Sighting): (Entry, Outcome) {
    var o := Decide(e, reg, s);
    (Settle(e, s, o), o)
  }

  /** `_baseline` of one session. */
  function Baseline(e: Entry, s: Sighting): Entry {
    var messages := Tail(s.transcript);
    var report := PlanReport(s.session, messages, e);
    MarkSeen(if report.Some? then MarkReported(e, messages, report.value) else e, s.session)
  }

  // ---- a tick ----

  type Entries = map<string, Entry>

  datatype Store = Store(sessions: Entries, isNew: bool)

  datatype Delivery = Delivery(session: string, report: Report)

  function EntryOf(sessions: Entries, id: string): Entry {
    if id in sessions then sessions[id] else BLANK
  }

  predicate Candidate(s: Sighting) {
    s.session.status != "archived" && s.session.id != ""
  }

  /** The visits of a listing, in order. */
  function VisitEach(sessions: Entries, reg: Registry, listing: seq<Sighting>): (Entries, seq<Delivery>) {
    if listing == [] then (sessions, [])
    else
      var before := VisitEach(sessions, reg, listing[..|listing| - 1]);
      var s := listing[|listing| - 1];
      if !Candidate(s) then before
      else
        var v := Visit(EntryOf(before.0, s.session.id), reg, s);
        (before.0[s.session.id := v.0],
         if v.1.Delivered? then before.1 + [Delivery(s.session.id, v.1.report)] else before.1)
  }

  function BaselineEach(sessions: Entries, listing: seq<Sighting>): Entries {
    if listing == [] then sessions
    else
      var before := BaselineEach(sessions, listing[..|listing| - 1]);
      var s := listing[|listing| - 1];
      if !Candidate(s) then before else before[s.session.id := Baseline(EntryOf(before, s.session.id), s)]
  }

  function ListedIds(listing: seq<Sighting>): set<string> {
    set k | 0 <= k < |listing| && listing[k].session.id != "" :: listing[k].session.id
  }

  function Pruned(sessions: Entries, keep: set<string>): Entries {
    map id | id in sessions && id in keep :: sessions[id]
  }

  /** `tick`. */
  function Tick(store: Store, reg: Registry, listing: seq<Sighting>): (Store, seq<Delivery>) {
    if reg.channels == map[] || !reg.cli || !SomeReady(reg) then (store, [])
    else if store.isNew then (Store(BaselineEach(store.sessions, listing), false), [])
    else
      var v := VisitEach(store.sessions, reg, listing);
      (store.(sessions := Pruned(v.0, ListedIds(listing))), v.1)
  }

  /** `ImReporter` with its `ReporterState`. */
  class ImReporter {
    var sessions: Entries
    var isNew: bool

    ghost function View(): Store
      reads this
    {
      Store(sessions, isNew)
    }

    constructor (sessions: Entries, isNew: bool)
      ensures View() == Store(sessions, isNew)
    {
      this.sessions, this.isNew := sessions, isNew;
    }

    method BaselineAll(listing: seq<Sighting>)
      modifies this
      ensures View() == Store(BaselineEach(old(sessions), listing), false)
    {
      for k := 0 to |listing|
        invariant sessions == BaselineEach(old(sessions), listing[..k])
      {
        assert listing[..k + 1][..k] == listing[..k];
        var s := listing[k];
        if s.session.status == "archived" || s.session.id == "" {
          continue;
        }
        var entry := EntryOf(sessions, s.session.id);
        var messages := Tail(s.transcript);
        var report := PlanReport(s.session, messages, entry);
        if report.Some? {
          entry := MarkReported(entry, messages, report.value);
        }
        sessions := sessions[s.session.id := MarkSeen(entry, s.session)];
      }
      assert listing[..|listing|] == listing;
      isNew := false;
    }

    method DeliverReport(s: Sighting, r: Report) returns (o: Outcome)
      ensures o == Deliver(EntryOf(sessions, s.session.id), s, r)
    {
      if s.busy {
        return Busy;
      }
      if EntryOf(sessions, s.session.id).reportAttempts >= REPORT_ATTEMPT_LIMIT {
        return GaveUp(r);
      }
      match s.turn {
        case TimedOut => return Retried(r);
        case Raised => return Retried(r);
        case Skip => return Delivered(r);
        case Sent => return Delivered(r);
      }
    }

    /** The body of the loop over the candidates. */
    method VisitOne(reg: Registry, s: Sighting) returns (o: Outcome)
      modifies this`sessions
      ensures o == Decide(EntryOf(old(sessions), s.session.id), reg, s)
      ensures sessions == old(sessions)[s.session.id := Visit(EntryOf(old(sessions), s.session.id), reg, s).0]
    {
      var entry := EntryOf(sessions, s.session.id);
      sessions := sessions[s.session.id := entry];
      if !NeedsCheck(s.session, entry) {
        return Unchecked;
      }
      var messages := Tail(s.transcript);
      var report := PlanReport(s.session, messages, entry);
      if report == None {
        sessions := sessions[s.session.id := MarkSeen(entry, s.session)];
        return NothingDue;
      }
      var to := FindRoutingSupervisor(s.session, messages, report.value.message);
      if !IsOurs(reg, to) {
        sessions := sessions[s.session.id := MarkSeen(entry, s.session)];
        return Foreign;
      }
      if !Ready(reg, to) {
        return Held;
      }
      o := DeliverReport(s, report.value);
      if o.Delivered? || o.GaveUp? {
        entry := MarkReported(entry, messages, report.value);
        sessions := sessions[s.session.id := MarkSeen(entry, s.session)];
      } else if o.Retried? {
        sessions := sessions[s.session.id := entry.(reportAttempts := entry.reportAttempts + 1)];
      }
    }

    method RunTick(reg: Registry, listing: seq<Sighting>) returns (delivered: seq<Delivery>)
      modifies this
      ensures (View(), delivered) == Tick(old(View()), reg, listing)
    {
      delivered := [];
      if reg.channels == map[] || !reg.cli || !SomeReady(reg) {
        return;
      }
      if isNew {
        BaselineAll(listing);
        return;
      }
      for k := 0 to |listing|
        invariant (sessions, delivered) == VisitEach(old(sessions), reg, listing[..k])
        invariant isNew == old(isNew)
      {
        assert listing[..k + 1][..k] == listing[..k];
        var s := listing[k];
        if s.session.status == "archived" || s.session.id == "" {
          continue;
        }
        var o := VisitOne(reg, s);
        if o.Delivered? {
          delivered := delivered + [Delivery(s.session.id, o.report)];
        }
      }
      assert listing[..|listing|] == listing;
      sessions := Pruned(sessions, ListedIds(listing));
    }
  }
}
