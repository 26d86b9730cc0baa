/** The bridge's threads, interleaved: the command thread opens runs, aborts them and hands over
    messages; the agent thread ends steps and tells the user things; one drain per run sees its
    task's `done`. An action is one locked section; every interleaving is a sequence of actions.

    What must hold of a run's life is stated on the log alone, by a monitor that reads it event
    by event, knowing nothing of the bridge's variables. */
module BridgeProtocol {
  import opened Wrappers
  import opened Interject
  import opened InterjectProtocol
  import opened BridgeRuns

  /** Where the command thread is: between commands; past the check that no run is in progress;
      past the return of messages left over; with a run opened whose task is not put yet; or with
      the generation retired by an abort. */
  datatype Command = Ready | Checked | Swept | Opening(gen: nat) | Aborting

  /** Between the parts of a turn-end hook: its events to send, then its exit to report. */
  datatype Agent = NoHook | Hooking(turn: nat, read: seq<Id>, exit: bool) | Exiting

  datatype State = State(core: Core, command: Command, agent: Agent, drains: set<nat>)

  /** `TellOverReset` is a told line and the reset of the numbers at a task's put at once: the reset
      takes no lock, so it can fall between the line's reading of the numbers and its writing of
      them, and is then lost. */
  datatype Action =
    | UserMessage
    | Sweep
    | Open
    | StartTask
    | Abort
    | AbortEnd
    | Interject(items: seq<Item>, preamble: string, allowed: bool)
    | Tell(turn: nat)
    | TellOverReset(turn: nat)
    | BeginHook(injected: Option<string>, turn: nat, exit: bool)
    | SendHook
    | ExitHook
    | GaClears
    | Done(drain: nat, slash: bool)

  const INITIAL := State(Core(0, false, (0, 0), World(NEW_ACCOUNT, None), []), Ready, NoHook, {})

  function Step(s: State, a: Action): State {
    var c := s.core;
    match a
    case UserMessage =>
      if !s.command.Ready? then s
      else if c.open then s.(core := Log(c, Error))
      else s.(command := Checked)
    case Sweep => if s.command.Checked? then s.(core := ReturnUnread(c), command := Swept) else s
    case Open => if s.command.Swept? then s.(core := OpenRun(c), command := Opening(c.gen + 1)) else s
    case StartTask =>
      if s.command.Opening?
      then s.(core := StartTelling(c), command := Ready, drains := s.drains + {s.command.gen}) else s
    case Abort =>
      if s.command.Ready? then s.(core := Retire(c), command := Aborting) else s
    case AbortEnd =>
      if s.command.Aborting? then s.(core := Close(c, Aborted, None), command := Ready) else s
    case Interject(items, preamble, allowed) =>
      if s.command.Ready? then s.(core := TakeMessages(c, items, preamble, allowed)) else s
    case Tell(turn) => s.(core := TellLine(c, turn))
    case TellOverReset(turn) =>
      if s.command.Opening? && c.open
      then s.(core := TellLine(c, turn), command := Ready, drains := s.drains + {s.command.gen}) else s
    case BeginHook(injected, turn, exit) =>
      if s.agent.NoHook?
      then s.(core := StepEnd(c, injected, exit),
              agent := Hooking(turn, ReadIds(c.world.account, injected, !exit), exit)) else s
    case SendHook =>
      if s.agent.Hooking?
      then s.(core := StepEvents(c, s.agent.turn, s.agent.read), agent := if s.agent.exit then Exiting else NoHook)
      else s
    case ExitHook =>
      if s.agent.Exiting? then s.(core := Close(c, Exited, None), agent := NoHook) else s
    case GaClears => s.(core := c.(world := c.world.(cell := None)))
    case Done(drain, slash) =>
      if drain in s.drains then s.(core := DrainDone(c, drain, slash), drains := s.drains - {drain}) else s
  }

  function Run(s: State, actions: seq<Action>): State
    decreases |actions|
  {
    if actions == [] then s else Run(Step(s, actions[0]), actions[1..])
  }

  ghost predicate DistinctItems(actions: seq<Action>) {
    forall k | 0 <= k < |actions| && actions[k].Interject? :: NoDup(Ids(actions[k].items))
  }

  // ---- the monitor ----

  /** What the log so far says. `ok` is false once it says something impossible. */
  datatype Monitor = Monitor(
    ok: bool,
    open: bool,
    gen: nat,
    retired: bool,
    accepted: seq<Id>,
    read: seq<Id>,
    returned: seq<Id>,
    unsent: seq<Id>,
    opens: nat,
    completes: nat)

  const BLANK := Monitor(true, false, 0, false, [], [], [], [], 0, 0)

  /** A run opens only when none is open, and completes once. In between it is told things and
      takes messages. At its end each message it accepted was read or is returned, in the order
      sent, with nothing between the return and the completion. A drain completes only its own
      run, and none that was retired. What a step's end read is reported delivered, in full,
      before the next step's end reads. */
  function Watch(m: Monitor, e: Event): Monitor {
    if m.returned != [] && !e.RunComplete? then m.(ok := false)
    else match e
    case RunOpened(gen) =>
      m.(ok := m.ok && !m.open, open := true, gen := gen, retired := false, opens := m.opens + 1)
    case RunRetired => m.(retired := true)
    case ToldReset => m
    case Accepted(ids) => m.(ok := m.ok && m.open, accepted := m.accepted + ids)
    case ReadAt(ids) => m.(ok := m.ok && m.unsent == [], read := m.read + ids, unsent := ids)
    case InterjectDelivered(ids, _) => m.(ok := m.ok && ids != [] && ids == m.unsent, unsent := [])
    case InterjectReturned(ids) => m.(ok := m.ok && m.open && ids != [], returned := ids)
    case RunComplete(reason, drain) =>
      m.(ok := && m.ok && m.open && m.accepted == m.read + m.returned
               && (drain.Some? <==> reason.WithoutExit? || reason.SlashCommand?)
               && (drain.Some? ==> drain.value == m.gen && !m.retired),
         open := false, accepted := [], read := [], returned := [], completes := m.completes + 1)
    case TellUser(_, _) => m.(ok := m.ok && m.open)
    case TurnEnd(_) => m
    case InterjectRefused(_) => m
    case Error => m
  }

  function WatchAll(log: seq<Event>): Monitor {
    if log == [] then BLANK else Watch(WatchAll(log[..|log| - 1]), log[|log| - 1])
  }

  lemma WatchLog(c: Core, e: Event)
    ensures WatchAll(Log(c, e).log) == Watch(WatchAll(c.log), e)
  {
    assert (c.log + [e])[..|c.log|] == c.log;
  }

  // ---- the invariant ----

  /** The log is possible so far, and says what the bridge's variables say. */
  ghost predicate LogOk(c: Core, unsent: seq<Id>) {
    var m := WatchAll(c.log);
    && m.ok && m.open == c.open && m.returned == [] && m.unsent == unsent
    && m.opens == m.completes + (if c.open then 1 else 0)
    && (!c.open ==> m.accepted == [] && m.read == [])
    && (c.open ==> m.gen <= c.gen && (m.retired <==> m.gen < c.gen))
  }

  /** The account holds what the current run accepted and no step's end has read. */
  ghost predicate BooksOk(c: Core) {
    AccountOk(c.world, WatchAll(c.log).accepted, WatchAll(c.log).read)
  }

  lemma Balance(w: World, accepted: seq<Id>, read: seq<Id>)
    requires AccountOk(w, accepted, read)
    ensures accepted == read + Ids(w.account.unread)
    ensures accepted == [] ==> w.account.unread == [] && w.account.written == []
  {
    assert w.account.written != [] ==> 0 < |w.account.written[0].ids| <= |w.account.unread|;
    assert |read + Ids(w.account.unread)| == |read| + |w.account.unread|;
  }

  lemma EmptyBooks(c: Core)
    requires c.world.account == NEW_ACCOUNT && c.world.cell.None?
    requires WatchAll(c.log).accepted == [] && WatchAll(c.log).read == []
    ensures BooksOk(c)
  {
    assert Ids([]) == [] && [] + Ids([]) == [];
  }

  lemma TakeUnreadEmpties(w: World)
    requires w.cell.Some? ==> w.account.dirty
    ensures DoTakeUnread(w).0 == World(NEW_ACCOUNT, None)
  {
  }

  /** While a run is open, something is left that will end it: the command that opened it is
      about to put its task, an abort is about to complete it, or its drain is waiting. */
  ghost predicate WillEnd(s: State) {
    var m := WatchAll(s.core.log);
    s.core.open ==>
      || s.command.Aborting?
      || (m.gen == s.core.gen && (s.command == Opening(m.gen) || m.gen in s.drains))
  }

  /** No drain carries a generation that is still to come, nor one that retired a run. */
  ghost predicate DrainsOk(s: State) {
    && (s.command.Checked? || s.command.Swept? ==> !s.core.open)
    && (forall d | d in s.drains :: d <= s.core.gen)
    && (s.command.Opening? ==> s.command.gen <= s.core.gen)
    && (s.core.open && (s.core.gen in s.drains || s.command == Opening(s.core.gen)) ==>
          WatchAll(s.core.log).gen == s.core.gen)
  }

  function Unsent(agent: Agent): seq<Id> {
    if agent.Hooking? then agent.read else []
  }

  ghost predicate Inv(s: State) {
    LogOk(s.core, Unsent(s.agent)) && BooksOk(s.core) && WillEnd(s) && DrainsOk(s)
  }

  // ---- each locked section ----

  lemma CloseLog(c: Core, unsent: seq<Id>, reason: Reason, drain: Option<nat>)
    requires LogOk(c, unsent) && c.open
    requires drain.Some? <==> reason.WithoutExit? || reason.SlashCommand?
    requires drain.Some? ==> drain.value == c.gen == WatchAll(c.log).gen
    requires var m := WatchAll(c.log); m.accepted == m.read + Ids(c.world.account.unread)
    ensures var d := Close(c, reason, drain);
            && LogOk(d, unsent) && !d.open && d.gen == c.gen
            && WatchAll(d.log).accepted == [] && WatchAll(d.log).read == []
            && WatchAll(d.log).completes == WatchAll(c.log).completes + 1
            && d.world == DoTakeUnread(c.world).0
  {
    var m := WatchAll(c.log);
    var ids := Ids(c.world.account.unread);
    var r := ReturnUnread(c);
    if ids != [] {
      WatchLog(c.(world := DoTakeUnread(c.world).0), InterjectReturned(ids));
    }
    assert m.read + [] == m.read;
    WatchLog(r, RunComplete(reason, drain));
  }

  lemma CloseKeeps(c: Core, unsent: seq<Id>, reason: Reason, drain: Option<nat>)
    requires LogOk(c, unsent) && BooksOk(c)
    requires drain.Some? <==> reason.WithoutExit? || reason.SlashCommand?
    requires c.open && drain.Some? ==> drain.value == c.gen == WatchAll(c.log).gen
    ensures var d := Close(c, reason, drain);
            LogOk(d, unsent) && BooksOk(d) && !d.open && d.gen == c.gen
  {
    if c.open {
      Balance(c.world, WatchAll(c.log).accepted, WatchAll(c.log).read);
      CloseLog(c, unsent, reason, drain);
      TakeUnreadEmpties(c.world);
      EmptyBooks(Close(c, reason, drain));
    }
  }

  /** Before a run opens nothing is returned: the end of the run before has settled its messages. */
  lemma SweepFindsNothing(c: Core, unsent: seq<Id>)
    requires LogOk(c, unsent) && BooksOk(c) && !c.open
    ensures var d := ReturnUnread(c); LogOk(d, unsent) && BooksOk(d) && d == c.(world := d.world)
  {
    Balance(c.world, [], []);
    TakeUnreadEmpties(c.world);
    EmptyBooks(ReturnUnread(c));
  }

  lemma OpenKeeps(c: Core, unsent: seq<Id>)
    requires LogOk(c, unsent) && BooksOk(c) && !c.open
    ensures var d := OpenRun(c);
            LogOk(d, unsent) && BooksOk(d) && d.open && d.gen == c.gen + 1 && WatchAll(d.log).gen == d.gen
  {
    WatchLog(c.(gen := c.gen + 1, open := true), RunOpened(c.gen + 1));
    BooksFrom(OpenRun(c), [], []);
  }

  lemma DrainKeeps(c: Core, unsent: seq<Id>, gen: nat, slash: bool)
    requires LogOk(c, unsent) && BooksOk(c) && (c.open && c.gen == gen ==> WatchAll(c.log).gen == gen)
    ensures var d := DrainDone(c, gen, slash);
            && LogOk(d, unsent) && BooksOk(d) && d.gen == c.gen && (d.open <==> c.open && c.gen != gen)
            && (d.open ==> d == c)
  {
    if c.gen == gen && c.open {
      WatchLog(c, Error);
      CloseKeeps(if slash then c else Log(c, Error), unsent, if slash then SlashCommand else WithoutExit, Some(gen));
    }
  }

  lemma RetireKeeps(c: Core, unsent: seq<Id>)
    requires LogOk(c, unsent) && BooksOk(c)
    ensures LogOk(Retire(c), unsent) && BooksOk(Retire(c)) && WatchAll(Retire(c).log).gen == WatchAll(c.log).gen
  {
    WatchLog(c.(gen := c.gen + 1), RunRetired);
  }

  lemma TellKeeps(c: Core, unsent: seq<Id>, turn: nat)
    requires LogOk(c, unsent) && BooksOk(c)
    ensures var d := TellLine(c, turn);
            LogOk(d, unsent) && BooksOk(d) && WatchAll(d.log).gen == WatchAll(c.log).gen
  {
    if c.open {
      var index := if c.told.0 == turn then c.told.1 + 1 else 1;
      WatchLog(c.(told := (turn, index)), TellUser(turn, index));
    }
  }

  lemma BooksFrom(c: Core, accepted: seq<Id>, read: seq<Id>)
    requires AccountOk(c.world, accepted, read)
    requires WatchAll(c.log).accepted == accepted && WatchAll(c.log).read == read
    ensures BooksOk(c)
  {
  }

  lemma MessagesBooks(c: Core, items: seq<Item>, preamble: string)
    requires BooksOk(c) && NoDup(Ids(items)) && WatchAll(c.log).returned == []
    ensures var r := DoAdd(c.world, items, preamble);
            BooksOk(Log(c.(world := r.0), Accepted(r.1)))
  {
    var w, ids := DoAdd(c.world, items, preamble).0, DoAdd(c.world, items, preamble).1;
    AddBooks(c.world, WatchAll(c.log), items, preamble);
    AcceptedLog(c, w, ids);
    BooksFrom(Log(c.(world := w), Accepted(ids)), WatchAll(c.log).accepted + ids, WatchAll(c.log).read);
  }

  lemma AddBooks(w: World, m: Monitor, items: seq<Item>, preamble: string)
    requires AccountOk(w, m.accepted, m.read) && NoDup(Ids(items))
    ensures var r := DoAdd(w, items, preamble); AccountOk(r.0, m.accepted + r.1, m.read)
  {
    AddKeepsAccount(w, m.accepted, m.read, items, preamble);
  }

  lemma AcceptedLog(c: Core, w: World, ids: seq<Id>)
    requires WatchAll(c.log).returned == []
    ensures var d := Log(c.(world := w), Accepted(ids));
            && d.world == w && WatchAll(d.log).accepted == WatchAll(c.log).accepted + ids
            && WatchAll(d.log).read == WatchAll(c.log).read
  {
    WatchLog(c.(world := w), Accepted(ids));
  }

  lemma MessagesLog(c: Core, unsent: seq<Id>, items: seq<Item>, preamble: string, allowed: bool)
    requires LogOk(c, unsent)
    ensures var d := TakeMessages(c, items, preamble, allowed);
            LogOk(d, unsent) && d.gen == c.gen && d.open == c.open && WatchAll(d.log).gen == WatchAll(c.log).gen
  {
    var r := DoAdd(c.world, items, preamble);
    if c.open && allowed {
      AcceptedKeepsLog(c, unsent, r.0, r.1);
    } else if items != [] {
      RefusedKeepsLog(c, unsent, Ids(items));
    }
  }

  lemma AcceptedKeepsLog(c: Core, unsent: seq<Id>, w: World, ids: seq<Id>)
    requires LogOk(c, unsent) && c.open
    ensures var d := Log(c.(world := w), Accepted(ids));
            LogOk(d, unsent) && WatchAll(d.log).gen == WatchAll(c.log).gen
  {
    WatchLog(c.(world := w), Accepted(ids));
  }

  lemma RefusedKeepsLog(c: Core, unsent: seq<Id>, ids: seq<Id>)
    requires LogOk(c, unsent)
    ensures LogOk(Log(c, InterjectRefused(ids)), unsent)
    ensures WatchAll(Log(c, InterjectRefused(ids)).log) == WatchAll(c.log)
  {
    WatchLog(c, InterjectRefused(ids));
  }

  lemma MessagesKeep(c: Core, unsent: seq<Id>, items: seq<Item>, preamble: string, allowed: bool)
    requires LogOk(c, unsent) && BooksOk(c) && NoDup(Ids(items))
    ensures var d := TakeMessages(c, items, preamble, allowed);
            && LogOk(d, unsent) && BooksOk(d) && d.gen == c.gen && d.open == c.open
            && WatchAll(d.log).gen == WatchAll(c.log).gen
  {
    MessagesLog(c, unsent, items, preamble, allowed);
    if c.open && allowed {
      MessagesBooks(c, items, preamble);
    } else if items != [] {
      WatchLog(c, InterjectRefused(Ids(items)));
    }
  }

  lemma ReadBooks(w: World, m: Monitor, injected: Option<string>, goesOn: bool)
    requires AccountOk(w, m.accepted, m.read)
    ensures var r := DoStepEnded(w, injected, goesOn); AccountOk(r.0, m.accepted, m.read + r.1)
  {
    StepEndedKeepsAccount(w, m.accepted, m.read, injected, goesOn);
  }

  lemma ReadLog(c: Core, w: World, read: seq<Id>)
    requires WatchAll(c.log).returned == []
    ensures var d := NoteRead(c, w, read);
            && d.world == w && WatchAll(d.log).accepted == WatchAll(c.log).accepted
            && WatchAll(d.log).read == WatchAll(c.log).read + read
  {
    WatchLog(c.(world := w), ReadAt(read));
    if read == [] {
      assert WatchAll(c.log).read + read == WatchAll(c.log).read;
    }
  }

  lemma StepEndBooks(c: Core, injected: Option<string>, exit: bool)
    requires BooksOk(c) && WatchAll(c.log).returned == []
    ensures BooksOk(StepEnd(c, injected, exit))
  {
    var r := DoStepEnded(c.world, injected, !exit);
    ReadBooks(c.world, WatchAll(c.log), injected, !exit);
    ReadLog(c, r.0, r.1);
    BooksFrom(NoteRead(c, r.0, r.1), WatchAll(c.log).accepted, WatchAll(c.log).read + r.1);
  }

  lemma NoteReadLog(c: Core, w: World, read: seq<Id>)
    requires LogOk(c, []) && (read != [] ==> c.open)
    ensures var d := NoteRead(c, w, read);
            LogOk(d, read) && d.gen == c.gen && d.open == c.open && WatchAll(d.log).gen == WatchAll(c.log).gen
  {
    WatchLog(c.(world := w), ReadAt(read));
  }

  lemma StepEndLog(c: Core, injected: Option<string>, exit: bool)
    requires LogOk(c, []) && (!c.open ==> c.world.account.written == [])
    ensures var d := StepEnd(c, injected, exit);
            && LogOk(d, ReadIds(c.world.account, injected, !exit))
            && d.gen == c.gen && d.open == c.open && WatchAll(d.log).gen == WatchAll(c.log).gen
  {
    var r := DoStepEnded(c.world, injected, !exit);
    NoteReadLog(c, r.0, r.1);
  }

  lemma StepEndKeeps(c: Core, injected: Option<string>, exit: bool)
    requires LogOk(c, []) && BooksOk(c)
    ensures var d := StepEnd(c, injected, exit);
            && LogOk(d, ReadIds(c.world.account, injected, !exit)) && BooksOk(d)
            && d.gen == c.gen && d.open == c.open && WatchAll(d.log).gen == WatchAll(c.log).gen
  {
    Balance(c.world, WatchAll(c.log).accepted, WatchAll(c.log).read);
    StepEndLog(c, injected, exit);
    StepEndBooks(c, injected, exit);
  }

  lemma EventsKeep(c: Core, turn: nat, read: seq<Id>)
    requires LogOk(c, read) && BooksOk(c)
    ensures var d := StepEvents(c, turn, read);
            LogOk(d, []) && BooksOk(d) && d.gen == c.gen && d.open == c.open && WatchAll(d.log).gen == WatchAll(c.log).gen
  {
    WatchLog(c, TurnEnd(turn));
    if read != [] {
      WatchLog(Log(c, TurnEnd(turn)), InterjectDelivered(read, turn));
    }
  }

  lemma ClearsKeep(c: Core, unsent: seq<Id>)
    requires LogOk(c, unsent) && BooksOk(c)
    ensures var d := c.(world := c.world.(cell := None)); LogOk(d, unsent) && BooksOk(d)
  {
  }

  // ---- every action ----

  /** The actions that move the command thread on. */
  predicate ByCommand(a: Action) {
    a.UserMessage? || a.Sweep? || a.Open? || a.StartTask? || a.TellOverReset? || a.Abort? || a.AbortEnd?
  }

  /** A task is put: whatever was told or reset, the run and its messages stay what they are. */
  lemma PutKeeps(s: State, d: Core)
    requires Inv(s) && s.command.Opening? && LogOk(d, Unsent(s.agent)) && BooksOk(d)
    requires d.gen == s.core.gen && d.open == s.core.open && WatchAll(d.log).gen == WatchAll(s.core.log).gen
    ensures Inv(s.(core := d, command := Ready, drains := s.drains + {s.command.gen}))
  {
  }

  lemma StartKeeps(s: State)
    requires Inv(s) && s.command.Opening?
    ensures Inv(Step(s, StartTask))
  {
    ResetKeeps(s.core, Unsent(s.agent));
    PutKeeps(s, StartTelling(s.core));
  }

  lemma ResetKeeps(c: Core, unsent: seq<Id>)
    requires LogOk(c, unsent) && BooksOk(c)
    ensures var d := StartTelling(c);
            LogOk(d, unsent) && BooksOk(d) && WatchAll(d.log).gen == WatchAll(c.log).gen
  {
    WatchLog(c.(told := (0, 0)), ToldReset);
  }

  lemma OverResetKeeps(s: State, turn: nat)
    requires Inv(s) && s.command.Opening?
    ensures Inv(Step(s, TellOverReset(turn)))
  {
    TellKeeps(s.core, Unsent(s.agent), turn);
    PutKeeps(s, TellLine(s.core, turn));
  }

  lemma CommandKeeps(s: State, a: Action)
    requires Inv(s) && ByCommand(a)
    ensures Inv(Step(s, a))
  {
    var c, unsent := s.core, Unsent(s.agent);
    match a
    case UserMessage => WatchLog(c, Error);
    case Sweep => if s.command.Checked? { SweepFindsNothing(c, unsent); }
    case Open => if s.command.Swept? { OpenKeeps(c, unsent); }
    case StartTask => if s.command.Opening? { StartKeeps(s); }
    case TellOverReset(turn) => if s.command.Opening? { OverResetKeeps(s, turn); }
    case Abort => RetireKeeps(c, unsent);
    case AbortEnd => CloseKeeps(c, unsent, Aborted, None);
  }

  /** The actions that leave the generation, the command and the drains as they are. */
  lemma OtherKeeps(s: State, a: Action)
    requires Inv(s) && (a.Interject? ==> NoDup(Ids(a.items)))
    requires !ByCommand(a) && !ByHook(a) && !a.Done?
    ensures Inv(Step(s, a))
  {
    var c, unsent := s.core, Unsent(s.agent);
    match a
    case Interject(items, preamble, allowed) => MessagesKeep(c, unsent, items, preamble, allowed);
    case Tell(turn) => TellKeeps(c, unsent, turn);
    case GaClears => ClearsKeep(c, unsent);
  }

  predicate ByHook(a: Action) {
    a.BeginHook? || a.SendHook? || a.ExitHook?
  }

  /** The agent thread's turn-end hook. */
  lemma HookKeeps(s: State, a: Action)
    requires Inv(s) && ByHook(a)
    ensures Inv(Step(s, a))
  {
    match a
    case BeginHook(injected, turn, exit) => if s.agent.NoHook? { BeginKeeps(s, injected, turn, exit); }
    case SendHook => if s.agent.Hooking? { SendKeeps(s); }
    case ExitHook => if s.agent.Exiting? { ExitKeeps(s); }
  }

  /** The agent thread moves on, and the open run, if there still is one, stays what it was. */
  lemma AgentMoves(s: State, d: Core, agent: Agent)
    requires Inv(s) && LogOk(d, Unsent(agent)) && BooksOk(d) && d.gen == s.core.gen
    requires d.open ==> s.core.open && WatchAll(d.log).gen == WatchAll(s.core.log).gen
    ensures Inv(s.(core := d, agent := agent))
  {
  }

  lemma BeginKeeps(s: State, injected: Option<string>, turn: nat, exit: bool)
    requires Inv(s) && s.agent.NoHook?
    ensures Inv(Step(s, BeginHook(injected, turn, exit)))
  {
    StepEndKeeps(s.core, injected, exit);
    var d, agent := StepEnd(s.core, injected, exit), Hooking(turn, ReadIds(s.core.world.account, injected, !exit), exit);
    AgentMoves(s, d, agent);
    BeginIs(s, injected, turn, exit);
  }

  lemma BeginIs(s: State, injected: Option<string>, turn: nat, exit: bool)
    requires s.agent.NoHook?
    ensures Step(s, BeginHook(injected, turn, exit)) ==
            s.(core := StepEnd(s.core, injected, exit),
               agent := Hooking(turn, ReadIds(s.core.world.account, injected, !exit), exit))
  {
  }

  lemma SendKeeps(s: State)
    requires Inv(s) && s.agent.Hooking?
    ensures Inv(Step(s, SendHook))
  {
    EventsKeep(s.core, s.agent.turn, s.agent.read);
    AgentMoves(s, StepEvents(s.core, s.agent.turn, s.agent.read), if s.agent.exit then Exiting else NoHook);
    SendIs(s);
  }

  lemma SendIs(s: State)
    requires s.agent.Hooking?
    ensures Step(s, SendHook) ==
            s.(core := StepEvents(s.core, s.agent.turn, s.agent.read), agent := if s.agent.exit then Exiting else NoHook)
  {
  }

  lemma ExitKeeps(s: State)
    requires Inv(s) && s.agent.Exiting?
    ensures Inv(Step(s, ExitHook))
  {
    CloseKeeps(s.core, [], Exited, None);
    AgentMoves(s, Close(s.core, Exited, None), NoHook);
    ExitIs(s);
  }

  lemma ExitIs(s: State)
    requires s.agent.Exiting?
    ensures Step(s, ExitHook) == s.(core := Close(s.core, Exited, None), agent := NoHook)
  {
  }

  lemma StepKeeps(s: State, a: Action)
    requires Inv(s) && (a.Interject? ==> NoDup(Ids(a.items)))
    ensures Inv(Step(s, a))
  {
    if ByCommand(a) {
      CommandKeeps(s, a);
    } else if a.Done? {
      if a.drain in s.drains { DrainKeeps(s.core, Unsent(s.agent), a.drain, a.slash); }
    } else if ByHook(a) {
      HookKeeps(s, a);
    } else {
      OtherKeeps(s, a);
    }
  }

  lemma FirstDistinct(actions: seq<Action>)
    requires actions != [] && DistinctItems(actions)
    ensures DistinctItems(actions[1..]) && (actions[0].Interject? ==> NoDup(Ids(actions[0].items)))
  {
    assert forall k | 0 <= k < |actions[1..]| :: actions[1..][k] == actions[k + 1];
  }

  lemma {:induction false} RunKeeps(s: State, actions: seq<Action>)
    requires Inv(s) && DistinctItems(actions)
    ensures Inv(Run(s, actions))
    decreases |actions|
  {
    if actions != [] {
      FirstDistinct(actions);
      StepKeeps(s, actions[0]);
      RunKeeps(Step(s, actions[0]), actions[1..]);
    }
  }

  // ---- what it means ----

  lemma StartsOk()
    ensures Inv(INITIAL)
  {
    EmptyBooks(INITIAL.core);
  }

  function Opened(log: seq<Event>): nat {
    if log == [] then 0
    else Opened(log[..|log| - 1]) + (if log[|log| - 1].RunOpened? then 1 else 0)
  }

  function Completed(log: seq<Event>): nat {
    if log == [] then 0
    else Completed(log[..|log| - 1]) + (if log[|log| - 1].RunComplete? then 1 else 0)
  }

  /** A possible log alternates: as many completions as openings, but for the run still open. */
  lemma {:induction false} OkAlternates(log: seq<Event>)
    requires WatchAll(log).ok
    ensures Opened(log) == Completed(log) + (if WatchAll(log).open then 1 else 0)
  {
    if log != [] {
      OkAlternates(log[..|log| - 1]);
      OneAlternates(WatchAll(log[..|log| - 1]), log[|log| - 1]);
    }
  }

  lemma OneAlternates(m: Monitor, e: Event)
    requires Watch(m, e).ok
    ensures m.ok && (e.RunOpened? ==> !m.open) && (e.RunComplete? ==> m.open)
    ensures Watch(m, e).open <==> e.RunOpened? || (m.open && !e.RunComplete?)
  {
  }

  lemma {:induction false} OkBefore(log: seq<Event>, k: nat)
    requires WatchAll(log).ok && k <= |log|
    ensures WatchAll(log[..k]).ok
    decreases |log| - k
  {
    if k < |log| {
      OkBefore(log, k + 1);
      assert log[..k + 1][..k] == log[..k];
    } else {
      assert log[..k] == log;
    }
  }

  /** Under every interleaving each run completes at most once and none opens over an open one. */
  lemma EveryRunCompletesOnce(actions: seq<Action>)
    requires DistinctItems(actions)
    ensures var c := Run(INITIAL, actions).core;
            && WatchAll(c.log).ok && WatchAll(c.log).open == c.open
            && Opened(c.log) == Completed(c.log) + (if c.open then 1 else 0)
  {
    StartsOk();
    RunKeeps(INITIAL, actions);
    OkAlternates(Run(INITIAL, actions).core.log);
  }

  /** Wherever the log of any run of the bridge has a completion, a run was open there; what it
      accepted is what its steps read and what the event just before returns; and a drain's
      completion is of the run the drain was started for, which no abort had retired. */
  lemma EveryCompletionSettles(actions: seq<Action>, k: nat)
    requires DistinctItems(actions)
    requires k < |Run(INITIAL, actions).core.log| && Run(INITIAL, actions).core.log[k].RunComplete?
    ensures var log := Run(INITIAL, actions).core.log;
            var m := WatchAll(log[..k]);
            && m.open && m.accepted == m.read + m.returned
            && (m.returned != [] ==> k > 0 && log[k - 1] == InterjectReturned(m.returned))
            && (log[k].drain.Some? ==> log[k].drain.value == m.gen && !m.retired)
  {
    StartsOk();
    RunKeeps(INITIAL, actions);
    CompletionSettles(Run(INITIAL, actions).core.log, k);
  }

  lemma CompletionSettles(log: seq<Event>, k: nat)
    requires WatchAll(log).ok && k < |log| && log[k].RunComplete?
    ensures var m := WatchAll(log[..k]);
            && m.open && m.accepted == m.read + m.returned
            && (m.returned != [] ==> k > 0 && log[k - 1] == InterjectReturned(m.returned))
            && (log[k].drain.Some? ==> log[k].drain.value == m.gen && !m.retired)
  {
    var before := log[..k];
    OkBefore(log, k + 1);
    LastWatched(log, k);
    CompletesOk(WatchAll(before), log[k]);
    if WatchAll(before).returned != [] {
      ReturnedJustBefore(before);
      assert before[k - 1] == log[k - 1];
    }
  }

  lemma LastWatched(log: seq<Event>, k: nat)
    requires k < |log|
    ensures WatchAll(log[..k + 1]) == Watch(WatchAll(log[..k]), log[k])
  {
    assert log[..k + 1][..k] == log[..k];
  }

  lemma CompletesOk(m: Monitor, e: Event)
    requires Watch(m, e).ok && e.RunComplete?
    ensures m.ok && m.open && m.accepted == m.read + m.returned
    ensures e.drain.Some? ==> e.drain.value == m.gen && !m.retired
  {
  }

  lemma ReturnedJustBefore(log: seq<Event>)
    requires WatchAll(log).ok && WatchAll(log).returned != []
    ensures log != [] && log[|log| - 1] == InterjectReturned(WatchAll(log).returned)
  {
    OnlyReturnSets(WatchAll(log[..|log| - 1]), log[|log| - 1]);
  }

  lemma OnlyReturnSets(m: Monitor, e: Event)
    requires Watch(m, e).ok && Watch(m, e).returned != []
    ensures e == InterjectReturned(Watch(m, e).returned)
  {
  }

  /** A drain's `done` completes a run exactly when the open run is its own and no abort has
      retired it; otherwise it changes nothing. */
  lemma DrainClosesOnlyItsRun(s: State, drain: nat, slash: bool)
    requires Inv(s) && drain in s.drains
    ensures var m, t := WatchAll(s.core.log), Step(s, Done(drain, slash));
            && (s.core.open && m.gen == drain && !m.retired <==> Completed(t.core.log) == Completed(s.core.log) + 1)
            && (!(s.core.open && m.gen == drain && !m.retired) ==> t.core == s.core)
  {
    CountDrain(s.core, drain, slash);
  }

  lemma CountDrain(c: Core, drain: nat, slash: bool)
    ensures Completed(DrainDone(c, drain, slash).log) ==
            Completed(c.log) + (if c.open && c.gen == drain then 1 else 0)
  {
    if c.open && c.gen == drain {
      CountLog(c, Error);
      if slash {
        CountClose(c, SlashCommand, Some(drain));
      } else {
        CountClose(Log(c, Error), WithoutExit, Some(drain));
      }
    }
  }

  lemma CountLog(c: Core, e: Event)
    ensures Completed(Log(c, e).log) == Completed(c.log) + (if e.RunComplete? then 1 else 0)
  {
    assert (c.log + [e])[..|c.log|] == c.log;
  }

  lemma CountClose(c: Core, reason: Reason, drain: Option<nat>)
    ensures Completed(Close(c, reason, drain).log) == Completed(c.log) + (if c.open then 1 else 0)
  {
    if c.open {
      CountLog(c.(world := DoTakeUnread(c.world).0), InterjectReturned(DoTakeUnread(c.world).1));
      CountLog(ReturnUnread(c), RunComplete(reason, drain));
    }
  }

  /** When every drain has seen its task's `done` and no command is halfway, no run is open. */
  lemma NothingLeftOpen(actions: seq<Action>)
    requires DistinctItems(actions)
    ensures var t := Run(INITIAL, actions); t.drains == {} && t.command.Ready? ==> !t.core.open
  {
    StartsOk();
    RunKeeps(INITIAL, actions);
    SettledState(Run(INITIAL, actions));
  }

  lemma SettledState(s: State)
    requires Inv(s)
    ensures s.drains == {} && s.command.Ready? ==> !s.core.open
  {
  }

  // ---- where messages are not taken ----

  ghost predicate NoneAllowed(actions: seq<Action>) {
    forall k | 0 <= k < |actions| && actions[k].Interject? :: !actions[k].allowed
  }

  lemma WritesNothing(s: State, a: Action)
    requires s.core.world.account == NEW_ACCOUNT && (a.Interject? ==> !a.allowed)
    ensures var w := Step(s, a).core.world;
            w.account == NEW_ACCOUNT && w.cell == (if a.GaClears? then None else s.core.world.cell)
  {
    assert NEW_ACCOUNT.unread == [] && Texts([]) == [];
  }

  /** Where no message may be taken (attach mode), the account writes nothing: whatever the threads
      do, `intervene` holds what it held before, until GA itself clears it. */
  lemma {:induction false} AttachModeWritesNothing(s: State, actions: seq<Action>)
    requires s.core.world.account == NEW_ACCOUNT && NoneAllowed(actions)
    ensures var w := Run(s, actions).core.world;
            w.account == NEW_ACCOUNT && w.cell == (if GaClears in actions then None else s.core.world.cell)
    decreases |actions|
  {
    if actions != [] {
      WritesNothing(s, actions[0]);
      AttachModeWritesNothing(Step(s, actions[0]), actions[1..]);
      assert actions == [actions[0]] + actions[1..];
    }
  }
}
