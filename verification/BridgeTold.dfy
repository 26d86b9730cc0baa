/** How the bridge numbers what it tells the user during a run: `_send_told_line` keeps only the
    step of its last line and how many that step has had, and starts over when a task is put. On
    the log, a line is numbered right if its index counts the lines of its step in its run. */
module BridgeTold {
  import opened Wrappers
  import opened Interject
  import opened InterjectProtocol
  import opened BridgeRuns
  import opened BridgeProtocol

  /** How many lines of step `turn` the log has since the last run opened. */
  function ToldIn(log: seq<Event>, turn: nat): nat {
    if log == [] then 0
    else
      match log[|log| - 1]
      case RunOpened(_) => 0
      case TellUser(t, _) => ToldIn(log[..|log| - 1], turn) + (if t == turn then 1 else 0)
      case _ => ToldIn(log[..|log| - 1], turn)
  }

  /** The step of the last line since the last run opened. */
  function LastInRun(log: seq<Event>): Option<nat> {
    if log == [] then None
    else
      match log[|log| - 1]
      case RunOpened(_) => None
      case TellUser(t, _) => Some(t)
      case _ => LastInRun(log[..|log| - 1])
  }

  /** The step of the last line since the numbers were last reset, of whatever run. */
  function LastSinceReset(log: seq<Event>): Option<nat> {
    if log == [] then None
    else
      match log[|log| - 1]
      case ToldReset => None
      case TellUser(t, _) => Some(t)
      case _ => LastSinceReset(log[..|log| - 1])
  }

  /** How many lines of its step its run had with the last line of all. */
  function LastCount(log: seq<Event>): nat {
    if log == [] then 0
    else if log[|log| - 1].TellUser? then ToldIn(log, log[|log| - 1].turn)
    else LastCount(log[..|log| - 1])
  }

  // ---- growing logs ----

  /** `after` adds to `log` no line, no opening and no reset. */
  ghost predicate AddsNoLine(log: seq<Event>, after: seq<Event>) {
    && |log| <= |after| && after[..|log|] == log
    && forall k | |log| <= k < |after| :: !after[k].TellUser? && !after[k].RunOpened? && !after[k].ToldReset?
  }

  lemma {:induction false} SameLines(log: seq<Event>, after: seq<Event>)
    requires AddsNoLine(log, after)
    ensures LastInRun(after) == LastInRun(log) && LastSinceReset(after) == LastSinceReset(log)
    ensures LastCount(after) == LastCount(log)
    decreases |after|
  {
    if |after| > |log| {
      var before := after[..|after| - 1];
      assert before[..|log|] == log;
      SameLines(log, before);
    } else {
      assert after == log;
    }
  }

  lemma AddOne(log: seq<Event>, e: Event)
    requires !e.TellUser? && !e.RunOpened? && !e.ToldReset?
    ensures AddsNoLine(log, log + [e])
  {
  }

  lemma AddMore(a: seq<Event>, b: seq<Event>, c: seq<Event>)
    requires AddsNoLine(a, b) && AddsNoLine(b, c)
    ensures AddsNoLine(a, c)
  {
    assert c[..|a|] == c[..|b|][..|a|];
    forall k | |a| <= k < |c| ensures !c[k].TellUser? && !c[k].RunOpened? && !c[k].ToldReset? {
      assert k < |b| ==> c[..|b|][k] == b[k];
    }
  }

  lemma CloseAddsNoLine(c: Core, reason: Reason, drain: Option<nat>)
    ensures AddsNoLine(c.log, Close(c, reason, drain).log)
  {
    if c.open {
      SweepAddsNoLine(c);
      var r := ReturnUnread(c);
      AddOne(r.log, RunComplete(reason, drain));
      AddMore(c.log, r.log, r.log + [RunComplete(reason, drain)]);
    }
  }

  lemma SweepAddsNoLine(c: Core)
    ensures AddsNoLine(c.log, ReturnUnread(c).log)
  {
    AddOne(c.log, InterjectReturned(DoTakeUnread(c.world).1));
  }

  /** The actions that tell a line, open a run or reset the numbers. */
  predicate Tells(a: BridgeProtocol.Action) {
    a.Tell? || a.TellOverReset? || a.Open? || a.StartTask?
  }

  lemma OthersAddNoLine(s: State, a: BridgeProtocol.Action)
    requires !Tells(a)
    ensures AddsNoLine(s.core.log, Step(s, a).core.log)
  {
    var c := s.core;
    match a
    case UserMessage => AddOne(c.log, Error);
    case Sweep => SweepAddsNoLine(c);
    case Abort => AddOne(c.log, RunRetired);
    case AbortEnd => CloseAddsNoLine(c, Aborted, None);
    case Interject(items, preamble, _) =>
      AddOne(c.log, Accepted(DoAdd(c.world, items, preamble).1));
      AddOne(c.log, InterjectRefused(Ids(items)));
    case BeginHook(injected, _, exit) => AddOne(c.log, ReadAt(DoStepEnded(c.world, injected, !exit).1));
    case SendHook => if s.agent.Hooking? { EventsAddNoLine(c, s.agent.turn, s.agent.read); }
    case ExitHook => CloseAddsNoLine(c, Exited, None);
    case GaClears =>
    case Done(drain, slash) =>
      AddOne(c.log, Error);
      CloseAddsNoLine(c, SlashCommand, Some(drain));
      CloseAddsNoLine(Log(c, Error), WithoutExit, Some(drain));
      AddMore(c.log, c.log + [Error], Close(Log(c, Error), WithoutExit, Some(drain)).log);
  }

  lemma EventsAddNoLine(c: Core, turn: nat, read: seq<Id>)
    ensures AddsNoLine(c.log, StepEvents(c, turn, read).log)
  {
    AddOne(c.log, TurnEnd(turn));
    var log := c.log + [TurnEnd(turn)];
    AddOne(log, InterjectDelivered(read, turn));
    AddMore(c.log, log, log + [InterjectDelivered(read, turn)]);
  }

  // ---- the numbering ----

  predicate NumberedAt(log: seq<Event>, k: nat)
    requires k < |log|
  {
    log[k].TellUser? ==> log[k].index == ToldIn(log[..k], log[k].turn) + 1
  }

  /** Every line's index counts the lines of its step in its run: 1, 2, 3, and so on. */
  ghost predicate Numbered(log: seq<Event>) {
    forall k | 0 <= k < |log| :: NumberedAt(log, k)
  }

  /** The run comes back to a step it was told of before another one. */
  predicate ReturnsAt(log: seq<Event>, k: nat)
    requires k < |log|
  {
    log[k].TellUser? && LastInRun(log[..k]) != Some(log[k].turn) && ToldIn(log[..k], log[k].turn) > 0
  }

  /** The first line of a run is of the step last told since the reset before: an earlier run's. */
  predicate CarriesOnAt(log: seq<Event>, k: nat)
    requires k < |log|
  {
    log[k].TellUser? && LastInRun(log[..k]).None? && LastSinceReset(log[..k]) == Some(log[k].turn)
  }

  /** The first line after a reset is of the step its run was last told of before. */
  predicate StartsOverAt(log: seq<Event>, k: nat)
    requires k < |log|
  {
    log[k].TellUser? && LastSinceReset(log[..k]).None? && LastInRun(log[..k]) == Some(log[k].turn)
  }

  ghost predicate NoReturn(log: seq<Event>) {
    forall k | 0 <= k < |log| :: !ReturnsAt(log, k)
  }

  ghost predicate NoneCarriesOn(log: seq<Event>) {
    forall k | 0 <= k < |log| :: !CarriesOnAt(log, k)
  }

  ghost predicate NoneStartsOver(log: seq<Event>) {
    forall k | 0 <= k < |log| :: !StartsOverAt(log, k)
  }

  predicate RightAt(log: seq<Event>, k: nat)
    requires k < |log|
  {
    !ReturnsAt(log, k) && !CarriesOnAt(log, k) && !StartsOverAt(log, k)
  }

  ghost predicate AllRight(log: seq<Event>) {
    forall k | 0 <= k < |log| :: RightAt(log, k)
  }

  lemma SamePlace(log: seq<Event>, after: seq<Event>, k: nat)
    requires k < |log| <= |after| && after[..|log|] == log
    ensures NumberedAt(after, k) == NumberedAt(log, k) && RightAt(after, k) == RightAt(log, k)
  {
    assert after[..|log|][k] == log[k];
    assert log[..k] == after[..k];
  }

  lemma Prefix(log: seq<Event>, after: seq<Event>)
    requires |log| <= |after| && after[..|log|] == log
    ensures Numbered(after) <==> Numbered(log) && forall k | |log| <= k < |after| :: NumberedAt(after, k)
    ensures AllRight(after) <==> AllRight(log) && forall k | |log| <= k < |after| :: RightAt(after, k)
  {
    forall k | 0 <= k < |log|
      ensures NumberedAt(after, k) == NumberedAt(log, k) && RightAt(after, k) == RightAt(log, k)
    {
      SamePlace(log, after, k);
    }
  }

  lemma LogAfter(log: seq<Event>, e: Event)
    ensures var after := log + [e];
            && (Numbered(after) <==> Numbered(log) && NumberedAt(after, |log|))
            && (AllRight(after) <==> AllRight(log) && RightAt(after, |log|))
            && after[..|log|] == log
  {
    Prefix(log, log + [e]);
  }

  /** The last line of all, if it is the current run's, is the last since the reset, unless there was
      none since; a run not told of a step has no line of it. */
  lemma {:induction false} LastLine(log: seq<Event>, turn: nat)
    ensures LastInRun(log).None? ==> ToldIn(log, turn) == 0
    ensures LastInRun(log) == Some(turn) ==> ToldIn(log, turn) == LastCount(log) > 0
    ensures LastSinceReset(log).Some? ==> LastCount(log) > 0
    ensures LastInRun(log).Some? && LastSinceReset(log).Some? ==> LastInRun(log) == LastSinceReset(log)
  {
    if log != [] {
      LastLine(log[..|log| - 1], turn);
    }
  }

  // ---- the bridge keeps it ----

  /** `_told_in_step` against the log: the step of the last line since the reset and, as long as the
      numbers are right, its count in its run; and the numbers so far are right exactly if no line
      gave cause to a wrong one. */
  ghost predicate ToldOk(c: Core) {
    && (Numbered(c.log) <==> AllRight(c.log))
    && match LastSinceReset(c.log)
       case None => c.told == (0, 0)
       case Some(t) => c.told.0 == t && (Numbered(c.log) ==> c.told.1 == LastCount(c.log))
  }

  /** One line: its number is right exactly if nothing gives cause to a wrong one. */
  lemma LineIs(c: Core, turn: nat)
    requires ToldOk(c) && c.open && Numbered(c.log)
    ensures var log, after := c.log, TellLine(c, turn).log;
            |after| == |log| + 1 && (NumberedAt(after, |log|) <==> RightAt(after, |log|))
  {
    var after := TellLine(c, turn).log;
    LastLine(c.log, turn);
    assert after[..|c.log|] == c.log;
  }

  lemma LineKeepsTold(c: Core, turn: nat)
    requires ToldOk(c)
    ensures ToldOk(TellLine(c, turn))
  {
    if c.open {
      var index := if c.told.0 == turn then c.told.1 + 1 else 1;
      LogAfter(c.log, TellUser(turn, index));
      if Numbered(c.log) { LineIs(c, turn); }
    }
  }

  lemma OpenKeepsTold(c: Core)
    requires ToldOk(c)
    ensures ToldOk(OpenRun(c))
  {
    LogAfter(c.log, RunOpened(c.gen + 1));
  }

  lemma ResetKeepsTold(c: Core)
    requires ToldOk(c)
    ensures ToldOk(StartTelling(c))
  {
    LogAfter(c.log, ToldReset);
  }

  lemma OthersKeepTold(s: State, a: BridgeProtocol.Action)
    requires ToldOk(s.core) && !Tells(a)
    ensures ToldOk(Step(s, a).core)
  {
    OthersAddNoLine(s, a);
    SameLines(s.core.log, Step(s, a).core.log);
    Prefix(s.core.log, Step(s, a).core.log);
    OthersKeepVariable(s, a);
  }

  lemma OthersKeepVariable(s: State, a: BridgeProtocol.Action)
    requires !Tells(a)
    ensures Step(s, a).core.told == s.core.told
  {
  }

  lemma StepKeepsTold(s: State, a: BridgeProtocol.Action)
    requires ToldOk(s.core)
    ensures ToldOk(Step(s, a).core)
  {
    match a
    case Tell(turn) => LineKeepsTold(s.core, turn);
    case TellOverReset(turn) => LineKeepsTold(s.core, turn);
    case Open => OpenKeepsTold(s.core);
    case StartTask => ResetKeepsTold(s.core);
    case _ => OthersKeepTold(s, a);
  }

  /** Every reachable state says in `_told_in_step` what the log says. */
  lemma {:induction false} ToldOfRun(s: State, actions: seq<BridgeProtocol.Action>)
    requires ToldOk(s.core)
    ensures ToldOk(BridgeProtocol.Run(s, actions).core)
    decreases |actions|
  {
    if actions != [] {
      StepKeepsTold(s, actions[0]);
      ToldOfRun(Step(s, actions[0]), actions[1..]);
    }
  }

  lemma RightIs(log: seq<Event>)
    ensures AllRight(log) <==> NoReturn(log) && NoneCarriesOn(log) && NoneStartsOver(log)
  {
    if AllRight(log) {
      forall k | 0 <= k < |log| ensures !ReturnsAt(log, k) && !CarriesOnAt(log, k) && !StartsOverAt(log, k) {
        assert RightAt(log, k);
      }
    }
  }

  /** Over every interleaving, whichever thread and task the lines come from: the lines of each step
      of each run are numbered 1, 2, 3, without gap or repeat, exactly if no run comes back to a
      step, no run's first line is of the step told last since the reset before, and no first line
      after a reset is of the step its run was told of last. */
  lemma NumberedExactly(actions: seq<BridgeProtocol.Action>)
    ensures var log := BridgeProtocol.Run(INITIAL, actions).core.log;
            Numbered(log) <==> NoReturn(log) && NoneCarriesOn(log) && NoneStartsOver(log)
  {
    ToldOfRun(INITIAL, actions);
    RightIs(BridgeProtocol.Run(INITIAL, actions).core.log);
  }

  // ---- runs told of by their own task, whose steps go up ----

  /** In each run the steps told of never go down. */
  ghost predicate StepsGoUp(log: seq<Event>) {
    forall k | 0 <= k < |log| && log[k].TellUser? && LastInRun(log[..k]).Some? ::
      log[k].turn >= LastInRun(log[..k]).value
  }

  lemma StepsGoUpBefore(log: seq<Event>, n: nat)
    requires StepsGoUp(log) && n <= |log|
    ensures StepsGoUp(log[..n])
  {
    forall k | 0 <= k < n && log[..n][k].TellUser? && LastInRun(log[..n][..k]).Some?
      ensures log[..n][k].turn >= LastInRun(log[..n][..k]).value
    {
      assert log[..n][..k] == log[..k];
    }
  }

  lemma {:induction false} NoneBeyond(log: seq<Event>, turn: nat)
    requires StepsGoUp(log) && (LastInRun(log).Some? ==> turn > LastInRun(log).value)
    ensures ToldIn(log, turn) == 0
  {
    if log != [] && !log[|log| - 1].RunOpened? {
      var n := |log| - 1;
      StepsGoUpBefore(log, n);
      NoneBeyond(log[..n], turn);
    }
  }

  /** A run whose steps never go down comes back to none. */
  lemma GoingUpIsNoReturn(log: seq<Event>)
    requires StepsGoUp(log)
    ensures NoReturn(log)
  {
    forall k | 0 <= k < |log| ensures !ReturnsAt(log, k) {
      StepsGoUpBefore(log, k);
      if log[k].TellUser? && LastInRun(log[..k]) != Some(log[k].turn) {
        NoneBeyond(log[..k], log[k].turn);
      }
    }
  }

  /** A run has opened, and the reset for its task is still to come. */
  predicate Early(log: seq<Event>) {
    log != [] && !log[|log| - 1].ToldReset? && (log[|log| - 1].RunOpened? || Early(log[..|log| - 1]))
  }

  /** No run is told anything before its task is put. */
  ghost predicate NoneEarly(log: seq<Event>) {
    forall k | 0 <= k < |log| && log[k].TellUser? :: !Early(log[..k])
  }

  /** The numbers are reset only between a run's opening and its task. */
  ghost predicate ResetsEarly(log: seq<Event>) {
    forall k | 0 <= k < |log| && log[k].ToldReset? :: Early(log[..k])
  }

  lemma EarlyBefore(log: seq<Event>, n: nat)
    requires NoneEarly(log) && ResetsEarly(log) && n <= |log|
    ensures NoneEarly(log[..n]) && ResetsEarly(log[..n])
  {
    forall k | 0 <= k < n ensures log[..n][..k] == log[..k] && log[..n][k] == log[k] {
    }
  }

  /** Then a run's lines are those since the reset. */
  lemma {:induction false} SinceReset(log: seq<Event>)
    requires NoneEarly(log) && ResetsEarly(log)
    ensures if Early(log) then LastInRun(log).None? else LastInRun(log) == LastSinceReset(log)
  {
    if log != [] {
      var n := |log| - 1;
      EarlyBefore(log, n);
      SinceReset(log[..n]);
      assert log[n].TellUser? ==> !Early(log[..n]);
      assert log[n].ToldReset? ==> Early(log[..n]);
    }
  }

  lemma OwnLinesAreRight(log: seq<Event>)
    requires NoneEarly(log) && ResetsEarly(log)
    ensures NoneCarriesOn(log) && NoneStartsOver(log)
  {
    forall k | 0 <= k < |log| ensures !CarriesOnAt(log, k) && !StartsOverAt(log, k) {
      EarlyBefore(log, k);
      SinceReset(log[..k]);
      assert log[k].TellUser? ==> !Early(log[..k]);
    }
  }

  ghost predicate ResetsOk(s: State) {
    ResetsEarly(s.core.log) && (s.command.Opening? ==> Early(s.core.log))
  }

  /** Whatever is logged but a reset leaves a run early. */
  lemma {:induction false} StaysEarly(log: seq<Event>, after: seq<Event>)
    requires |log| <= |after| && after[..|log|] == log && ResetsEarly(log)
    requires forall k | |log| <= k < |after| :: !after[k].ToldReset?
    ensures ResetsEarly(after) && (Early(log) ==> Early(after))
    decreases |after|
  {
    if |after| > |log| {
      var n := |after| - 1;
      assert after[..n][..|log|] == log;
      StaysEarly(log, after[..n]);
      forall k | 0 <= k < |after| && after[k].ToldReset? ensures Early(after[..k]) {
        assert after[..n][..k] == after[..k] && after[..n][k] == after[k];
      }
    } else {
      assert after == log;
    }
  }

  lemma ResetIsEarly(log: seq<Event>)
    requires ResetsEarly(log) && Early(log)
    ensures ResetsEarly(log + [ToldReset])
  {
    var after := log + [ToldReset];
    forall k | 0 <= k < |after| && after[k].ToldReset? ensures Early(after[..k]) {
      assert after[..k] == log[..k];
      assert k == |log| ==> log[..k] == log;
    }
  }

  lemma StepKeepsResets(s: State, a: BridgeProtocol.Action)
    requires ResetsOk(s)
    ensures ResetsOk(Step(s, a))
  {
    if Tells(a) {
      TellsKeepResets(s, a);
    } else {
      OthersAddNoLine(s, a);
      StaysEarly(s.core.log, Step(s, a).core.log);
      assert Step(s, a).command.Opening? ==> s.command.Opening?;
    }
  }

  lemma TellsKeepResets(s: State, a: BridgeProtocol.Action)
    requires ResetsOk(s) && Tells(a)
    ensures ResetsOk(Step(s, a))
  {
    if a.StartTask? {
      if s.command.Opening? { ResetIsEarly(s.core.log); }
    } else {
      StaysEarly(s.core.log, Step(s, a).core.log);
    }
  }

  lemma {:induction false} ResetsOfRun(s: State, actions: seq<BridgeProtocol.Action>)
    requires ResetsOk(s)
    ensures ResetsOk(BridgeProtocol.Run(s, actions))
    decreases |actions|
  {
    if actions != [] {
      StepKeepsResets(s, actions[0]);
      ResetsOfRun(Step(s, actions[0]), actions[1..]);
    }
  }

  /** Over every interleaving in which the steps a run is told of go up: the lines are numbered 1, 2,
      3 in each step exactly if no first line carries on or starts over; and so they are if no run is
      told anything before its task is put. */
  lemma StepsAreNumbered(actions: seq<BridgeProtocol.Action>)
    requires StepsGoUp(BridgeProtocol.Run(INITIAL, actions).core.log)
    ensures var log := BridgeProtocol.Run(INITIAL, actions).core.log;
            && (Numbered(log) <==> NoneCarriesOn(log) && NoneStartsOver(log))
            && (NoneEarly(log) ==> Numbered(log))
  {
    var log := BridgeProtocol.Run(INITIAL, actions).core.log;
    NumberedExactly(actions);
    GoingUpIsNoReturn(log);
    ResetsOfRun(INITIAL, actions);
    if NoneEarly(log) { OwnLinesAreRight(log); }
  }

  // ---- lines of an aborted task ----

  const OPENING := [UserMessage, Sweep, Open]
  const ABORTING := [Abort, AbortEnd]

  const NO_MESSAGES := World(NEW_ACCOUNT, None)

  lemma {:induction false} RunConcat(s: State, a: seq<BridgeProtocol.Action>, b: seq<BridgeProtocol.Action>)
    ensures BridgeProtocol.Run(s, a + b) == BridgeProtocol.Run(BridgeProtocol.Run(s, a), b)
    decreases |a|
  {
    if a == [] {
      assert a + b == b;
    } else {
      assert (a + b)[0] == a[0] && (a + b)[1..] == a[1..] + b;
      RunConcat(Step(s, a[0]), a[1..], b);
    }
  }

  lemma RunOfTwo(s: State, a: BridgeProtocol.Action, b: BridgeProtocol.Action)
    ensures BridgeProtocol.Run(s, [a, b]) == Step(Step(s, a), b)
  {
    assert [a, b][1..] == [b] && [b][1..] == [];
    assert BridgeProtocol.Run(Step(s, a), [b]) == BridgeProtocol.Run(Step(Step(s, a), b), []);
  }

  lemma RunOfThree(s: State, a: BridgeProtocol.Action, b: BridgeProtocol.Action, c: BridgeProtocol.Action)
    ensures BridgeProtocol.Run(s, [a, b, c]) == Step(Step(Step(s, a), b), c)
  {
    assert [a, b, c][1..] == [b, c];
    RunOfTwo(Step(s, a), b, c);
  }

  lemma Opens(s: State)
    requires s.command.Ready? && !s.core.open && s.core.world == NO_MESSAGES
    ensures BridgeProtocol.Run(s, OPENING) ==
            s.(core := OpenRun(s.core), command := Opening(s.core.gen + 1))
  {
    RunOfThree(s, UserMessage, Sweep, Open);
  }

  lemma Aborts(s: State)
    requires s.command.Ready? && s.core.open && s.core.world == NO_MESSAGES
    ensures BridgeProtocol.Run(s, ABORTING) ==
            s.(core := s.core.(gen := s.core.gen + 1, open := false,
                               log := s.core.log + [RunRetired] + [RunComplete(Aborted, None)]))
  {
    RunOfTwo(s, Abort, AbortEnd);
  }

  /** A first run, whose task, if `told`, tells of its first step. */
  function FirstRun(told: bool): seq<BridgeProtocol.Action> {
    OPENING + [StartTask] + (if told then [Tell(1)] else [])
  }

  function FirstLog(told: bool): seq<Event> {
    [RunOpened(1)] + [ToldReset] + (if told then [TellUser(1, 1)] else [])
  }

  lemma FirstRunIs(told: bool)
    ensures BridgeProtocol.Run(INITIAL, FirstRun(told)) ==
            State(Core(1, true, if told then (1, 1) else (0, 0), NO_MESSAGES, FirstLog(told)), Ready, NoHook, {1})
  {
    var rest := if told then [Tell(1)] else [];
    RunConcat(INITIAL, OPENING, [StartTask]);
    RunConcat(INITIAL, OPENING + [StartTask], rest);
    Opens(INITIAL);
    var s := Step(BridgeProtocol.Run(INITIAL, OPENING), StartTask);
    assert [] + [RunOpened(1)] == [RunOpened(1)];
    assert [StartTask][1..] == [] && [Tell(1)][1..] == [];
    assert BridgeProtocol.Run(s, rest) == if told then Step(s, Tell(1)) else s;
  }

  /** The first run is aborted and the next one opens; lines may still come from the first. */
  function SecondOpens(told: bool): seq<BridgeProtocol.Action> {
    FirstRun(told) + ABORTING + OPENING
  }

  function SecondLog(told: bool): seq<Event> {
    FirstLog(told) + [RunRetired] + [RunComplete(Aborted, None)] + [RunOpened(3)]
  }

  lemma SecondOpensIs(told: bool)
    ensures BridgeProtocol.Run(INITIAL, SecondOpens(told)) ==
            State(Core(3, true, if told then (1, 1) else (0, 0), NO_MESSAGES, SecondLog(told)), Opening(3), NoHook, {1})
  {
    FirstRunIs(told);
    RunConcat(INITIAL, FirstRun(told), ABORTING);
    RunConcat(INITIAL, FirstRun(told) + ABORTING, OPENING);
    var s := BridgeProtocol.Run(INITIAL, FirstRun(told));
    Aborts(s);
    Opens(BridgeProtocol.Run(s, ABORTING));
  }

  lemma OneMore(log: seq<Event>, e: Event)
    ensures LastInRun(log + [e]) ==
            (if e.TellUser? then Some(e.turn) else if e.RunOpened? then None else LastInRun(log))
    ensures LastSinceReset(log + [e]) ==
            (if e.TellUser? then Some(e.turn) else if e.ToldReset? then None else LastSinceReset(log))
    ensures forall t ::
              (ToldIn(log + [e], t) ==
               if e.RunOpened? then 0 else ToldIn(log, t) + (if e.TellUser? && e.turn == t then 1 else 0))
  {
    assert (log + [e])[..|log|] == log;
  }

  /** A log told of one step only. */
  lemma {:induction false} OfOneStep(log: seq<Event>, turn: nat)
    requires forall k | 0 <= k < |log| && log[k].TellUser? :: log[k].turn == turn
    ensures LastInRun(log).Some? ==> LastInRun(log).value == turn
  {
    if log != [] {
      OfOneStep(log[..|log| - 1], turn);
    }
  }

  lemma OneStepGoesUp(log: seq<Event>, turn: nat)
    requires forall k | 0 <= k < |log| && log[k].TellUser? :: log[k].turn == turn
    ensures StepsGoUp(log)
  {
    forall k | 0 <= k < |log| && log[k].TellUser? && LastInRun(log[..k]).Some?
      ensures log[k].turn >= LastInRun(log[..k]).value
    {
      OfOneStep(log[..k], turn);
    }
  }

  lemma SecondLogIs(told: bool)
    ensures var log := SecondLog(told);
            && LastInRun(log).None? && ToldIn(log, 1) == 0
            && LastSinceReset(log) == (if told then Some(1) else None)
            && forall k | 0 <= k < |log| && log[k].TellUser? :: log[k].turn == 1
  {
    var first := FirstLog(told);
    OneMore([RunOpened(1)], ToldReset);
    if told {
      OneMore([RunOpened(1)] + [ToldReset], TellUser(1, 1));
    } else {
      assert first == [RunOpened(1)] + [ToldReset];
    }
    OneMore(first, RunRetired);
    OneMore(first + [RunRetired], RunComplete(Aborted, None));
    OneMore(first + [RunRetired] + [RunComplete(Aborted, None)], RunOpened(3));
  }

  /** A late line of the aborted task carries on its count: the second run's first line is number 2. */
  lemma CountCarriesOn()
    ensures var log := BridgeProtocol.Run(INITIAL, SecondOpens(true) + [Tell(1)]).core.log;
            var k := |SecondLog(true)|;
            && log == SecondLog(true) + [TellUser(1, 2)]
            && CarriesOnAt(log, k) && !NumberedAt(log, k) && StepsGoUp(log)
  {
    SecondOpensIs(true);
    RunConcat(INITIAL, SecondOpens(true), [Tell(1)]);
    SecondLogIs(true);
    var s := BridgeProtocol.Run(INITIAL, SecondOpens(true));
    assert BridgeProtocol.Run(s, [Tell(1)]) == Step(s, Tell(1)) by {
      assert [Tell(1)][1..] == [];
    }
    var log := SecondLog(true) + [TellUser(1, 2)];
    assert log[..|SecondLog(true)|] == SecondLog(true);
    OneStepGoesUp(log, 1);
  }

  /** A late line of the aborted task is counted, and forgotten when the next task is put: two lines
      of one step of the second run are number 1. */
  lemma CountStartsOver()
    ensures var log := BridgeProtocol.Run(INITIAL, SecondOpens(false) + [Tell(1), StartTask, Tell(1)]).core.log;
            var k := |SecondLog(false)| + 2;
            && log == SecondLog(false) + [TellUser(1, 1)] + [ToldReset] + [TellUser(1, 1)]
            && StartsOverAt(log, k) && !NumberedAt(log, k) && StepsGoUp(log)
  {
    SecondOpensIs(false);
    RunConcat(INITIAL, SecondOpens(false), [Tell(1), StartTask, Tell(1)]);
    RunOfThree(BridgeProtocol.Run(INITIAL, SecondOpens(false)), Tell(1), StartTask, Tell(1));
    SecondLogIs(false);
    var before := SecondLog(false) + [TellUser(1, 1)] + [ToldReset];
    OneMore(SecondLog(false), TellUser(1, 1));
    OneMore(SecondLog(false) + [TellUser(1, 1)], ToldReset);
    var log := before + [TellUser(1, 1)];
    assert log[..|before|] == before;
    OneStepGoesUp(log, 1);
  }
}
