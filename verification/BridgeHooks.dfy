/** The turn-end hook of a run's last step. It completes whatever run is open when it reports its
    exit: it does not look at the generation, as the drains do. What that does to a run aborted in
    the meantime, to the next run, and to the user's stop. */
module BridgeHooks {
  import opened Wrappers
  import opened Interject
  import opened InterjectProtocol
  import opened BridgeRuns
  import opened BridgeProtocol
  import opened BridgeTold

  // ---- generations ----

  lemma {:induction false} GenKept(log: seq<Event>, after: seq<Event>)
    requires AddsNoLine(log, after)
    ensures WatchAll(after).gen == WatchAll(log).gen
    decreases |after|
  {
    if |after| > |log| {
      var before := after[..|after| - 1];
      assert before[..|log|] == log;
      GenKept(log, before);
    } else {
      assert after == log;
    }
  }

  lemma LineGen(c: Core, turn: nat)
    ensures TellLine(c, turn).gen == c.gen && WatchAll(TellLine(c, turn).log).gen == WatchAll(c.log).gen
  {
    var index := if c.told.0 == turn then c.told.1 + 1 else 1;
    WatchLog(c.(told := (turn, index)), TellUser(turn, index));
  }

  /** The generation never falls; only a run that opens is another run, and that raises it. */
  lemma StepGen(s: State, a: BridgeProtocol.Action)
    ensures var t := Step(s, a);
            && s.core.gen <= t.core.gen
            && (!(a.Open? && s.command.Swept?) ==> WatchAll(t.core.log).gen == WatchAll(s.core.log).gen)
            && (a.Open? && s.command.Swept? ==> s.core.gen < t.core.gen)
  {
    if a.Tell? || a.TellOverReset? {
      LineGen(s.core, a.turn);
    } else if a.StartTask? {
      WatchLog(s.core.(told := (0, 0)), ToldReset);
    } else if !a.Open? {
      OthersAddNoLine(s, a);
      GenKept(s.core.log, Step(s, a).core.log);
    }
  }

  lemma {:induction false} SameGenSameRun(s: State, actions: seq<BridgeProtocol.Action>)
    ensures var t := BridgeProtocol.Run(s, actions);
            s.core.gen <= t.core.gen
            && (t.core.gen == s.core.gen ==> WatchAll(t.core.log).gen == WatchAll(s.core.log).gen)
    decreases |actions|
  {
    if actions != [] {
      StepGen(s, actions[0]);
      SameGenSameRun(Step(s, actions[0]), actions[1..]);
    }
  }

  lemma OpenRunIs(s: State)
    requires BridgeProtocol.Inv(s) && s.core.open
    ensures var m := WatchAll(s.core.log); m.gen <= s.core.gen && (m.retired <==> m.gen < s.core.gen)
  {
  }

  lemma ExitCompletes(s: State)
    requires s.agent.Exiting? && s.core.open
    ensures var t := Step(s, ExitHook); Completed(t.core.log) == Completed(s.core.log) + 1 && !t.core.open
  {
    CountClose(s.core, Exited, None);
  }

  /** Over every interleaving, whatever the command thread is at: the exit of a hook that began in the
      run open in `s` completes that same run, and not one an abort has retired, exactly if the
      generation is still the same: the check that the drains make, and the hook does not. */
  lemma ExitIsOwnExactly(s: State, actions: seq<BridgeProtocol.Action>)
    requires BridgeProtocol.Inv(s) && DistinctItems(actions) && s.core.open && !WatchAll(s.core.log).retired
    requires var t := BridgeProtocol.Run(s, actions); t.core.open && t.agent.Exiting?
    ensures var t := BridgeProtocol.Run(s, actions);
            var m := WatchAll(t.core.log);
            && Completed(Step(t, ExitHook).core.log) == Completed(t.core.log) + 1
            && (m.gen == WatchAll(s.core.log).gen && !m.retired <==> t.core.gen == s.core.gen)
  {
    var t := BridgeProtocol.Run(s, actions);
    RunKeeps(s, actions);
    OpenRunIs(s);
    OpenRunIs(t);
    SameGenSameRun(s, actions);
    ExitCompletes(t);
  }

  // ---- a user's stop ----

  /** A hook reports its exit during these actions. */
  predicate ExitsIn(s: State, actions: seq<BridgeProtocol.Action>)
    decreases |actions|
  {
    actions != [] &&
    ((actions[0].ExitHook? && s.agent.Exiting?) || ExitsIn(Step(s, actions[0]), actions[1..]))
  }

  ghost predicate AbortGoesOn(actions: seq<BridgeProtocol.Action>) {
    forall k | 0 <= k < |actions| :: !actions[k].AbortEnd?
  }

  /** While an abort is between its two sections, only a hook's exit closes the run. */
  lemma RetiredStep(s: State, a: BridgeProtocol.Action)
    requires BridgeProtocol.Inv(s) && s.command.Aborting? && s.core.open && WatchAll(s.core.log).gen < s.core.gen
    requires !a.AbortEnd?
    ensures var t := Step(s, a);
            && t.command.Aborting? && (t.core.open <==> !(a.ExitHook? && s.agent.Exiting?))
            && WatchAll(t.core.log).gen < t.core.gen
  {
    StepGen(s, a);
  }

  lemma {:induction false} ClosedGoesOn(s: State, actions: seq<BridgeProtocol.Action>)
    requires s.command.Aborting? && !s.core.open && AbortGoesOn(actions)
    ensures var t := BridgeProtocol.Run(s, actions); t.command.Aborting? && !t.core.open
    decreases |actions|
  {
    if actions != [] {
      ClosedGoesOn(Step(s, actions[0]), actions[1..]);
    }
  }

  lemma DistinctRest(actions: seq<BridgeProtocol.Action>)
    requires actions != [] && DistinctItems(actions) && AbortGoesOn(actions)
    ensures DistinctItems(actions[1..]) && AbortGoesOn(actions[1..])
    ensures !actions[0].AbortEnd? && (actions[0].Interject? ==> NoDup(Ids(actions[0].items)))
  {
    assert forall k | 0 <= k < |actions[1..]| :: actions[1..][k] == actions[k + 1];
  }

  lemma {:induction false} RetiredGoesOn(s: State, actions: seq<BridgeProtocol.Action>)
    requires BridgeProtocol.Inv(s) && s.command.Aborting? && s.core.open && WatchAll(s.core.log).gen < s.core.gen
    requires DistinctItems(actions) && AbortGoesOn(actions)
    ensures var t := BridgeProtocol.Run(s, actions); t.command.Aborting? && (t.core.open <==> !ExitsIn(s, actions))
    decreases |actions|
  {
    if actions != [] {
      var a := actions[0];
      DistinctRest(actions);
      RetiredStep(s, a);
      StepKeeps(s, a);
      if a.ExitHook? && s.agent.Exiting? {
        ClosedGoesOn(Step(s, a), actions[1..]);
      } else {
        RetiredGoesOn(Step(s, a), actions[1..]);
      }
    }
  }

  lemma AbortRetires(s: State)
    requires BridgeProtocol.Inv(s) && s.command.Ready? && s.core.open
    ensures var t := Step(s, Abort);
            t.command.Aborting? && t.core.open && WatchAll(t.core.log).gen < t.core.gen
  {
    RetiredGen(s.core);
    OpenRunIs(s);
  }

  lemma RetiredGen(c: Core)
    ensures Retire(c).gen == c.gen + 1 && WatchAll(Retire(c).log).gen == WatchAll(c.log).gen
  {
    WatchLog(c.(gen := c.gen + 1), RunRetired);
  }

  /** A user's stop of an open run reaches Core as ABORTED exactly if no hook reports an exit between
      the abort's two sections: whatever else the threads do there, the run is still open at the
      second section, which completes it as aborted; after such an exit it does nothing. */
  lemma StopReachesCoreExactly(s: State, between: seq<BridgeProtocol.Action>)
    requires BridgeProtocol.Inv(s) && s.command.Ready? && s.core.open
    requires DistinctItems(between) && AbortGoesOn(between)
    ensures var t := BridgeProtocol.Run(Step(s, Abort), between);
            var after := Step(t, AbortEnd);
            && (after.core.log != t.core.log <==> !ExitsIn(Step(s, Abort), between))
            && (after.core.log != t.core.log ==> after.core.log[|after.core.log| - 1] == RunComplete(Aborted, None))
  {
    StepKeeps(s, Abort);
    AbortRetires(s);
    RetiredGoesOn(Step(s, Abort), between);
    var t := BridgeProtocol.Run(Step(s, Abort), between);
    assert t.core.open ==> |Close(t.core, Aborted, None).log| > |t.core.log|;
  }

  /** The stop pre-empted: the hook's exit between the two sections completes the run the user stopped
      as exited, and nothing is aborted. */
  lemma StopPreempted(s: State)
    requires s.command.Ready? && s.core.open && s.agent.Exiting?
    ensures var t := Step(Step(Step(s, Abort), ExitHook), AbortEnd);
            && t.core.log == Close(Retire(s.core), Exited, None).log
            && t.core.log[|t.core.log| - 1] == RunComplete(Exited, None) && !t.core.open
  {
  }

  // ---- what the account forgets ----

  /** The hook of a loop's last call is under way: it has ended the step, and is to report the exit. */
  predicate ExitUnderWay(agent: Agent) {
    agent.Exiting? || (agent.Hooking? && agent.exit)
  }

  /** What the account has in `intervene` is of unread messages, and it remembers the text, unless a
      loop's last hook is under way. */
  ghost predicate CellOk(s: State) {
    s.core.world.cell.Some? ==>
      && s.core.world.account.unread != []
      && (s.core.world.account.written == [] ==> ExitUnderWay(s.agent))
  }

  lemma ClosedHoldsNothing(c: Core)
    requires BooksOk(c) && WatchAll(c.log).accepted == []
    ensures c.world.account.unread == []
  {
    Balance(c.world, WatchAll(c.log).accepted, WatchAll(c.log).read);
  }

  lemma ClosingEmpties(c: Core, reason: Reason, drain: Option<nat>)
    requires c.world.cell.Some? ==> c.world.account.dirty
    ensures c.open ==> Close(c, reason, drain).world.cell.None?
    ensures ReturnUnread(c).world.cell.None?
    ensures !c.open ==> Close(c, reason, drain) == c
  {
  }

  lemma AddRemembers(w: World, items: seq<Item>, preamble: string)
    ensures var v := DoAdd(w, items, preamble).0;
            v == w || (v.account.unread != [] && v.account.written != [])
  {
  }

  lemma StepEndRemembers(w: World, injected: Option<string>, goesOn: bool)
    requires w.cell.Some? ==> w.account.dirty
    requires w.cell.Some? ==> w.account.unread != []
    ensures var v := DoStepEnded(w, injected, goesOn).0;
            v.cell.Some? ==> v.account.unread != [] && (v.account.written == [] ==> !goesOn)
  {
  }

  lemma HookKeepsCell(s: State, a: BridgeProtocol.Action)
    requires BridgeProtocol.Inv(s) && CellOk(s) && ByHook(a)
    ensures CellOk(Step(s, a))
  {
    match a
    case BeginHook(injected, turn, exit) =>
      if s.agent.NoHook? {
        BeginIs(s, injected, turn, exit);
        StepEndRemembers(s.core.world, injected, !exit);
      }
    case SendHook =>
      if s.agent.Hooking? { SendIs(s); }
    case ExitHook =>
      if s.agent.Exiting? {
        ClosingEmpties(s.core, Exited, None);
        if !s.core.open { ClosedHoldsNothing(s.core); }
      }
  }

  lemma OthersKeepCell(s: State, a: BridgeProtocol.Action)
    requires BridgeProtocol.Inv(s) && CellOk(s) && !ByHook(a)
    ensures CellOk(Step(s, a))
  {
    match a
    case Interject(items, preamble, _) => AddRemembers(s.core.world, items, preamble);
    case Sweep => ClosingEmpties(s.core, Aborted, None);
    case AbortEnd => ClosingEmpties(s.core, Aborted, None);
    case Done(drain, slash) =>
      ClosingEmpties(s.core, SlashCommand, Some(drain));
      ClosingEmpties(Log(s.core, Error), WithoutExit, Some(drain));
    case _ =>
  }

  lemma {:induction false} CellOfRun(s: State, actions: seq<BridgeProtocol.Action>)
    requires BridgeProtocol.Inv(s) && CellOk(s) && DistinctItems(actions)
    ensures CellOk(BridgeProtocol.Run(s, actions))
    decreases |actions|
  {
    if actions != [] {
      var a := actions[0];
      BridgeProtocol.FirstDistinct(actions);
      if ByHook(a) { HookKeepsCell(s, a); } else { OthersKeepCell(s, a); }
      StepKeeps(s, a);
      CellOfRun(Step(s, a), actions[1..]);
    }
  }

  /** A step's end with an exit makes the account forget the text that is in `intervene`; but over
      every interleaving, as long as it has forgotten one, that same hook is still under way. GA, on
      the hook's thread, reads nothing before the hook has reported the exit; and that takes the text
      out of `intervene`, whichever run is open. */
  lemma ForgottenOnlyAtExit(actions: seq<BridgeProtocol.Action>)
    requires DistinctItems(actions)
    ensures var s := BridgeProtocol.Run(INITIAL, actions);
            && (s.core.world.cell.Some? && s.core.world.account.written == [] ==> ExitUnderWay(s.agent))
            && (s.agent.Exiting? ==> Step(s, ExitHook).core.world.cell.None?)
  {
    BridgeProtocol.StartsOk();
    RunKeeps(INITIAL, actions);
    CellOfRun(INITIAL, actions);
    var s := BridgeProtocol.Run(INITIAL, actions);
    ClosingEmpties(s.core, Exited, None);
    if !s.core.open { ClosedHoldsNothing(s.core); }
  }

  // ---- the next run ----

  lemma AbortsRun(s: State)
    requires BridgeProtocol.Inv(s) && s.command.Ready? && s.core.open
    ensures var t := Step(Step(s, Abort), AbortEnd);
            && BridgeProtocol.Inv(t) && t.command.Ready? && !t.core.open && t.agent == s.agent
            && Completed(t.core.log) == Completed(s.core.log) + 1
  {
    StepKeeps(s, Abort);
    StepKeeps(Step(s, Abort), AbortEnd);
    AbortCounts(s);
  }

  lemma AbortCounts(s: State)
    requires s.command.Ready? && s.core.open
    ensures var t := Step(Step(s, Abort), AbortEnd);
            && t.command.Ready? && !t.core.open && t.agent == s.agent
            && Completed(t.core.log) == Completed(s.core.log) + 1
  {
    AbortEnds(Step(s, Abort));
    CountLog(s.core.(gen := s.core.gen + 1), RunRetired);
  }

  lemma AbortEnds(s: State)
    requires s.command.Aborting? && s.core.open
    ensures var t := Step(s, AbortEnd);
            && t.command.Ready? && !t.core.open && t.agent == s.agent
            && Completed(t.core.log) == Completed(s.core.log) + 1
  {
    CountClose(s.core, Aborted, None);
  }

  lemma ExitOfEmpty(s: State)
    requires s.agent.Exiting? && s.core.open && s.core.world.account == NEW_ACCOUNT
    ensures Step(s, ExitHook).core.log == s.core.log + [RunComplete(Exited, None)] && !Step(s, ExitHook).core.open
  {
  }

  lemma OpenedIsEmpty(c: Core, unsent: seq<Id>)
    requires LogOk(c, unsent) && BooksOk(c) && !c.open
    ensures OpenRun(ReturnUnread(c)).world.account == NEW_ACCOUNT
  {
    SweepFindsNothing(c, unsent);
  }

  /** The next message opens the next run. */
  lemma NextRun(s: State)
    requires BridgeProtocol.Inv(s) && s.command.Ready? && !s.core.open
    ensures var t := Step(Step(Step(Step(s, UserMessage), Sweep), Open), StartTask);
            && t.command.Ready? && t.agent == s.agent && t.core.open
            && t.core.gen == s.core.gen + 1 && t.core.gen in t.drains && t.core.world.account == NEW_ACCOUNT
  {
    OpenedIsEmpty(s.core, Unsent(s.agent));
  }

  /** From every state with a hook about to report the exit of the open run: if that run is aborted
      and the next one opened first, the hook completes the next one. */
  lemma StaleHookClosesNextRun(s: State)
    requires BridgeProtocol.Inv(s) && s.command.Ready? && s.core.open && s.agent.Exiting?
    ensures var aborted := Step(Step(s, Abort), AbortEnd);
            var next := Step(Step(Step(Step(aborted, UserMessage), Sweep), Open), StartTask);
            && Completed(aborted.core.log) == Completed(s.core.log) + 1
            && next.core.open && next.core.gen in next.drains
            && Step(next, ExitHook).core.log == next.core.log + [RunComplete(Exited, None)]
            && !Step(next, ExitHook).core.open
  {
    AbortsRun(s);
    var aborted := Step(Step(s, Abort), AbortEnd);
    NextRun(aborted);
    ExitOfEmpty(Step(Step(Step(Step(aborted, UserMessage), Sweep), Open), StartTask));
  }

  lemma HookOfOnlyStep(s: State)
    requires s.command.Ready? && s.core.open && s.agent.NoHook? && s.core.world.account == NEW_ACCOUNT
    ensures var t := Step(Step(s, BeginHook(None, 1, true)), SendHook);
            t.command.Ready? && t.core.open && t.agent.Exiting?
  {
    BeginIs(s, None, 1, true);
    SendIs(Step(s, BeginHook(None, 1, true)));
  }

  /** Such a state is reached by one message and the hook of its only step. */
  lemma HookInFlight()
    ensures var actions := [UserMessage, Sweep, Open, StartTask, BeginHook(None, 1, true), SendHook];
            var t := BridgeProtocol.Run(INITIAL, actions);
            t.command.Ready? && t.core.open && t.agent.Exiting?
  {
    BridgeProtocol.StartsOk();
    NextRun(INITIAL);
    HookOfOnlyStep(Step(Step(Step(Step(INITIAL, UserMessage), Sweep), Open), StartTask));
    RunsSix(INITIAL, [UserMessage, Sweep, Open, StartTask, BeginHook(None, 1, true), SendHook]);
  }

  lemma RunsSix(s: State, a: seq<BridgeProtocol.Action>)
    requires |a| == 6
    ensures BridgeProtocol.Run(s, a) == Step(Step(Step(Step(Step(Step(s, a[0]), a[1]), a[2]), a[3]), a[4]), a[5])
  {
    RunsTwo(s, a);
    var b := a[2..];
    RunsTwo(Step(Step(s, a[0]), a[1]), b);
    var c := b[2..];
    RunsTwo(Step(Step(Step(Step(s, a[0]), a[1]), b[0]), b[1]), c);
    assert c[2..] == [];
  }

  lemma RunsTwo(s: State, a: seq<BridgeProtocol.Action>)
    requires |a| >= 2
    ensures BridgeProtocol.Run(s, a) == BridgeProtocol.Run(Step(Step(s, a[0]), a[1]), a[2..])
  {
    assert a[1..][1..] == a[2..] && a[1..][0] == a[1];
  }
}
