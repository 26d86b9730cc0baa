/** The bridge's run lifecycle: what runner/workbench_bridge.py does under `_run_complete_lock`,
    one function per locked section, and the object whose methods carry them out.

    The log holds the events sent to Core, in order, and between them marks for what changes
    without an event: a run opening, its generation being retired, the numbering of told lines
    being reset, messages being accepted, and a step's end reading them. */
module BridgeRuns {
  import opened Wrappers
  import opened Interject

  datatype Reason = Exited | Aborted | WithoutExit | SlashCommand

  datatype Event =
    | RunComplete(reason: Reason, drain: Option<nat>)
    | TellUser(turn: nat, index: nat)
    | TurnEnd(turn: nat)
    | InterjectDelivered(ids: seq<Id>, turn: nat)
    | InterjectReturned(ids: seq<Id>)
    | InterjectRefused(ids: seq<Id>)  // `interject_returned` straight back, no run's
    | Error
    | RunOpened(gen: nat)
    | RunRetired
    | ToldReset
    | Accepted(ids: seq<Id>)
    | ReadAt(ids: seq<Id>)

  /** What the threads share: `_run_generation`, `run_in_progress`, `_told_in_step`, the account
      of mid-run messages with GA's `intervene`, and what was sent. */
  datatype Core = Core(
    gen: nat,
    open: bool,
    told: (nat, nat),
    world: World,
    log: seq<Event>)

  function Log(c: Core, e: Event): Core {
    c.(log := c.log + [e])
  }

  /** `_return_unread_interjections`. */
  function ReturnUnread(c: Core): Core {
    var (w, ids) := DoTakeUnread(c.world);
    var after := c.(world := w);
    if ids != [] then Log(after, InterjectReturned(ids)) else after
  }

  /** The end every completing path shares: nothing if the run is closed already. */
  function Close(c: Core, reason: Reason, drain: Option<nat>): Core {
    if c.open then Log(ReturnUnread(c), RunComplete(reason, drain)).(open := false) else c
  }

  /** `_open_run`. */
  function OpenRun(c: Core): Core {
    Log(c.(gen := c.gen + 1, open := true), RunOpened(c.gen + 1))
  }

  /** The end of a task as its drain sees it: `_close_run_without_exit`, or the branch for a
      slash command's `done`. */
  function DrainDone(c: Core, gen: nat, slash: bool): Core {
    if c.gen != gen || !c.open then c
    else if slash then Close(c, SlashCommand, Some(gen))
    else Close(Log(c, Error), WithoutExit, Some(gen))
  }

  /** Abort's first locked section. */
  function Retire(c: Core): Core {
    Log(c.(gen := c.gen + 1), RunRetired)
  }

  /** `_told_in_step` starts over: a task is about to be put. */
  function StartTelling(c: Core): Core {
    Log(c.(told := (0, 0)), ToldReset)
  }

  /** `_send_told_line`. */
  function TellLine(c: Core, turn: nat): Core {
    if !c.open then c
    else
      var index := if c.told.0 == turn then c.told.1 + 1 else 1;
      Log(c.(told := (turn, index)), TellUser(turn, index))
  }

  /** `_handle_interject`, for the well-formed items of the command. */
  function TakeMessages(c: Core, items: seq<Item>, preamble: string, allowed: bool): Core {
    if c.open && allowed then
      var (w, ids) := DoAdd(c.world, items, preamble);
      Log(c.(world := w), Accepted(ids))
    else if items != [] then Log(c, InterjectRefused(Ids(items)))
    else c
  }

  function NoteRead(c: Core, w: World, read: seq<Id>): Core {
    var after := c.(world := w);
    if read != [] then Log(after, ReadAt(read)) else after
  }

  /** The account's part of `_on_turn_end`. */
  function StepEnd(c: Core, injected: Option<string>, exit: bool): Core {
    var (w, read) := DoStepEnded(c.world, injected, !exit);
    NoteRead(c, w, read)
  }

  /** The events `_on_turn_end` sends for a step. */
  function StepEvents(c: Core, turn: nat, read: seq<Id>): Core {
    var after := Log(c, TurnEnd(turn));
    if read != [] then Log(after, InterjectDelivered(read, turn)) else after
  }

  /** The run state of `Bridge`. `events` is what `_emit` was given and the marks between. */
  class Bridge {
    var runGeneration: nat
    var runInProgress: bool
    var toldInStep: (nat, nat)
    var events: seq<Event>
    const interjections: Interjections

    ghost function View(): Core
      reads this, interjections, interjections.cell
    {
      Core(runGeneration, runInProgress, toldInStep, interjections.View(), events)
    }

    constructor (interjections: Interjections)
      ensures this.interjections == interjections
      ensures View() == Core(0, false, (0, 0), interjections.View(), [])
    {
      this.interjections := interjections;
      runGeneration, runInProgress, toldInStep, events := 0, false, (0, 0), [];
    }

    method Emit(e: Event)
      modifies this`events
      ensures events == old(events) + [e]
    {
      events := events + [e];
    }

    method ReturnUnreadInterjections()
      modifies this`events, interjections, interjections.cell
      ensures View() == ReturnUnread(old(View()))
    {
      var unread := interjections.TakeUnread();
      if unread != [] {
        Emit(InterjectReturned(unread));
      }
    }

    /** The body of each completing branch, once it has found the run open. */
    method Complete(reason: Reason, drain: Option<nat>)
      requires runInProgress
      modifies this, interjections, interjections.cell
      ensures View() == Close(old(View()), reason, drain)
    {
      ReturnUnreadInterjections();
      Emit(RunComplete(reason, drain));
      runInProgress := false;
    }

    /** The shared part of `dispatch_command` for a user message and for an answer to `ask_user`,
        up to `put_task`: refused while a run is in progress. */
    method StartRun() returns (gen: Option<nat>)
      modifies this, interjections, interjections.cell
      ensures gen == if old(runInProgress) then None else Some(old(runGeneration) + 1)
      ensures View() == if old(runInProgress) then Log(old(View()), Error) else OpenRun(ReturnUnread(old(View())))
    {
      if runInProgress {
        Emit(Error);
        return None;
      }
      ReturnUnreadInterjections();
      runGeneration := runGeneration + 1;
      runInProgress := true;
      Emit(RunOpened(runGeneration));
      gen := Some(runGeneration);
    }

    method ResetTold()
      modifies this
      ensures View() == StartTelling(old(View()))
    {
      toldInStep := (0, 0);
      Emit(ToldReset);
    }

    method SlashDone(gen: nat)
      modifies this, interjections, interjections.cell
      ensures View() == DrainDone(old(View()), gen, true)
    {
      if runGeneration == gen && runInProgress {
        Complete(SlashCommand, Some(gen));
      }
    }

    method CloseRunWithoutExit(gen: nat)
      modifies this, interjections, interjections.cell
      ensures View() == DrainDone(old(View()), gen, false)
    {
      if runGeneration != gen || !runInProgress {
        return;
      }
      Emit(Error);
      Complete(WithoutExit, Some(gen));
    }

    method AbortRetire()
      modifies this
      ensures View() == Retire(old(View()))
    {
      runGeneration := runGeneration + 1;
      Emit(RunRetired);
    }

    method AbortClose()
      modifies this, interjections, interjections.cell
      ensures View() == Close(old(View()), Aborted, None)
    {
      if runInProgress {
        Complete(Aborted, None);
      }
    }

    method SendToldLine(turn: nat) returns (sent: bool)
      modifies this
      ensures sent == old(runInProgress) && View() == TellLine(old(View()), turn)
    {
      if !runInProgress {
        return false;
      }
      var (step, count) := toldInStep;
      var index := if step == turn then count + 1 else 1;
      toldInStep := (turn, index);
      Emit(TellUser(turn, index));
      sent := true;
    }

    method HandleInterject(items: seq<Item>, preamble: string, allowed: bool)
      modifies this, interjections, interjections.cell
      ensures View() == TakeMessages(old(View()), items, preamble, allowed)
    {
      if runInProgress && allowed {
        var ids := interjections.Add(items, preamble);
        Emit(Accepted(ids));
        return;
      }
      if items != [] {
        Emit(InterjectRefused(Ids(items)));
      }
    }

    method OnTurnEndAccount(injected: Option<string>, exit: bool) returns (read: seq<Id>)
      modifies this, interjections, interjections.cell
      ensures View() == StepEnd(old(View()), injected, exit)
      ensures read == ReadIds(old(View()).world.account, injected, !exit)
    {
      read := interjections.StepEnded(injected, !exit);
      if read != [] {
        Emit(ReadAt(read));
      }
    }

    method OnTurnEndEvents(turn: nat, read: seq<Id>)
      modifies this
      ensures View() == StepEvents(old(View()), turn, read)
    {
      Emit(TurnEnd(turn));
      if read != [] {
        Emit(InterjectDelivered(read, turn));
      }
    }

    method OnTurnEndExit()
      modifies this, interjections, interjections.cell
      ensures View() == Close(old(View()), Exited, None)
    {
      if runInProgress {
        Complete(Exited, None);
      }
    }
  }
}
