/** The run queue of the WeChat channel: `_Run`, `_PendingAsk` and what `WechatConversation` in
    runner/im_wechat.py does under its lock, one function per locked section, and the object whose
    methods carry them out.

    A run is known by its number in the order of registration. */
module WechatRuns {
  import opened Wrappers

  type Uid = string

  datatype RunState = Queued | Running | Asking | Answered | Stopped | Errored

  /** `_Run`. `putFailed` is an `error` set at registration. `answers` is the run whose question
      this one took, which the source does not keep. */
  datatype Run = Run(
    uid: Uid,
    state: RunState,
    adoptsAsk: bool,
    baseSteps: nat,
    taskTurn: nat,
    putFailed: bool,
    answers: Option<nat>)

  /** `_PendingAsk`: the steps to carry on. `asker` is the run that asked. */
  datatype PendingAsk = PendingAsk(steps: nat, asker: nat)

  /** A display item: GA's turn, and for `done` the number of its step texts and whether GA
      ended with a question. */
  datatype Item = Item(turn: nat, done: bool, outputs: nat, asks: bool)

  /** `runs` are all runs ever registered, `listed` those in `_runs`; `worker` is the thread in
      `_worker` and `started` how many threads were started. */
  datatype Core = Core(
    runs: seq<Run>,
    listed: seq<nat>,
    pending: map<Uid, PendingAsk>,
    worker: Option<nat>,
    started: nat)

  const EMPTY := Core([], [], map[], None, 0)

  /** One message about a run. */
  datatype Post =
    | Answer(run: nat, steps: nat)
    | Question(run: nat, steps: nat)
    | Receipt(run: nat, steps: nat)
    | Failure(run: nat)

  predicate Listed(c: Core) {
    forall k | 0 <= k < |c.listed| :: c.listed[k] < |c.runs|
  }

  function TotalSteps(r: Run): nat {
    r.baseSteps + r.taskTurn
  }

  /** `_Run.observe`. */
  function Observe(r: Run, item: Item): Run {
    var turn := if item.done && item.outputs > item.turn then item.outputs else item.turn;
    r.(state := if r.state.Queued? then Running else r.state,
       taskTurn := if turn > r.taskTurn then turn else r.taskTurn)
  }

  /** `_head`: the first one not stopped. */
  function FirstAlive(listed: seq<nat>, runs: seq<Run>): (t: Option<nat>)
    requires forall k | 0 <= k < |listed| :: listed[k] < |runs|
    ensures t.Some? ==> t.value in listed && t.value < |runs| && !runs[t.value].state.Stopped?
  {
    if listed == [] then None
    else if !runs[listed[0]].state.Stopped? then Some(listed[0])
    else FirstAlive(listed[1..], runs)
  }

  function Head(c: Core): Option<nat>
    requires Listed(c)
  {
    FirstAlive(c.listed, c.runs)
  }

  /** `_running_run`, when GA is on run `current`. */
  function RunningRun(c: Core, current: Option<nat>): (t: Option<nat>)
    requires Listed(c)
    ensures t.Some? ==> t == Head(c) && t.value < |c.runs| && c.runs[t.value].state.Running?
  {
    var head := Head(c);
    if head.Some? && c.runs[head.value].state.Running? && current == head then head else None
  }

  /** Whether a listed run of `uid` already waits for a question. */
  predicate SomeoneAdopts(listed: seq<nat>, runs: seq<Run>, uid: Uid)
    requires forall k | 0 <= k < |listed| :: listed[k] < |runs|
  {
    listed != [] &&
    ((runs[listed[0]].uid == uid && runs[listed[0]].adoptsAsk) || SomeoneAdopts(listed[1..], runs, uid))
  }

  function Adopting(r: Run, ask: PendingAsk): Run {
    r.(baseSteps := ask.steps, answers := Some(ask.asker))
  }

  /** `_enqueue`: `plain` if the message is no `/` command, `files` if it brings any, `fails` if
      `put_task` raises. */
  function Enqueue(c: Core, uid: Uid, plain: bool, files: bool, fails: bool): Core
    requires Listed(c)
  {
    var run := Run(uid, Queued, false, 0, 0, fails, None);
    var adopts := plain && !files && uid in c.pending && !SomeoneAdopts(c.listed, c.runs, uid);
    var registered :=
      if adopts then Adopting(run, c.pending[uid]) else run.(adoptsAsk := plain && !files);
    Core(c.runs + [registered], c.listed + [|c.runs|], if adopts then c.pending - {uid} else c.pending,
         if c.worker.None? then Some(c.started) else c.worker,
         if c.worker.None? then c.started + 1 else c.started)
  }

  /** `_mark_stopped`. */
  function MarkStopped(c: Core, t: nat): Core
    requires t < |c.runs|
  {
    c.(runs := c.runs[t := c.runs[t].(state := Stopped)])
  }

  /** The first locked section of `_advance`. */
  function TakeQuestion(c: Core, t: nat): Core
    requires t < |c.runs|
  {
    var r := c.runs[t];
    if !r.adoptsAsk then c
    else if r.uid !in c.pending then c.(runs := c.runs[t := r.(adoptsAsk := false)])
    else c.(runs := c.runs[t := Adopting(r.(adoptsAsk := false), c.pending[r.uid])], pending := c.pending - {r.uid})
  }

  predicate Heeds(c: Core, t: nat)
    requires t < |c.runs|
  {
    c.runs[t].state.Queued? || c.runs[t].state.Running?
  }

  /** The second locked section of `_advance`: an item of the run's queue. */
  function FoldItem(c: Core, t: nat, item: Item): Core
    requires t < |c.runs|
  {
    if !Heeds(c, t) then c
    else
      var r := Observe(c.runs[t], item);
      if !item.done then c.(runs := c.runs[t := r])
      else if !item.asks then c.(runs := c.runs[t := r.(state := Answered)])
      else c.(runs := c.runs[t := r.(state := Asking)], pending := c.pending[r.uid := PendingAsk(TotalSteps(r), t)])
  }

  /** `list.remove`. */
  function Without(listed: seq<nat>, t: nat): (kept: seq<nat>)
    ensures forall u :: u in kept ==> u in listed
  {
    if listed == [] then [] else if listed[0] == t then listed[1..] else [listed[0]] + Without(listed[1..], t)
  }

  /** `_retire`. */
  function Retire(c: Core, t: nat): Core {
    c.(listed := Without(c.listed, t))
  }

  /** The locked section of `_fail`. */
  function MarkErrored(c: Core, t: nat): Core
    requires t < |c.runs|
  {
    if c.runs[t].state.Stopped? then c else c.(runs := c.runs[t := c.runs[t].(state := Errored)])
  }

  /** The message a run that ended is due. */
  function DuePost(r: Run, t: nat): Post {
    match r.state
    case Answered => Answer(t, TotalSteps(r))
    case Asking => Question(t, TotalSteps(r))
    case Stopped => Receipt(t, TotalSteps(r))
    case _ => Failure(t)
  }

  /** The run state of `WechatConversation`, each method under its lock. */
  class WechatConversation {
    var made: seq<Run>
    var runs: seq<nat>
    var pending: map<Uid, PendingAsk>
    var worker: Option<nat>
    var threads: nat

    ghost function View(): Core
      reads this
    {
      Core(made, runs, pending, worker, threads)
    }

    constructor ()
      ensures View() == EMPTY
    {
      made, runs, pending, worker, threads := [], [], map[], None, 0;
    }

    method FindHead() returns (t: Option<nat>)
      requires Listed(View())
      ensures t == Head(View())
    {
      var k := 0;
      while k < |runs|
        invariant 0 <= k <= |runs|
        invariant FirstAlive(runs[k..], made) == Head(View())
      {
        if !made[runs[k]].state.Stopped? {
          return Some(runs[k]);
        }
        k := k + 1;
      }
      t := None;
    }

    method FindRunning(current: Option<nat>) returns (t: Option<nat>)
      requires Listed(View())
      ensures t == RunningRun(View(), current)
    {
      t := FindHead();
      if t == None || !made[t.value].state.Running? || current != t {
        t := None;
      }
    }

    method FindAdopting(uid: Uid) returns (found: bool)
      requires Listed(View())
      ensures found == SomeoneAdopts(runs, made, uid)
    {
      var k := 0;
      while k < |runs|
        invariant 0 <= k <= |runs|
        invariant SomeoneAdopts(runs[k..], made, uid) == SomeoneAdopts(runs, made, uid)
      {
        if made[runs[k]].uid == uid && made[runs[k]].adoptsAsk {
          return true;
        }
        k := k + 1;
      }
      found := false;
    }

    method Register(uid: Uid, plain: bool, files: bool, fails: bool)
      requires Listed(View())
      modifies this
      ensures View() == Enqueue(old(View()), uid, plain, files, fails)
    {
      var run := Run(uid, Queued, false, 0, 0, fails, None);
      if plain && !files {
        var taken := FindAdopting(uid);
        if uid in pending && !taken {
          run := Adopting(run, pending[uid]);
          pending := pending - {uid};
        } else {
          run := run.(adoptsAsk := true);
        }
      }
      runs := runs + [|made|];
      made := made + [run];
      if worker == None {
        worker := Some(threads);
        threads := threads + 1;
      }
    }

    /** The locked section of `_stop`. */
    method StopRunning(current: Option<nat>) returns (t: Option<nat>)
      requires Listed(View())
      modifies this`made
      ensures t == RunningRun(old(View()), current)
      ensures View() == if t.Some? then MarkStopped(old(View()), t.value) else old(View())
    {
      t := FindRunning(current);
      if t != None {
        made := made[t.value := made[t.value].(state := Stopped)];
      }
    }

    method AdoptQuestion(t: nat)
      requires t < |made|
      modifies this
      ensures View() == TakeQuestion(old(View()), t)
    {
      var r := made[t];
      if r.adoptsAsk {
        r := r.(adoptsAsk := false);
        if r.uid in pending {
          made := made[t := Adopting(r, pending[r.uid])];
          pending := pending - {r.uid};
        } else {
          made := made[t := r];
        }
      }
    }

    /** Whether the run ended, and so has a message due. */
    method TakeItem(t: nat, item: Item) returns (ended: bool)
      requires t < |made|
      modifies this
      ensures View() == FoldItem(old(View()), t, item)
      ensures ended == (Heeds(old(View()), t) && item.done)
    {
      var r := made[t];
      if !r.state.Queued? && !r.state.Running? {
        return false;
      }
      r := Observe(r, item);
      if !item.done {
        made := made[t := r];
        return false;
      }
      if !item.asks {
        made := made[t := r.(state := Answered)];
      } else {
        made := made[t := r.(state := Asking)];
        pending := pending[r.uid := PendingAsk(TotalSteps(r), t)];
      }
      ended := true;
    }

    method RetireRun(t: nat)
      modifies this`runs
      ensures View() == Retire(old(View()), t)
    {
      runs := Without(runs, t);
    }

    /** False if the run was stopped, whose receipt is its message. */
    method FailRun(t: nat) returns (failed: bool)
      requires t < |made|
      modifies this`made
      ensures View() == MarkErrored(old(View()), t)
      ensures failed == !old(made)[t].state.Stopped?
    {
      if made[t].state.Stopped? {
        return false;
      }
      made := made[t := made[t].(state := Errored)];
      failed := true;
    }

    method ForgetQuestions()
      modifies this`pending
      ensures View() == old(View()).(pending := map[])
    {
      pending := map[];
    }

    /** A worker's look for its next run: it leaves when there is none to wait for either. */
    method NextRun(typing: bool) returns (t: Option<nat>, leaves: bool)
      requires Listed(View())
      modifies this`worker
      ensures t == Head(old(View())) && leaves == (t.None? && runs == [] && !typing)
      ensures View() == if leaves then old(View()).(worker := None) else old(View())
    {
      t := FindHead();
      leaves := t == None && runs == [] && !typing;
      if leaves {
        worker := None;
      }
    }

    /** A worker's last act: it gives up `_worker` only if that is still itself. */
    method Leave(thread: nat)
      modifies this`worker
      ensures View() == if old(worker) == Some(thread) then old(View()).(worker := None) else old(View())
    {
      if worker == Some(thread) {
        worker := None;
      }
    }
  }
}
