/** Questions and their replies in the WeChat channel: a run that ends by asking leaves a pending
    question, the next message's run takes it and carries its steps on. Over every interleaving of
    WechatProtocol no question is taken twice, and the steps a message shows are GA's turns of all
    the runs of its chain. */
module WechatChains {
  import opened Wrappers
  import opened WechatRuns
  import opened WechatProtocol

  // ---- the invariant ----

  /** A run that took a question carries on the steps of the run that asked it. */
  ghost predicate CarriesOn(runs: seq<Run>, t: nat)
    requires t < |runs|
  {
    var r := runs[t];
    match r.answers
    case None => r.baseSteps == 0
    case Some(p) =>
      p < t && runs[p].state.Asking? && runs[p].uid == r.uid && r.baseSteps == TotalSteps(runs[p]) && !r.adoptsAsk
  }

  /** A pending question is of a run that asked it, before any run that still goes, and nobody
      has taken it. */
  ghost predicate Waits(runs: seq<Run>, uid: Uid, ask: PendingAsk) {
    && ask.asker < |runs| && runs[ask.asker].state.Asking? && runs[ask.asker].uid == uid
    && ask.steps == TotalSteps(runs[ask.asker])
    && (forall t: nat | t < |runs| :: runs[t].answers != Some(ask.asker))
    && (forall t: nat | t < |runs| && !Ended(runs[t]) :: t > ask.asker)
  }

  ghost predicate TakenOnce(runs: seq<Run>) {
    forall t, u | 0 <= t < u < |runs| && runs[t].answers.Some? :: runs[t].answers != runs[u].answers
  }

  ghost predicate ChainsOk(c: Core) {
    && (forall t: nat | t < |c.runs| :: CarriesOn(c.runs, t))
    && (forall uid | uid in c.pending :: Waits(c.runs, uid, c.pending[uid]))
    && TakenOnce(c.runs)
  }

  // ---- each locked section ----

  /** `runs` with run `t` moved on: no longer what `r` was, still of its uid and chain. */
  ghost predicate MovesOn(r: Run, after: Run) {
    && after.uid == r.uid && after.answers == r.answers && after.baseSteps == r.baseSteps
    && (after.adoptsAsk ==> r.adoptsAsk)
  }

  lemma MoveKeeps(c: Core, t: nat, r: Run)
    requires ChainsOk(c) && t < |c.runs| && !Ended(c.runs[t]) && MovesOn(c.runs[t], r)
    ensures ChainsOk(c.(runs := c.runs[t := r]))
  {
    var runs := c.runs[t := r];
    forall u: nat | u < |runs| ensures CarriesOn(runs, u) {
      assert CarriesOn(c.runs, u);
    }
    forall uid | uid in c.pending ensures Waits(runs, uid, c.pending[uid]) {
      assert Waits(c.runs, uid, c.pending[uid]);
    }
  }

  lemma AskKeeps(c: Core, t: nat, r: Run)
    requires ChainsOk(c) && t < |c.runs| && r == c.runs[t] && r.state.Asking?
    requires forall u: nat | u < |c.runs| :: c.runs[u].answers != Some(t)
    requires forall u: nat | u < |c.runs| && !Ended(c.runs[u]) :: u > t
    ensures ChainsOk(c.(pending := c.pending[r.uid := PendingAsk(TotalSteps(r), t)]))
  {
  }

  /** A run that has not ended has not asked, so none can carry on from it. */
  lemma NotAnswered(c: Core, t: nat)
    requires ChainsOk(c) && t < |c.runs| && !c.runs[t].state.Asking?
    ensures forall u: nat | u < |c.runs| :: c.runs[u].answers != Some(t)
  {
    forall u: nat | u < |c.runs| ensures c.runs[u].answers != Some(t) {
      assert CarriesOn(c.runs, u);
    }
  }

  lemma FoldKeeps(c: Core, t: nat, item: Item)
    requires ChainsOk(c) && t < |c.runs|
    requires Heeds(c, t) ==> forall u: nat | u < |c.runs| && !Ended(c.runs[u]) :: u >= t
    ensures ChainsOk(FoldItem(c, t, item))
  {
    if Heeds(c, t) {
      var r := Observe(c.runs[t], item);
      NotAnswered(c, t);
      if !item.done {
        MoveKeeps(c, t, r);
      } else if !item.asks {
        MoveKeeps(c, t, r.(state := Answered));
      } else {
        MoveKeeps(c, t, r.(state := Asking));
        AskKeeps(c.(runs := c.runs[t := r.(state := Asking)]), t, r.(state := Asking));
      }
    }
  }

  lemma TakeKeeps(c: Core, t: nat)
    requires ChainsOk(c) && t < |c.runs| && (c.runs[t].adoptsAsk ==> !Ended(c.runs[t]))
    ensures ChainsOk(TakeQuestion(c, t))
  {
    var r := c.runs[t];
    if r.adoptsAsk {
      assert CarriesOn(c.runs, t);
      if r.uid !in c.pending {
        MoveKeeps(c, t, r.(adoptsAsk := false));
      } else {
        TookKeeps(c, t);
      }
    }
  }

  lemma TookKeeps(c: Core, t: nat)
    requires ChainsOk(c) && t < |c.runs| && !Ended(c.runs[t]) && c.runs[t].adoptsAsk && c.runs[t].uid in c.pending
    ensures ChainsOk(TakeQuestion(c, t))
  {
    var r, ask := c.runs[t], c.pending[c.runs[t].uid];
    var runs := c.runs[t := Adopting(r.(adoptsAsk := false), ask)];
    assert Waits(c.runs, r.uid, ask);
    forall u: nat | u < |runs| ensures CarriesOn(runs, u) {
      assert CarriesOn(c.runs, u);
    }
    forall uid | uid in c.pending && uid != r.uid ensures Waits(runs, uid, c.pending[uid]) {
      assert Waits(c.runs, uid, c.pending[uid]);
    }
  }

  lemma EnqueueKeeps(c: Core, uid: Uid, plain: bool, files: bool, fails: bool)
    requires ChainsOk(c) && Listed(c)
    ensures ChainsOk(Enqueue(c, uid, plain, files, fails))
  {
    var d := Enqueue(c, uid, plain, files, fails);
    EnqueueRuns(c, uid, plain, files, fails);
    forall u: nat | u < |c.runs| ensures d.runs[u] == c.runs[u] {
      assert d.runs[..|c.runs|][u] == c.runs[u];
    }
    forall u: nat | u < |d.runs| ensures CarriesOn(d.runs, u) {
      assert u < |c.runs| ==> CarriesOn(c.runs, u);
      assert uid in c.pending ==> Waits(c.runs, uid, c.pending[uid]);
    }
    forall v | v in d.pending ensures Waits(d.runs, v, d.pending[v]) {
      assert Waits(c.runs, v, c.pending[v]);
      assert uid in c.pending ==> Waits(c.runs, uid, c.pending[uid]);
    }
    assert uid in c.pending ==> Waits(c.runs, uid, c.pending[uid]);
  }

  lemma StopsKeeps(s: Sys, current: Option<nat>, owed: seq<nat>)
    requires Listed(s.core) && ChainsOk(s.core)
    ensures ChainsOk(StopRunning(s, current, owed).0)
  {
    var t := RunningRun(s.core, current);
    if t.Some? {
      MoveKeeps(s.core, t.value, s.core.runs[t.value].(state := Stopped));
    }
  }

  // ---- every action ----

  lemma PollerChains(s: Sys, a: Action)
    requires Inv(s) && ChainsOk(s.core)
    ensures ChainsOk(PollerStep(s, a).core)
  {
    match a
    case Message(uid, plain, files, fails) => EnqueueKeeps(s.core, uid, plain, files, fails);
    case Stop(current) => StopsKeeps(s, current, []);
    case New(current) => StopsKeeps(s, current, []);
    case ContinueAbort(current) => if s.poller.Continuing? { StopsKeeps(s, current, s.poller.stopped); }
    case _ =>
  }

  lemma GoingIsBehind(s: Sys, t: nat)
    requires Inv(s) && t < |s.core.runs| && AtFront(s.core, t)
    ensures forall u: nat | u < |s.core.runs| && !Ended(s.core.runs[u]) :: u >= t
  {
    forall u: nat | u < |s.core.runs| && !Ended(s.core.runs[u]) ensures u >= t {
      assert StageOk(s.core.runs[u], u, u in s.core.listed, PostsOf(s.posts, u), WorkerPc(s), s.poller);
    }
  }

  lemma AdoptChains(s: Sys, t: nat)
    requires Inv(s) && ChainsOk(s.core) && WorkerPc(s) == Has(t)
    ensures ChainsOk(TakeQuestion(s.core, t))
  {
    assert StageOk(s.core.runs[t], t, t in s.core.listed, PostsOf(s.posts, t), WorkerPc(s), s.poller);
    TakeKeeps(s.core, t);
  }

  lemma FetchChains(s: Sys, t: nat, item: Item)
    requires Inv(s) && ChainsOk(s.core) && WorkerPc(s) == Ready(t)
    ensures ChainsOk(FoldItem(s.core, t, item))
  {
    if Heeds(s.core, t) {
      GoingIsBehind(s, t);
    }
    FoldKeeps(s.core, t, item);
  }

  /** What a worker's step does to runs and questions: nothing, or what the run in hand calls for. */
  ghost predicate Does(c: Core, d: Core, pc: Pc, a: Action)
    requires pc.Has? || pc.Ready? || pc.Failing? ==> pc.run < |c.runs|
  {
    || (d.runs == c.runs && d.pending == c.pending)
    || (pc.Has? && d == TakeQuestion(c, pc.run))
    || (pc.Ready? && a.Fetch? && a.item.Some? && !c.runs[pc.run].putFailed && d == FoldItem(c, pc.run, a.item.value))
    || (pc.Failing? && d == c.(runs := c.runs[pc.run := c.runs[pc.run].(state := Errored)]))
  }

  lemma WorkerDoes(s: Sys, a: Action, w: nat)
    requires Inv(s) && w in s.threads
    ensures var pc := s.threads[w];
            && (!pc.Leaving? ==> WorkerPc(s) == pc)
            && (pc.Has? || pc.Ready? || pc.Failing? ==> pc.run < |s.core.runs|)
            && Does(s.core, WorkerStep(s, a, w, pc).core, pc, a)
  {
    var pc := s.threads[w];
    assert !pc.Leaving? ==> WorkerPc(s) == pc;
  }

  lemma WorkerChains(s: Sys, a: Action, w: nat)
    requires Inv(s) && ChainsOk(s.core) && w in s.threads
    ensures ChainsOk(WorkerStep(s, a, w, s.threads[w]).core)
  {
    WorkerDoes(s, a, w);
    DoesChains(s, a, s.threads[w], WorkerStep(s, a, w, s.threads[w]).core);
  }

  lemma DoesChains(s: Sys, a: Action, pc: Pc, d: Core)
    requires Inv(s) && ChainsOk(s.core) && (!pc.Leaving? ==> WorkerPc(s) == pc)
    requires pc.Has? || pc.Ready? || pc.Failing? ==> pc.run < |s.core.runs|
    requires Does(s.core, d, pc, a)
    ensures ChainsOk(d)
  {
    match pc
    case Has(t) => AdoptChains(s, t);
    case Ready(t) => if a.Fetch? && a.item.Some? { FetchChains(s, t, a.item.value); }
    case Failing(t) => MoveKeeps(s.core, t, s.core.runs[t].(state := Errored));
    case _ =>
  }

  lemma {:induction false} ExecChains(s: Sys, actions: seq<Action>)
    requires Inv(s) && ChainsOk(s.core)
    ensures ChainsOk(Exec(s, actions).core)
    decreases |actions|
  {
    if actions != [] {
      var a := actions[0];
      StepKeeps(s, a);
      if !ByWorker(a) {
        PollerChains(s, a);
      } else if a.thread in s.threads {
        WorkerChains(s, a, a.thread);
      }
      ExecChains(Step(s, a), actions[1..]);
    }
  }

  /** Each question is taken by at most one run, of the user who was asked, registered later. */
  lemma QuestionsTakenOnce(actions: seq<Action>)
    ensures var runs := Exec(INITIAL, actions).core.runs;
            && TakenOnce(runs)
            && forall t: nat | t < |runs| && runs[t].answers.Some? ::
                 var p := runs[t].answers.value;
                 p < t && runs[p].state.Asking? && runs[p].uid == runs[t].uid
  {
    StartsOk();
    ExecChains(INITIAL, actions);
    var runs := Exec(INITIAL, actions).core.runs;
    forall t: nat | t < |runs| && runs[t].answers.Some?
      ensures var p := runs[t].answers.value;
              p < t && runs[p].state.Asking? && runs[p].uid == runs[t].uid
    {
      assert CarriesOn(runs, t);
    }
  }

  // ---- next in line ----

  /** As long as a run waits for its user's question, no later run of that user has taken one. */
  ghost predicate InLine(runs: seq<Run>) {
    forall t, u | 0 <= t < u < |runs| && runs[t].adoptsAsk && runs[t].uid == runs[u].uid :: runs[u].answers.None?
  }

  /** Each waiting run is on the list. */
  ghost predicate WaitingListed(c: Core) {
    forall t: nat | t < |c.runs| && c.runs[t].adoptsAsk :: t in c.listed
  }

  lemma Waiting(s: Sys)
    requires Inv(s)
    ensures WaitingListed(s.core)
  {
    forall t: nat | t < |s.core.runs| && s.core.runs[t].adoptsAsk ensures t in s.core.listed {
      assert StageOk(s.core.runs[t], t, t in s.core.listed, PostsOf(s.posts, t), WorkerPc(s), s.poller);
    }
  }

  lemma {:induction false} AdoptsExactly(listed: seq<nat>, runs: seq<Run>, uid: Uid)
    requires forall k | 0 <= k < |listed| :: listed[k] < |runs|
    ensures SomeoneAdopts(listed, runs, uid) <==> exists t | t in listed :: runs[t].uid == uid && runs[t].adoptsAsk
  {
    if listed != [] {
      AdoptsExactly(listed[1..], runs, uid);
      assert forall t | t in listed :: t == listed[0] || t in listed[1..];
    }
  }

  lemma EnqueueInLine(c: Core, uid: Uid, plain: bool, files: bool, fails: bool)
    requires Listed(c) && InLine(c.runs) && WaitingListed(c)
    ensures InLine(Enqueue(c, uid, plain, files, fails).runs)
  {
    var d, n := Enqueue(c, uid, plain, files, fails), |c.runs|;
    EnqueueRuns(c, uid, plain, files, fails);
    AdoptsExactly(c.listed, c.runs, uid);
    forall t, u | 0 <= t < u < |d.runs| && d.runs[t].adoptsAsk && d.runs[t].uid == d.runs[u].uid
      ensures d.runs[u].answers.None?
    {
      assert d.runs[..n][t] == c.runs[t];
      assert u < n ==> d.runs[..n][u] == c.runs[u];
    }
  }

  lemma TakeInLine(c: Core, t: nat)
    requires t < |c.runs| && InLine(c.runs)
    requires c.runs[t].adoptsAsk ==> forall u: nat | u < t && c.runs[u].adoptsAsk :: c.runs[u].uid != c.runs[t].uid
    ensures InLine(TakeQuestion(c, t).runs)
  {
  }

  /** At the front of the list no earlier run waits. */
  lemma NoneWaitsBefore(s: Sys, t: nat)
    requires Inv(s) && WorkerPc(s) == Has(t) && Heeds(s.core, t)
    ensures forall u: nat | u < t :: !s.core.runs[u].adoptsAsk
  {
    Waiting(s);
    forall u: nat | u < t ensures !s.core.runs[u].adoptsAsk {
      assert StageOk(s.core.runs[u], u, u in s.core.listed, PostsOf(s.posts, u), WorkerPc(s), s.poller);
    }
  }

  lemma AdoptInLine(s: Sys, t: nat)
    requires Inv(s) && InLine(s.core.runs) && WorkerPc(s) == Has(t)
    ensures InLine(TakeQuestion(s.core, t).runs)
  {
    assert StageOk(s.core.runs[t], t, t in s.core.listed, PostsOf(s.posts, t), WorkerPc(s), s.poller);
    if s.core.runs[t].adoptsAsk {
      NoneWaitsBefore(s, t);
      TakeInLine(s.core, t);
    }
  }

  lemma MoveInLine(runs: seq<Run>, t: nat, r: Run)
    requires InLine(runs) && t < |runs| && MovesOn(runs[t], r)
    ensures InLine(runs[t := r])
  {
  }

  lemma PollerInLine(s: Sys, a: Action)
    requires Inv(s) && InLine(s.core.runs)
    ensures InLine(PollerStep(s, a).core.runs)
  {
    if a.Message? {
      Waiting(s);
      EnqueueInLine(s.core, a.uid, a.plain, a.files, a.fails);
    } else {
      PollerRuns(s, a);
    }
  }

  lemma FoldInLine(c: Core, t: nat, item: Item)
    requires InLine(c.runs) && t < |c.runs|
    ensures InLine(FoldItem(c, t, item).runs)
  {
    MoveInLine(c.runs, t, FoldItem(c, t, item).runs[t]);
  }

  lemma WorkerInLine(s: Sys, a: Action, w: nat)
    requires Inv(s) && InLine(s.core.runs) && w in s.threads
    ensures InLine(WorkerStep(s, a, w, s.threads[w]).core.runs)
  {
    WorkerDoes(s, a, w);
    DoesInLine(s, a, s.threads[w], WorkerStep(s, a, w, s.threads[w]).core);
  }

  lemma DoesInLine(s: Sys, a: Action, pc: Pc, d: Core)
    requires Inv(s) && InLine(s.core.runs) && (!pc.Leaving? ==> WorkerPc(s) == pc)
    requires pc.Has? || pc.Ready? || pc.Failing? ==> pc.run < |s.core.runs|
    requires Does(s.core, d, pc, a)
    ensures InLine(d.runs)
  {
    match pc
    case Has(t) => AdoptInLine(s, t);
    case Ready(t) => if a.Fetch? && a.item.Some? { FoldInLine(s.core, t, a.item.value); }
    case Failing(t) => MoveInLine(s.core.runs, t, s.core.runs[t].(state := Errored));
    case _ =>
  }

  /** Questions are answered in line: in every reachable state, a run that still waits for its
      user's question is before every run of that user that has taken one. */
  lemma {:induction false} AnsweredInLine(s: Sys, actions: seq<Action>)
    requires Inv(s) && InLine(s.core.runs)
    ensures InLine(Exec(s, actions).core.runs)
    decreases |actions|
  {
    if actions != [] {
      var a := actions[0];
      StepKeeps(s, a);
      if !ByWorker(a) {
        PollerInLine(s, a);
      } else if a.thread in s.threads {
        WorkerInLine(s, a, a.thread);
      }
      AnsweredInLine(Step(s, a), actions[1..]);
    }
  }

  // ---- the steps shown ----

  /** GA's turn as an item tells it. */
  function TurnOf(item: Item): nat {
    Max(item.turn, if item.done then item.outputs else 0)
  }

  function Max(a: nat, b: nat): nat {
    if a > b then a else b
  }

  /** The item of run `t`'s task that an action takes in, if any: GA's turn by then. */
  function TurnTaken(s: Sys, a: Action, t: nat): nat {
    if && a.Fetch? && a.item.Some? && a.thread in s.threads && s.threads[a.thread] == Ready(t)
       && t < |s.core.runs| && !s.core.runs[t].putFailed && Heeds(s.core, t)
    then TurnOf(a.item.value) else 0
  }

  /** GA's turns in run `t`: the highest of the items taken in along the way. */
  function TaskTurns(s: Sys, actions: seq<Action>, t: nat): nat
    decreases |actions|
  {
    if actions == [] then 0 else Max(TurnTaken(s, actions[0], t), TaskTurns(Step(s, actions[0]), actions[1..], t))
  }

  /** The polling thread registers runs, or stops a running one. */
  lemma PollerRuns(s: Sys, a: Action)
    requires Listed(s.core)
    ensures var runs, after := s.core.runs, PollerStep(s, a).core.runs;
            && |runs| <= |after| <= |runs| + 1
            && (forall t: nat | t < |runs| ::
                  after[t] == runs[t] || (runs[t].state.Running? && after[t] == runs[t].(state := Stopped)))
            && (|after| > |runs| ==> after[|runs|].taskTurn == 0)
  {
    if a.Message? {
      EnqueueRuns(s.core, a.uid, a.plain, a.files, a.fails);
      var d := Enqueue(s.core, a.uid, a.plain, a.files, a.fails);
      forall t: nat | t < |s.core.runs| ensures d.runs[t] == s.core.runs[t] {
        assert d.runs[..|s.core.runs|][t] == s.core.runs[t];
      }
    }
  }

  /** A worker takes the turns in, and leaves a run that has ended as it is. */
  lemma WorkerRuns(s: Sys, a: Action, t: nat)
    requires Inv(s) && ByWorker(a) && a.thread in s.threads
    ensures var after := WorkerStep(s, a, a.thread, s.threads[a.thread]).core.runs;
            && |after| == |s.core.runs|
            && (t < |after| ==> after[t].taskTurn == Max(s.core.runs[t].taskTurn, TurnTaken(s, a, t)))
            && (t < |after| && Ended(s.core.runs[t]) ==> after[t] == s.core.runs[t])
  {
    var pc := s.threads[a.thread];
    assert !pc.Leaving? ==> WorkerPc(s) == pc;
    assert t < |s.core.runs| ==>
        StageOk(s.core.runs[t], t, t in s.core.listed, PostsOf(s.posts, t), WorkerPc(s), s.poller);
  }

  lemma StepTurns(s: Sys, a: Action, t: nat)
    requires Inv(s)
    ensures |s.core.runs| <= |Step(s, a).core.runs|
    ensures t < |s.core.runs| ==> Step(s, a).core.runs[t].taskTurn == Max(s.core.runs[t].taskTurn, TurnTaken(s, a, t))
    ensures |s.core.runs| <= t < |Step(s, a).core.runs| ==> Step(s, a).core.runs[t].taskTurn == 0
  {
    if !ByWorker(a) {
      PollerRuns(s, a);
    } else if a.thread in s.threads {
      WorkerRuns(s, a, t);
    }
  }

  lemma {:induction false} RunTurns(s: Sys, actions: seq<Action>, t: nat)
    requires Inv(s) && t < |Exec(s, actions).core.runs|
    ensures Exec(s, actions).core.runs[t].taskTurn ==
            Max(if t < |s.core.runs| then s.core.runs[t].taskTurn else 0, TaskTurns(s, actions, t))
    decreases |actions|
  {
    if actions != [] {
      StepKeeps(s, actions[0]);
      StepTurns(s, actions[0], t);
      RunTurns(Step(s, actions[0]), actions[1..], t);
      NotYet(s, actions[0], t);
    }
  }

  lemma NotYet(s: Sys, a: Action, t: nat)
    ensures t >= |s.core.runs| ==> TurnTaken(s, a, t) == 0
  {
  }

  /** The steps of run `t`'s chain: GA's turns in its task, and in those of the runs whose
      questions led to it. */
  function ChainTurns(runs: seq<Run>, actions: seq<Action>, t: nat): nat
    requires t < |runs|
    decreases t
  {
    TaskTurns(INITIAL, actions, t) +
    (if runs[t].answers.Some? && runs[t].answers.value < t then ChainTurns(runs, actions, runs[t].answers.value) else 0)
  }

  lemma {:induction false} TotalIsChain(runs: seq<Run>, actions: seq<Action>, t: nat)
    requires t < |runs| && forall u: nat | u < |runs| :: CarriesOn(runs, u)
    requires forall u: nat | u < |runs| :: runs[u].taskTurn == TaskTurns(INITIAL, actions, u)
    ensures TotalSteps(runs[t]) == ChainTurns(runs, actions, t)
    decreases t
  {
    assert CarriesOn(runs, t);
    if runs[t].answers.Some? {
      TotalIsChain(runs, actions, runs[t].answers.value);
    }
  }

  /** The steps every answer, question and receipt shows are GA's turns summed over the chain of
      questions and replies that led to it. */
  lemma ShownStepsAreTheChains(actions: seq<Action>, k: nat)
    requires k < |Exec(INITIAL, actions).posts| && !Exec(INITIAL, actions).posts[k].Failure?
    ensures var s := Exec(INITIAL, actions);
            var post := s.posts[k];
            post.run < |s.core.runs| && post.steps == ChainTurns(s.core.runs, actions, post.run)
  {
    StartsOk();
    ExecKeeps(INITIAL, actions);
    ExecChains(INITIAL, actions);
    var s := Exec(INITIAL, actions);
    forall u: nat | u < |s.core.runs| ensures s.core.runs[u].taskTurn == TaskTurns(INITIAL, actions, u) {
      RunTurns(INITIAL, actions, u);
    }
    assert s.posts[k] == DuePost(s.core.runs[s.posts[k].run], s.posts[k].run);
    TotalIsChain(s.core.runs, actions, s.posts[k].run);
  }

  // ---- stopped for good ----

  /** Nothing about a run changes once it has ended: a stopped one stays stopped, and its steps
      and its place in its chain are settled. */
  lemma EndedForGood(s: Sys, a: Action, t: nat)
    requires Inv(s) && t < |s.core.runs| && Ended(s.core.runs[t])
    ensures t < |Step(s, a).core.runs| && Step(s, a).core.runs[t] == s.core.runs[t]
  {
    if !ByWorker(a) {
      PollerRuns(s, a);
    } else if a.thread in s.threads {
      WorkerRuns(s, a, t);
    }
  }

  /** `/stop` stops at most one run: the first on the list not stopped yet, if GA is on its task and
      it has shown something. Queued runs stay, and nothing is stopped while GA is on anything else. */
  lemma StopTouchesOnlyTheRunningRun(s: Sys, current: Option<nat>, t: nat)
    requires Inv(s) && t < |s.core.runs|
    ensures var after := OnStop(s, current).core;
            && t < |after.runs| && after.listed == s.core.listed
            && (after.runs[t] != s.core.runs[t] <==>
                current == Some(t) && s.core.runs[t].state.Running? && AtFront(s.core, t))
            && (after.runs[t] != s.core.runs[t] ==> after.runs[t] == s.core.runs[t].(state := Stopped))
            && (after.runs[t] != s.core.runs[t] <==> t in Owed(OnStop(s, current).poller))
  {
    assert StageOk(s.core.runs[t], t, t in s.core.listed, PostsOf(s.posts, t), WorkerPc(s), s.poller);
    if Head(s.core).Some? {
      FirstIsFront(s.core.listed, s.core.runs);
    }
    NoHead(s.core.listed, s.core.runs);
  }

  lemma {:induction false} NoHead(listed: seq<nat>, runs: seq<Run>)
    requires forall k | 0 <= k < |listed| :: listed[k] < |runs|
    ensures forall u | u in listed && !runs[u].state.Stopped? :: FirstAlive(listed, runs).Some?
  {
    if listed != [] && runs[listed[0]].state.Stopped? {
      NoHead(listed[1..], runs);
      assert forall u | u in listed :: u == listed[0] || u in listed[1..];
    }
  }
}
