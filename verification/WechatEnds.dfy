/** How the WeChat runs end and what becomes of their questions, told by what came in: the items of
    GA's tasks, the messages and the commands. Over every interleaving of WechatProtocol a run's
    message is the one its own `done`, stop or failure calls for, and a question waits for its user's
    next reply unless a command drops it. */
module WechatEnds {
  import opened Wrappers
  import opened WechatRuns
  import opened WechatProtocol
  import opened WechatChains

  // ---- a run's end ----

  /** What has become of a run: nothing shown yet, under way, its task over with or without a question,
      stopped, or failed. */
  datatype Fate = Waiting | UnderWay | Over(asks: bool) | Cut | Failed

  /** The item of run `t`'s task that an action takes in: the worker has the run, its task was put, and
      it has not ended. */
  function ItemTaken(s: Sys, a: Action, t: nat): Option<Item> {
    if && a.Fetch? && a.thread in s.threads && s.threads[a.thread] == Ready(t) && t < |s.core.runs|
       && !s.core.runs[t].putFailed && (s.core.runs[t].state.Queued? || s.core.runs[t].state.Running?)
    then a.item else None
  }

  /** A command stops run `t`: GA is on its task, it has shown something, and every run listed before
      it was stopped. */
  ghost predicate StopsNow(s: Sys, a: Action, t: nat) {
    && Listed(s.core)
    && ((s.poller.Free? && (a.Stop? || a.New?)) || (s.poller.Continuing? && a.ContinueAbort?))
    && a.current == Some(t) && t in s.core.listed && t < |s.core.runs| && s.core.runs[t].state.Running?
    && forall u | u in s.core.listed && u < t :: u < |s.core.runs| && s.core.runs[u].state.Stopped?
  }

  /** The worker reports that run `t`'s task could not be put, unless it was stopped. */
  predicate FailsNow(s: Sys, a: Action, t: nat) {
    && a.Fail? && a.thread in s.threads && s.threads[a.thread] == Failing(t)
    && t < |s.core.runs| && !s.core.runs[t].state.Stopped?
  }

  ghost function FateAfter(s: Sys, a: Action, t: nat, f: Fate): Fate {
    var item := ItemTaken(s, a, t);
    if item.Some? then (if item.value.done then Over(item.value.asks) else UnderWay)
    else if StopsNow(s, a, t) then Cut
    else if FailsNow(s, a, t) then Failed
    else f
  }

  ghost function FateOf(s: Sys, actions: seq<Action>, t: nat, f: Fate): Fate
    decreases |actions|
  {
    if actions == [] then f else FateOf(Step(s, actions[0]), actions[1..], t, FateAfter(s, actions[0], t, f))
  }

  predicate Fits(state: RunState, f: Fate) {
    match f
    case Waiting => state == Queued
    case UnderWay => state == Running
    case Over(asks) => state == if asks then Asking else Answered
    case Cut => state == Stopped
    case Failed => state == Errored
  }

  lemma PollerFate(s: Sys, a: Action, t: nat, f: Fate)
    requires Inv(s) && !ByWorker(a) && t < |s.core.runs| && Fits(s.core.runs[t].state, f)
    ensures t < |PollerStep(s, a).core.runs| && Fits(PollerStep(s, a).core.runs[t].state, FateAfter(s, a, t, f))
  {
    if a.Message? {
      PollerRuns(s, a);
    } else if a.Stop? || a.New? || a.ContinueAbort? {
      StopsExactly(s, a.current, t);
      StopFate(s, a, t, f);
    }
  }

  lemma StopFate(s: Sys, a: Action, t: nat, f: Fate)
    requires Listed(s.core) && (a.Stop? || a.New? || a.ContinueAbort?)
    requires t < |s.core.runs| && Fits(s.core.runs[t].state, f)
    requires RunningRun(s.core, a.current) == Some(t) <==>
             a.current == Some(t) && t in s.core.listed && s.core.runs[t].state.Running? && AtFront(s.core, t)
    ensures var after := PollerStep(s, a).core.runs;
            t < |after| && Fits(after[t].state, FateAfter(s, a, t, f))
  {
    StoppedRuns(s, a);
    assert AtFront(s.core, t) <==>
        forall u | u in s.core.listed && u < t :: u < |s.core.runs| && s.core.runs[u].state.Stopped?;
  }

  lemma StoppedRuns(s: Sys, a: Action)
    requires Listed(s.core) && (a.Stop? || a.New? || a.ContinueAbort?)
    ensures var u := RunningRun(s.core, a.current);
            PollerStep(s, a).core.runs ==
            if u.Some? && (if a.ContinueAbort? then s.poller.Continuing? else s.poller.Free?)
            then s.core.runs[u.value := s.core.runs[u.value].(state := Stopped)] else s.core.runs
  {
  }

  /** The running run is the one a command stops. */
  lemma StopsExactly(s: Sys, current: Option<nat>, t: nat)
    requires Inv(s) && t < |s.core.runs|
    ensures RunningRun(s.core, current) == Some(t) <==>
            current == Some(t) && t in s.core.listed && s.core.runs[t].state.Running? && AtFront(s.core, t)
  {
    if Head(s.core).Some? {
      FirstIsFront(s.core.listed, s.core.runs);
    }
    NoHead(s.core.listed, s.core.runs);
  }

  lemma WorkerFate(s: Sys, a: Action, t: nat, f: Fate)
    requires Listed(s.core) && ByWorker(a) && a.thread in s.threads
    requires t < |s.core.runs| && Fits(s.core.runs[t].state, f)
    ensures var after := WorkerStep(s, a, a.thread, s.threads[a.thread]).core.runs;
            t < |after| && Fits(after[t].state, FateAfter(s, a, t, f))
  {
    match s.threads[a.thread]
    case Has(u) => if a.Adopt? && u < |s.core.runs| { AdoptFate(s, a, u, t, f); }
    case Ready(u) => if a.Fetch? && u < |s.core.runs| { FetchFate(s, a, u, t, f); }
    case Failing(u) => if a.Fail? && u < |s.core.runs| { FailFate(s, a, u, t, f); }
    case _ => assert ItemTaken(s, a, t).None? && !FailsNow(s, a, t);
  }

  lemma AdoptFate(s: Sys, a: Action, u: nat, t: nat, f: Fate)
    requires a.Adopt? && a.thread in s.threads && s.threads[a.thread] == Has(u) && u < |s.core.runs|
    requires t < |s.core.runs| && Fits(s.core.runs[t].state, f)
    ensures var after := TakeQuestion(s.core, u).runs; t < |after| && Fits(after[t].state, FateAfter(s, a, t, f))
  {
  }

  lemma FailFate(s: Sys, a: Action, u: nat, t: nat, f: Fate)
    requires a.Fail? && a.thread in s.threads && s.threads[a.thread] == Failing(u) && u < |s.core.runs|
    requires t < |s.core.runs| && Fits(s.core.runs[t].state, f)
    ensures var after := OnFail(s, a.thread, u).core.runs; t < |after| && Fits(after[t].state, FateAfter(s, a, t, f))
  {
  }

  lemma FetchFate(s: Sys, a: Action, u: nat, t: nat, f: Fate)
    requires a.Fetch? && a.thread in s.threads && s.threads[a.thread] == Ready(u) && u < |s.core.runs|
    requires t < |s.core.runs| && Fits(s.core.runs[t].state, f)
    ensures var after := OnFetch(s, a.thread, u, a.item).core.runs;
            t < |after| && Fits(after[t].state, FateAfter(s, a, t, f))
  {
  }

  lemma StepFate(s: Sys, a: Action, t: nat, f: Fate)
    requires Inv(s) && t < |s.core.runs| && Fits(s.core.runs[t].state, f)
    ensures t < |Step(s, a).core.runs| && Fits(Step(s, a).core.runs[t].state, FateAfter(s, a, t, f))
  {
    if !ByWorker(a) {
      PollerFate(s, a, t, f);
    } else if a.thread in s.threads {
      WorkerFate(s, a, t, f);
    }
  }

  /** A run not registered yet has no fate, and is waiting once it is. */
  lemma NewFate(s: Sys, a: Action, t: nat)
    requires Inv(s) && t >= |s.core.runs|
    ensures FateAfter(s, a, t, Waiting) == Waiting
    ensures t < |Step(s, a).core.runs| ==> Step(s, a).core.runs[t].state == Queued
  {
    if !ByWorker(a) {
      PollerRuns(s, a);
      if a.Message? && s.poller.Free? { EnqueueRuns(s.core, a.uid, a.plain, a.files, a.fails); }
    } else if a.thread in s.threads {
      WorkerRuns(s, a, t);
    }
  }

  lemma {:induction false} FatesFrom(s: Sys, actions: seq<Action>, t: nat, f: Fate)
    requires Inv(s) && (if t < |s.core.runs| then Fits(s.core.runs[t].state, f) else f == Waiting)
    ensures var end := Exec(s, actions).core;
            t < |end.runs| ==> Fits(end.runs[t].state, FateOf(s, actions, t, f))
    decreases |actions|
  {
    if actions != [] {
      var a := actions[0];
      StepKeeps(s, a);
      if t < |s.core.runs| { StepFate(s, a, t, f); } else { NewFate(s, a, t); }
      FatesFrom(Step(s, a), actions[1..], t, FateAfter(s, a, t, f));
    }
  }

  /** Over every interleaving: a question is posted about a run exactly if the `done` item that ended
      its task asks, an answer exactly if it does not, a receipt exactly if a command stopped it, and an
      error exactly if its task could not be put. */
  lemma PostsExactly(actions: seq<Action>, k: nat)
    requires k < |Exec(INITIAL, actions).posts|
    ensures var post := Exec(INITIAL, actions).posts[k];
            var f := FateOf(INITIAL, actions, post.run, Waiting);
            && (post.Question? <==> f == Over(true)) && (post.Answer? <==> f == Over(false))
            && (post.Receipt? <==> f == Cut) && (post.Failure? <==> f == Failed)
  {
    StartsOk();
    ExecKeeps(INITIAL, actions);
    var s := Exec(INITIAL, actions);
    FatesFrom(INITIAL, actions, s.posts[k].run, Waiting);
    assert s.posts[k] == DuePost(s.core.runs[s.posts[k].run], s.posts[k].run);
  }

  /** Nothing else ends a run: in every reachable state, its state is the one its fate calls for. */
  lemma StatesExactly(actions: seq<Action>, t: nat)
    requires t < |Exec(INITIAL, actions).core.runs|
    ensures Fits(Exec(INITIAL, actions).core.runs[t].state, FateOf(INITIAL, actions, t, Waiting))
  {
    StartsOk();
    FatesFrom(INITIAL, actions, t, Waiting);
  }

  // ---- questions ----

  /** A message answers its user's question at once: it is plain text without files, a question is
      pending, and no listed run of that user waits for one. */
  ghost predicate AnswersNow(c: Core, uid: Uid, plain: bool, files: bool)
    requires Listed(c)
  {
    && plain && !files && uid in c.pending
    && forall t | t in c.listed && c.runs[t].uid == uid :: !c.runs[t].adoptsAsk
  }

  /** What a message does: its run is listed last and queued; it takes the pending question, or waits
      for one if it is plain text without files; and a worker is started if there is none. */
  lemma MessageExactly(s: Sys, uid: Uid, plain: bool, files: bool, fails: bool)
    requires Listed(s.core)
    ensures var t := OnMessage(s, uid, plain, files, fails);
            var c, d, n := s.core, t.core, |s.core.runs|;
            var now := AnswersNow(c, uid, plain, files);
            && |d.runs| == n + 1 && d.runs[..n] == c.runs && d.listed == c.listed + [n]
            && d.runs[n].uid == uid && d.runs[n].state == Queued && d.runs[n].putFailed == fails
            && d.runs[n].answers == (if now then Some(c.pending[uid].asker) else None)
            && d.runs[n].adoptsAsk == (plain && !files && !now)
            && d.pending == (if now then c.pending - {uid} else c.pending)
            && (c.worker.Some? ==> d.worker == c.worker && d.started == c.started && t.threads == s.threads)
            && (c.worker.None? ==>
                 d.worker == Some(c.started) && d.started == c.started + 1 && t.threads == s.threads[c.started := Top])
            && t.posts == s.posts && t.poller == s.poller
  {
    AdoptsExactly(s.core.listed, s.core.runs, uid);
  }

  /** A command drops every pending question: `/new`, or `/continue` when it aborted GA's task and went
      through. */
  predicate DropsNow(s: Sys, a: Action) {
    (s.poller.Free? && a.New?) || (s.poller.Owing? && s.poller.stopped == [] && s.poller.clears && a.Settle?)
  }

  /** Run `t` takes its user's question now: it is just registered, or it waited and is the worker's. */
  ghost predicate TakesNow(s: Sys, a: Action, t: nat)
    requires Listed(s.core)
  {
    || (a.Message? && s.poller.Free? && t == |s.core.runs| && AnswersNow(s.core, a.uid, a.plain, a.files))
    || (&& a.Adopt? && a.thread in s.threads && s.threads[a.thread] == Has(t) && t < |s.core.runs|
        && s.core.runs[t].adoptsAsk && s.core.runs[t].uid in s.core.pending)
  }

  /** The user of a run that takes a question now. */
  function TakerUid(s: Sys, a: Action, t: nat): Uid {
    if a.Message? then a.uid else if t < |s.core.runs| then s.core.runs[t].uid else ""
  }

  /** Run `t`'s task ends with a question now. */
  predicate AsksNow(s: Sys, a: Action, t: nat) {
    var item := ItemTaken(s, a, t);
    item.Some? && item.value.done && item.value.asks
  }

  /** Nothing becomes of user `uid`'s question now. */
  ghost predicate LeftAlone(s: Sys, a: Action, uid: Uid)
    requires Listed(s.core)
  {
    && !DropsNow(s, a)
    && (forall t: nat :: TakesNow(s, a, t) ==> TakerUid(s, a, t) != uid)
    && (forall t: nat :: AsksNow(s, a, t) ==> s.core.runs[t].uid != uid)
  }

  /** `d` has user `uid`'s question, or none, as `c` has. */
  predicate SameQuestion(c: Core, d: Core, uid: Uid) {
    (uid in d.pending <==> uid in c.pending) && (uid in c.pending ==> d.pending[uid] == c.pending[uid])
  }

  /** A question waits, whatever the threads do, until a run of its user takes it, asks in turn, or a
      command drops it. */
  lemma WaitsExactly(s: Sys, a: Action, uid: Uid)
    requires Inv(s) && LeftAlone(s, a, uid)
    ensures SameQuestion(s.core, Step(s, a).core, uid)
  {
    if !ByWorker(a) {
      if a.Message? && s.poller.Free? {
        MessageExactly(s, a.uid, a.plain, a.files, a.fails);
        assert AnswersNow(s.core, a.uid, a.plain, a.files) ==> TakesNow(s, a, |s.core.runs|);
      }
    } else if a.thread in s.threads {
      WorkerDoes(s, a, a.thread);
      WorkerWaits(s, a, uid);
    }
  }

  lemma WorkerWaits(s: Sys, a: Action, uid: Uid)
    requires Inv(s) && ByWorker(a) && a.thread in s.threads && LeftAlone(s, a, uid)
    ensures SameQuestion(s.core, WorkerStep(s, a, a.thread, s.threads[a.thread]).core, uid)
  {
    WorkerDoes(s, a, a.thread);
    match s.threads[a.thread]
    case Has(t) =>
      assert a.Adopt? && s.core.runs[t].adoptsAsk && s.core.runs[t].uid in s.core.pending ==> TakesNow(s, a, t);
    case Ready(t) => assert a.Fetch? && AsksNow(s, a, t) ==> s.core.runs[t].uid != uid;
    case _ =>
  }

  /** What a run takes is the question that was pending, and it is pending no more; what it asks is
      pending then; and a command that drops questions leaves none. */
  lemma QuestionsExactly(s: Sys, a: Action, t: nat)
    requires Inv(s)
    ensures var c, d := s.core, Step(s, a).core;
            && (TakesNow(s, a, t) ==>
                 && TakerUid(s, a, t) in c.pending && t < |d.runs|
                 && d.runs[t].answers == Some(c.pending[TakerUid(s, a, t)].asker)
                 && TakerUid(s, a, t) !in d.pending)
            && (AsksNow(s, a, t) ==> d.runs[t].uid in d.pending && d.pending[d.runs[t].uid].asker == t)
            && (DropsNow(s, a) ==> d.pending == map[])
  {
    if a.Message? && s.poller.Free? {
      MessageExactly(s, a.uid, a.plain, a.files, a.fails);
    } else if ByWorker(a) && a.thread in s.threads {
      WorkerDoes(s, a, a.thread);
      WorkerQuestions(s, a, t);
    }
  }

  lemma WorkerQuestions(s: Sys, a: Action, t: nat)
    requires Listed(s.core) && ByWorker(a) && a.thread in s.threads
    ensures var c, d := s.core, WorkerStep(s, a, a.thread, s.threads[a.thread]).core;
            && (TakesNow(s, a, t) ==>
                 && c.runs[t].uid in c.pending && t < |d.runs|
                 && d.runs[t].answers == Some(c.pending[c.runs[t].uid].asker) && c.runs[t].uid !in d.pending)
            && (AsksNow(s, a, t) ==> t < |d.runs| && d.runs[t].uid in d.pending && d.pending[d.runs[t].uid].asker == t)
  {
  }

  ghost predicate AllLeftAlone(s: Sys, actions: seq<Action>, uid: Uid)
    decreases |actions|
  {
    actions == [] || (Inv(s) && LeftAlone(s, actions[0], uid) && AllLeftAlone(Step(s, actions[0]), actions[1..], uid))
  }

  lemma {:induction false} WaitsOn(s: Sys, actions: seq<Action>, uid: Uid)
    requires Inv(s) && AllLeftAlone(s, actions, uid)
    ensures Inv(Exec(s, actions)) && SameQuestion(s.core, Exec(s, actions).core, uid)
    decreases |actions|
  {
    if actions != [] {
      WaitsExactly(s, actions[0], uid);
      StepKeeps(s, actions[0]);
      WaitsOn(Step(s, actions[0]), actions[1..], uid);
    }
  }

  /** After a run has asked, over every interleaving in which no other question of its user comes and no
      command drops it: the next run of its user that takes a question takes this one. */
  lemma QuestionReachesNext(s: Sys, ask: Action, asker: nat, between: seq<Action>, take: Action, t: nat)
    requires Inv(s) && AsksNow(s, ask, asker) && asker < |s.core.runs|
    requires AllLeftAlone(Step(s, ask), between, s.core.runs[asker].uid)
    requires var u := Exec(Step(s, ask), between);
             Listed(u.core) && TakesNow(u, take, t) && TakerUid(u, take, t) == s.core.runs[asker].uid
    ensures var u := Exec(Step(s, ask), between);
            t < |Step(u, take).core.runs| && Step(u, take).core.runs[t].answers == Some(asker)
  {
    QuestionsExactly(s, ask, asker);
    StepKeeps(s, ask);
    AskerKeepsUid(s, ask, asker);
    WaitsOn(Step(s, ask), between, s.core.runs[asker].uid);
    QuestionsExactly(Exec(Step(s, ask), between), take, t);
  }

  lemma AskerKeepsUid(s: Sys, a: Action, t: nat)
    requires Inv(s) && AsksNow(s, a, t) && t < |s.core.runs|
    ensures t < |Step(s, a).core.runs| && Step(s, a).core.runs[t].uid == s.core.runs[t].uid
  {
    WorkerDoes(s, a, a.thread);
  }

  // ---- commands ----

  /** `/stop` and `/new` owe a receipt to the run they stop, if they stop one. `/new` drops the pending
      questions at once, and neither has any dropped later. */
  lemma CommandsExactly(s: Sys, a: Action)
    requires Inv(s) && s.poller.Free? && (a.Stop? || a.New?)
    ensures var t := Step(s, a);
            && t.poller.Owing? && !t.poller.clears
            && t.core.pending == (if a.New? then map[] else s.core.pending)
            && t.core.listed == s.core.listed && t.threads == s.threads && t.posts == s.posts
            && (forall u: nat | u < |s.core.runs| :: t.poller.stopped == [u] <==> StopsNow(s, a, u))
            && (t.poller.stopped == [] || exists u: nat :: u < |s.core.runs| && t.poller.stopped == [u])
  {
    forall u: nat | u < |s.core.runs|
      ensures RunningRun(s.core, a.current) == Some(u) <==> StopsNow(s, a, u)
    {
      StopsExactly(s, a.current, u);
    }
    OwedExactly(s, a);
  }

  lemma OwedExactly(s: Sys, a: Action)
    requires Listed(s.core) && s.poller.Free? && (a.Stop? || a.New?)
    ensures var t, u := Step(s, a), RunningRun(s.core, a.current);
            && t.poller == Owing(if u.Some? then [u.value] else [], false)
            && t.core.pending == (if a.New? then map[] else s.core.pending)
            && t.core.listed == s.core.listed && t.threads == s.threads && t.posts == s.posts
  {
  }

  /** Posting receipts and retiring their runs is all that a command still has to do; whether it drops
      questions at the end is settled before. */
  lemma OwingExactly(s: Sys, a: Action)
    requires Inv(s) && (s.poller.Owing? || s.poller.Posted?)
    ensures var p, q := s.poller, Step(s, a).poller;
            || q == p
            || (a.PostReceipt? && p.Owing? && p.stopped != [] && q == Posted(p.stopped[0], p.stopped[1..], p.clears))
            || (a.RetireStopped? && p.Posted? && q == Owing(p.stopped, p.clears))
            || (a.Settle? && p.Owing? && p.stopped == [] && q == Free)
  {
  }

  // ---- `/continue` ----

  predicate EndsContinue(a: Action) {
    a.ContinueEnd?
  }

  lemma {:induction false} ContinueGoesOn(s: Sys, actions: seq<Action>)
    requires Inv(s) && s.poller.Continuing? && forall k | 0 <= k < |actions| :: !EndsContinue(actions[k])
    ensures var t := Exec(s, actions);
            && Inv(t) && t.poller.Continuing?
            && (t.poller.aborted <==> s.poller.aborted || exists k :: 0 <= k < |actions| && actions[k].ContinueAbort?)
    decreases |actions|
  {
    if actions != [] {
      var a, rest := actions[0], actions[1..];
      StepKeeps(s, a);
      ContinueStep(s, a);
      assert forall k | 0 < k < |actions| :: actions[k] == rest[k - 1];
      ContinueGoesOn(Step(s, a), rest);
      assert (exists k :: 0 <= k < |actions| && actions[k].ContinueAbort?) <==>
             a.ContinueAbort? || exists k :: 0 <= k < |rest| && rest[k].ContinueAbort?;
    }
  }

  lemma ContinueStep(s: Sys, a: Action)
    requires Inv(s) && s.poller.Continuing? && !EndsContinue(a)
    ensures var p := Step(s, a).poller; p.Continuing? && (p.aborted <==> s.poller.aborted || a.ContinueAbort?)
  {
  }

  /** `/continue` is to drop the pending questions exactly if it aborted GA's task and did not raise,
      whatever else happened meanwhile. */
  lemma ContinueDropsExactly(s: Sys, actions: seq<Action>, raised: bool)
    requires Inv(s) && s.poller.Free? && forall k | 0 <= k < |actions| :: !EndsContinue(actions[k])
    ensures var p := Step(Exec(Step(s, ContinueStart), actions), ContinueEnd(raised)).poller;
            p.Owing? && (p.clears <==> !raised && exists k :: 0 <= k < |actions| && actions[k].ContinueAbort?)
  {
    StepKeeps(s, ContinueStart);
    ContinueBegins(s);
    ContinueGoesOn(Step(s, ContinueStart), actions);
    ContinueEndIs(Exec(Step(s, ContinueStart), actions), raised);
  }

  lemma ContinueBegins(s: Sys)
    requires Listed(s.core) && s.poller.Free?
    ensures Step(s, ContinueStart).poller == Continuing([], false)
  {
  }

  lemma ContinueEndIs(s: Sys, raised: bool)
    requires Listed(s.core) && s.poller.Continuing?
    ensures Step(s, ContinueEnd(raised)).poller == Owing(s.poller.stopped, s.poller.aborted && !raised)
  {
  }

  // ---- the worker's next run ----

  /** Run `t` is the first on the list that is not stopped. */
  ghost predicate IsHead(c: Core, t: nat)
    requires Listed(c)
  {
    && t in c.listed && !c.runs[t].state.Stopped?
    && forall u | u in c.listed && u < t :: c.runs[u].state.Stopped?
  }

  /** A worker between runs gets the first one not stopped; without one it leaves, if no run is listed
      and no indicator is up, and else stays. */
  lemma LookExactly(s: Sys, w: nat, typing: bool)
    requires Inv(s) && s.core.worker == Some(w) && w in s.threads && s.threads[w] == Top
    ensures var t := Step(s, Look(w, typing));
            && (forall u :: IsHead(s.core, u) ==> t == s.(threads := s.threads[w := Has(u)]))
            && ((forall u :: !IsHead(s.core, u)) ==>
                 t == if s.core.listed == [] && !typing
                      then s.(core := s.core.(worker := None), threads := s.threads[w := Leaving]) else s)
  {
    if Head(s.core).Some? {
      FirstIsFront(s.core.listed, s.core.runs);
      assert IsHead(s.core, Head(s.core).value);
    }
    NoHead(s.core.listed, s.core.runs);
  }

  /** A thread's last act, however it came to it: it is gone, and `_worker` is empty if it was still in
      there, so that the next message starts a new one. */
  lemma FinallyExactly(s: Sys, w: nat)
    requires Listed(s.core) && w in s.threads && s.threads[w].Leaving?
    ensures var t := Step(s, Finally(w));
            && t.threads == s.threads - {w} && t.posts == s.posts && t.poller == s.poller
            && t.core.worker == (if s.core.worker == Some(w) then None else s.core.worker)
            && t.core == s.core.(worker := t.core.worker)
  {
  }

  /** Where a worker goes from each place, and what it posts and retires on the way: it looks again
      after every poll but the one that brings the end of the run it has. */
  function GoesTo(s: Sys, a: Action): Pc
    requires a.Adopt? || a.Fetch? || a.Fail? || a.PostEnd? || a.RetireEnd?
    requires a.thread in s.threads
  {
    var pc := s.threads[a.thread];
    if pc.Has? && a.Adopt? then Ready(pc.run)
    else if pc.Ready? && a.Fetch? && pc.run < |s.core.runs| && s.core.runs[pc.run].putFailed then Failing(pc.run)
    else if pc.Ready? && a.Fetch? then
      var item := ItemTaken(s, a, pc.run);
      if item.Some? && item.value.done then Posting(pc.run, EndPost(s, a, pc.run)) else Top
    else if pc.Failing? && a.Fail? then
      if FailsNow(s, a, pc.run) then Posting(pc.run, Failure(pc.run)) else Top
    else if pc.Posting? && a.PostEnd? then Retiring(pc.run)
    else if pc.Retiring? && a.RetireEnd? then Top
    else pc
  }

  /** The message at the end of run `t`'s task. */
  function EndPost(s: Sys, a: Action, t: nat): Post {
    var after := Step(s, a).core.runs;
    var steps := if t < |after| then after[t].baseSteps + after[t].taskTurn else 0;
    if ItemTaken(s, a, t).Some? && ItemTaken(s, a, t).value.asks then Question(t, steps) else Answer(t, steps)
  }

  lemma WorkerGoes(s: Sys, a: Action)
    requires Inv(s) && (a.Adopt? || a.Fetch? || a.Fail? || a.PostEnd? || a.RetireEnd?) && a.thread in s.threads
    ensures var t, pc := Step(s, a), s.threads[a.thread];
            && t.threads == s.threads[a.thread := GoesTo(s, a)]
            && t.posts == (if pc.Posting? && a.PostEnd? then s.posts + [pc.post] else s.posts)
            && (!(pc.Retiring? && a.RetireEnd?) ==> t.core.listed == s.core.listed)
            && (pc.Retiring? && a.RetireEnd? ==>
                 forall u :: u in t.core.listed <==> u in s.core.listed && u != pc.run)
  {
    var pc := s.threads[a.thread];
    WorkerDoes(s, a, a.thread);
    assert s.threads == s.threads[a.thread := pc];
    match pc
    case Retiring(u) => RetireListed(s.core, u);
    case Ready(u) => if a.Fetch? { FetchGoes(s, a, u); }
    case _ =>
  }

  lemma FetchGoes(s: Sys, a: Action, u: nat)
    requires Listed(s.core) && a.Fetch? && a.thread in s.threads && s.threads[a.thread] == Ready(u) && u < |s.core.runs|
    ensures Step(s, a).threads == s.threads[a.thread := GoesTo(s, a)]
    ensures Step(s, a).posts == s.posts && Step(s, a).core.listed == s.core.listed
  {
  }
}
