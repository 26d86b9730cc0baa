/** The WeChat queue does not get stuck: once no message and no command comes any more, every schedule
    of the threads' steps is finite but for polls that bring no end, and when no step is left to do
    every run registered has had its message. */
module WechatProgress {
  import opened Wrappers
  import opened WechatRuns
  import opened WechatProtocol

  /** What comes from outside: a message, a command, or a run stopped in the middle of `/continue`. */
  predicate Command(a: Action) {
    a.Message? || a.Stop? || a.New? || a.ContinueStart? || a.ContinueAbort?
  }

  /** The worker finds nothing in its run's queue, or an item that is not the end. */
  predicate IdlePoll(s: Sys, a: Action) {
    && a.Fetch? && a.thread in s.threads && s.threads[a.thread].Ready?
    && (a.item.None? || !a.item.value.done)
  }

  /** A step that gets on with something. */
  predicate Effective(s: Sys, a: Action) {
    !IdlePoll(s, a) && Step(s, a) != s
  }

  function PollerRank(p: Poller): nat {
    match p
    case Free => 0
    case Owing(stopped, _) => 1 + 2 * |stopped|
    case Posted(_, stopped, _) => 2 + 2 * |stopped|
    case Continuing(stopped, _) => 2 + 2 * |stopped|
  }

  /** A worker that holds a run stopped under it has to come back for another. */
  function PcRank(runs: seq<Run>, pc: Pc): nat {
    match pc
    case Top => 5
    case Has(t) => if t < |runs| && runs[t].state.Stopped? then 9 else 4
    case Ready(t) => if t < |runs| && runs[t].state.Stopped? then 8 else 3
    case Failing(_) => 2
    case Posting(_, _) => 1
    case Retiring(_) => 0
    case Leaving => 0
  }

  /** How much is left to do. */
  function Rank(s: Sys): nat {
    10 * |s.core.listed| + PollerRank(s.poller) + PcRank(s.core.runs, WorkerPc(s)) + |s.threads.Keys|
  }

  // ---- every step falls ----

  lemma {:induction false} WithoutShrinks(listed: seq<nat>, t: nat)
    ensures |Without(listed, t)| <= |listed|
    ensures t in listed ==> |Without(listed, t)| == |listed| - 1
  {
    if listed != [] && listed[0] != t {
      WithoutShrinks(listed[1..], t);
    }
  }

  ghost predicate Falls(s: Sys, t: Sys) {
    Rank(t) < Rank(s) && |t.core.runs| == |s.core.runs|
  }

  lemma PollerFalls(s: Sys, a: Action)
    requires Listed(s.core) && !Command(a)
    ensures PollerStep(s, a) == s || Falls(s, PollerStep(s, a))
  {
    if s.poller.Posted? {
      WithoutShrinks(s.core.listed, s.poller.run);
    }
  }

  /** The thread in `_worker` gets from one place to another. */
  lemma MovedRank(s: Sys, c: Core, posts: seq<Post>, w: nat, pc: Pc)
    requires s.core.worker == Some(w) && w in s.threads && c.worker == Some(w)
    ensures var t := Moved(s.(core := c, posts := posts), w, pc);
            Rank(t) == 10 * |c.listed| + PollerRank(s.poller) + PcRank(c.runs, pc) + |s.threads.Keys|
  {
    assert s.threads[w := pc].Keys == s.threads.Keys;
  }

  lemma LookFalls(s: Sys, w: nat, typing: bool)
    requires Listed(s.core) && s.core.worker == Some(w) && w in s.threads && s.threads[w].Top?
    ensures OnLook(s, w, typing) == s || Falls(s, OnLook(s, w, typing))
  {
    var head := Head(s.core);
    if head.Some? {
      MovedRank(s, s.core, s.posts, w, Has(head.value));
    } else if s.core.listed == [] && !typing {
      assert s.threads[w := Leaving].Keys == s.threads.Keys;
    }
  }

  lemma FetchFalls(s: Sys, w: nat, t: nat, item: Option<Item>)
    requires s.core.worker == Some(w) && w in s.threads && s.threads[w] == Ready(t)
    requires t < |s.core.runs| && (Heeds(s.core, t) || s.core.runs[t].state.Stopped?)
    ensures var u := OnFetch(s, w, t, item);
            if item.None? || !item.value.done then Rank(u) <= Rank(s) + 2 && |u.core.runs| == |s.core.runs|
            else Falls(s, u)
  {
    if s.core.runs[t].putFailed {
      MovedRank(s, s.core, s.posts, w, Failing(t));
    } else if item.None? {
      MovedRank(s, s.core, s.posts, w, Top);
    } else {
      var c := FoldItem(s.core, t, item.value);
      MovedRank(s, c, s.posts, w, if Heeds(s.core, t) && item.value.done then Posting(t, DuePost(c.runs[t], t)) else Top);
    }
  }

  lemma RetireEndFalls(s: Sys, w: nat, t: nat)
    requires s.core.worker == Some(w) && w in s.threads && s.threads[w] == Retiring(t) && t in s.core.listed
    ensures Falls(s, Moved(s.(core := Retire(s.core, t)), w, Top))
  {
    WithoutShrinks(s.core.listed, t);
    MovedRank(s, Retire(s.core, t), s.posts, w, Top);
  }

  lemma FinallyFalls(s: Sys, w: nat)
    requires w in s.threads && s.core.worker != Some(w)
    ensures Falls(s, OnFinally(s, w))
  {
    assert (s.threads - {w}).Keys == s.threads.Keys - {w};
  }

  lemma RetiringIsListed(s: Sys, t: nat)
    requires Inv(s) && WorkerPc(s) == Retiring(t)
    ensures t in s.core.listed
  {
    assert StageOk(s.core.runs[t], t, t in s.core.listed, PostsOf(s.posts, t), WorkerPc(s), s.poller);
  }

  /** What the invariant says of a worker's place. */
  ghost predicate PlaceOk(s: Sys, w: nat, pc: Pc) {
    && (pc.Leaving? <==> s.core.worker != Some(w))
    && (pc.Ready? ==> pc.run < |s.core.runs| && (Heeds(s.core, pc.run) || s.core.runs[pc.run].state.Stopped?))
    && (pc.Failing? ==> pc.run < |s.core.runs| && !s.core.runs[pc.run].state.Stopped?)
    && (pc.Retiring? ==> pc.run in s.core.listed)
  }

  lemma WorkerIs(s: Sys, w: nat)
    requires Inv(s) && w in s.threads
    ensures PlaceOk(s, w, s.threads[w])
  {
    var pc := s.threads[w];
    if !pc.Leaving? {
      assert WorkerPc(s) == pc;
      if pc.Retiring? { RetiringIsListed(s, pc.run); }
    }
  }

  lemma WorkerFalls(s: Sys, a: Action, w: nat)
    requires Listed(s.core) && w in s.threads && PlaceOk(s, w, s.threads[w]) && ByWorker(a) && a.thread == w
    ensures var t := WorkerStep(s, a, w, s.threads[w]);
            if IdlePoll(s, a) then Rank(t) <= Rank(s) + 2 && |t.core.runs| == |s.core.runs| else t == s || Falls(s, t)
  {
    match s.threads[w]
    case Top => if a.Look? { LookFalls(s, w, a.typing); }
    case Has(t) => if a.Adopt? && t < |s.core.runs| { MovedRank(s, TakeQuestion(s.core, t), s.posts, w, Ready(t)); }
    case Ready(t) => if a.Fetch? { FetchFalls(s, w, t, a.item); }
    case Failing(t) => if a.Fail? { MovedRank(s, MarkErrored(s.core, t), s.posts, w, Posting(t, Failure(t))); }
    case Posting(t, post) => if a.PostEnd? { MovedRank(s, s.core, s.posts + [post], w, Retiring(t)); }
    case Retiring(t) => if a.RetireEnd? { RetireEndFalls(s, w, t); }
    case Leaving => if a.Finally? { FinallyFalls(s, w); }
  }

  /** Every step that gets on with something leaves less to do, and a poll that brings no end sends
      the worker at most two places back. */
  lemma StepFalls(s: Sys, a: Action)
    requires Inv(s) && !Command(a)
    ensures var t := Step(s, a);
            && |t.core.runs| == |s.core.runs|
            && (if IdlePoll(s, a) then Rank(t) <= Rank(s) + 2 else t == s || Rank(t) < Rank(s))
  {
    if !ByWorker(a) {
      PollerFalls(s, a);
    } else if a.thread in s.threads {
      WorkerIs(s, a.thread);
      WorkerFalls(s, a, a.thread);
    }
  }

  function EffectiveSteps(s: Sys, actions: seq<Action>): nat
    decreases |actions|
  {
    if actions == [] then 0
    else (if Effective(s, actions[0]) then 1 else 0) + EffectiveSteps(Step(s, actions[0]), actions[1..])
  }

  function IdlePolls(s: Sys, actions: seq<Action>): nat
    decreases |actions|
  {
    if actions == [] then 0
    else (if IdlePoll(s, actions[0]) then 1 else 0) + IdlePolls(Step(s, actions[0]), actions[1..])
  }

  ghost predicate NoCommands(actions: seq<Action>) {
    forall k | 0 <= k < |actions| :: !Command(actions[k])
  }

  lemma RestHasNone(actions: seq<Action>)
    requires actions != [] && NoCommands(actions)
    ensures NoCommands(actions[1..])
  {
    assert forall k | 0 <= k < |actions[1..]| :: actions[1..][k] == actions[k + 1];
  }

  /** Over every schedule without messages and commands: the steps that get on with something are at
      most what was left to do and two for each poll that brought no end. */
  lemma {:induction false} StepsAreBounded(s: Sys, actions: seq<Action>)
    requires Inv(s) && NoCommands(actions)
    ensures var t := Exec(s, actions);
            && Inv(t) && |t.core.runs| == |s.core.runs|
            && Rank(t) + EffectiveSteps(s, actions) <= Rank(s) + 2 * IdlePolls(s, actions)
    decreases |actions|
  {
    if actions != [] {
      StepFalls(s, actions[0]);
      StepKeeps(s, actions[0]);
      RestHasNone(actions);
      StepsAreBounded(Step(s, actions[0]), actions[1..]);
    }
  }

  // ---- with nothing left to do all is done ----

  /** The worker's next step; if it waits for its run, GA has ended that one. */
  function NextMove(s: Sys): Action
    requires s.core.worker.Some?
  {
    var w := s.core.worker.value;
    match WorkerPc(s)
    case Top => Look(w, false)
    case Has(_) => Adopt(w)
    case Ready(_) => Fetch(w, Some(Item(0, true, 0, false)))
    case Failing(_) => Fail(w)
    case Posting(_, _) => PostEnd(w)
    case Retiring(_) => RetireEnd(w)
    case Leaving => Finally(w)
  }

  /** The polling thread's next step, while it owes something. */
  function NextOwed(p: Poller): Action {
    match p
    case Free => Settle
    case Continuing(_, _) => ContinueEnd(false)
    case Owing(stopped, _) => if stopped != [] then PostReceipt else Settle
    case Posted(_, _, _) => RetireStopped
  }

  lemma OwingMoves(s: Sys)
    requires Inv(s) && !s.poller.Free?
    ensures Effective(s, NextOwed(s.poller)) && !Command(NextOwed(s.poller))
  {
    PollerMoves(s);
  }

  lemma PollerMoves(s: Sys)
    requires Listed(s.core) && PollerOk(s.core, s.poller) && !s.poller.Free?
    ensures PollerStep(s, NextOwed(s.poller)).poller != s.poller
  {
    assert s.poller.Owing? && s.poller.stopped != [] ==> Owed(s.poller)[0] < |s.core.runs|;
  }

  /** With nothing owed, no run on the list is stopped. */
  lemma HeadIsThere(s: Sys)
    requires Inv(s) && s.poller.Free? && s.core.listed != []
    ensures Head(s.core) == Some(s.core.listed[0])
  {
    var t := s.core.listed[0];
    assert StageOk(s.core.runs[t], t, true, PostsOf(s.posts, t), WorkerPc(s), s.poller);
  }

  lemma WorkerMoves(s: Sys)
    requires Inv(s) && s.core.worker.Some? && s.poller.Free?
    ensures Effective(s, NextMove(s)) && !Command(NextMove(s))
  {
    var w := s.core.worker.value;
    WorkerIs(s, w);
    if WorkerPc(s).Top? && s.core.listed != [] { HeadIsThere(s); }
    assert PcOk(s.core, s.posts, WorkerPc(s));
    WorkerLeaves(s, w);
  }

  lemma WorkerLeaves(s: Sys, w: nat)
    requires Listed(s.core) && s.core.worker == Some(w) && w in s.threads && PcOk(s.core, s.posts, s.threads[w])
    requires s.threads[w].Top? && s.core.listed != [] ==> Head(s.core).Some?
    requires !s.threads[w].Leaving?
    ensures WorkerStep(s, NextMove(s), w, s.threads[w]) != s
  {
    var t := WorkerStep(s, NextMove(s), w, s.threads[w]);
    assert w in t.threads && t.threads[w] != s.threads[w];
  }

  lemma LeavingMoves(s: Sys, w: nat)
    requires Inv(s) && s.core.worker.None? && w in s.threads
    ensures Effective(s, Finally(w))
  {
    WorkerIs(s, w);
    assert w !in OnFinally(s, w).threads;
  }

  /** No thread has a step left that gets on with anything. */
  ghost predicate Quiet(s: Sys) {
    forall a: Action :: Command(a) || !Effective(s, a)
  }

  /** Then no thread is left, no run is listed, and every run has had exactly one message. */
  lemma QuietIsDone(s: Sys)
    requires Inv(s) && Quiet(s)
    ensures s.poller.Free? && s.threads == map[] && s.core.listed == []
    ensures forall u: nat | u < |s.core.runs| :: PostsOf(s.posts, u) == 1
  {
    if !s.poller.Free? {
      OwingMoves(s);
    } else if s.core.worker.Some? {
      WorkerMoves(s);
    } else if s.threads != map[] {
      var w :| w in s.threads;
      LeavingMoves(s, w);
    }
    AllPosted(s);
  }

  lemma AllPosted(s: Sys)
    requires Inv(s) && s.core.listed == []
    ensures forall u: nat | u < |s.core.runs| :: PostsOf(s.posts, u) == 1
  {
    forall u: nat | u < |s.core.runs| ensures PostsOf(s.posts, u) == 1 {
      assert StageOk(s.core.runs[u], u, u in s.core.listed, PostsOf(s.posts, u), WorkerPc(s), s.poller);
    }
  }

  /** From every reachable state, along every schedule without messages and commands: what gets done
      is bounded by what was left to do and the polls that brought no end, and as soon as nothing is
      left that any thread could get on with, every run ever registered has had exactly one message. */
  lemma EveryRunGetsItsMessage(actions: seq<Action>, more: seq<Action>)
    requires NoCommands(more)
    ensures var s, t := Exec(INITIAL, actions), Exec(Exec(INITIAL, actions), more);
            && |t.core.runs| == |s.core.runs|
            && EffectiveSteps(s, more) <= Rank(s) + 2 * IdlePolls(s, more)
            && (Quiet(t) ==> t.core.listed == [] && forall u: nat | u < |s.core.runs| :: PostsOf(t.posts, u) == 1)
  {
    StartsOk();
    ExecKeeps(INITIAL, actions);
    StepsAreBounded(Exec(INITIAL, actions), more);
    if Quiet(Exec(Exec(INITIAL, actions), more)) {
      QuietIsDone(Exec(Exec(INITIAL, actions), more));
    }
  }

  lemma SomeMove(s: Sys) returns (a: Action)
    requires Inv(s) && !Quiet(s)
    ensures !Command(a) && Inv(Step(s, a)) && Rank(Step(s, a)) < Rank(s)
  {
    a :| !Command(a) && Effective(s, a);
    StepKeeps(s, a);
    StepFalls(s, a);
  }

  lemma OneMore(s: Sys, a: Action, rest: seq<Action>)
    requires !Command(a) && NoCommands(rest)
    ensures NoCommands([a] + rest) && Exec(s, [a] + rest) == Exec(Step(s, a), rest)
  {
    assert ([a] + rest)[1..] == rest;
  }

  /** Such an end is always within reach, at most as many steps away as there is left to do. */
  lemma {:induction false} Finishes(s: Sys) returns (moves: seq<Action>)
    requires Inv(s)
    ensures NoCommands(moves) && |moves| <= Rank(s) && Inv(Exec(s, moves)) && Quiet(Exec(s, moves))
    decreases Rank(s)
  {
    if Quiet(s) {
      moves := [];
    } else {
      var a := SomeMove(s);
      var rest := Finishes(Step(s, a));
      OneMore(s, a, rest);
      moves := [a] + rest;
    }
  }
}
