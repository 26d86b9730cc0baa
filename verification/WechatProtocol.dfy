/** The WeChat channel's threads, interleaved: the polling thread takes messages and commands, a
    worker takes the runs' items off GA and posts. An action is one locked section or one thing a
    thread does outside the lock; every interleaving is a sequence of actions. */
module WechatProtocol {
  import opened Wrappers
  import opened WechatRuns

  /** Where a worker is. `Leaving` is past its loop, with its `finally` still to come. */
  datatype Pc =
    | Top
    | Has(run: nat)
    | Ready(run: nat)
    | Failing(run: nat)
    | Posting(run: nat, post: Post)
    | Retiring(run: nat)
    | Leaving

  /** Where the polling thread is: between messages; inside `/continue`, with the runs it stopped
      so far; with receipts to post; or with one posted whose run is to be retired. */
  datatype Poller =
    | Free
    | Continuing(stopped: seq<nat>, aborted: bool)
    | Owing(stopped: seq<nat>, clears: bool)
    | Posted(run: nat, stopped: seq<nat>, clears: bool)

  datatype Sys = Sys(core: Core, threads: map<nat, Pc>, poller: Poller, posts: seq<Post>)

  datatype Action =
    | Message(uid: Uid, plain: bool, files: bool, fails: bool)
    | Stop(current: Option<nat>)
    | New(current: Option<nat>)
    | ContinueStart
    | ContinueAbort(current: Option<nat>)
    | ContinueEnd(raised: bool)
    | PostReceipt
    | RetireStopped
    | Settle
    | Look(thread: nat, typing: bool)
    | Adopt(thread: nat)
    | Fetch(thread: nat, item: Option<Item>)
    | Fail(thread: nat)
    | PostEnd(thread: nat)
    | RetireEnd(thread: nat)
    | Finally(thread: nat)

  const INITIAL := Sys(EMPTY, map[], Free, [])

  // ---- the polling thread ----

  function OnMessage(s: Sys, uid: Uid, plain: bool, files: bool, fails: bool): Sys
    requires Listed(s.core)
  {
    var c := Enqueue(s.core, uid, plain, files, fails);
    s.(core := c, threads := if s.core.worker.None? then s.threads[s.core.started := Top] else s.threads)
  }

  /** The running run is stopped, if there is one, and owed its receipt. */
  function StopRunning(s: Sys, current: Option<nat>, owed: seq<nat>): (Core, seq<nat>)
    requires Listed(s.core)
  {
    var t := RunningRun(s.core, current);
    if t.Some? then (MarkStopped(s.core, t.value), owed + [t.value]) else (s.core, owed)
  }

  function OnStop(s: Sys, current: Option<nat>): Sys
    requires Listed(s.core)
  {
    var (c, owed) := StopRunning(s, current, []);
    s.(core := c, poller := Owing(owed, false))
  }

  function OnNew(s: Sys, current: Option<nat>): Sys
    requires Listed(s.core)
  {
    var (c, owed) := StopRunning(s, current, []);
    s.(core := c.(pending := map[]), poller := Owing(owed, false))
  }

  function OnAbort(s: Sys, current: Option<nat>): Sys
    requires Listed(s.core) && s.poller.Continuing?
  {
    var (c, owed) := StopRunning(s, current, s.poller.stopped);
    s.(core := c, poller := Continuing(owed, true))
  }

  /** `_post_stopped` up to its `finally`. */
  function OnReceipt(s: Sys): Sys
    requires s.poller.Owing? && s.poller.stopped != [] && s.poller.stopped[0] < |s.core.runs|
  {
    var t := s.poller.stopped[0];
    s.(posts := s.posts + [Receipt(t, TotalSteps(s.core.runs[t]))],
       poller := Posted(t, s.poller.stopped[1..], s.poller.clears))
  }

  // ---- a worker ----

  function Moved(s: Sys, w: nat, pc: Pc): Sys {
    s.(threads := s.threads[w := pc])
  }

  function OnLook(s: Sys, w: nat, typing: bool): Sys
    requires Listed(s.core)
  {
    var head := Head(s.core);
    if head.Some? then Moved(s, w, Has(head.value))
    else if s.core.listed == [] && !typing then Moved(s.(core := s.core.(worker := None)), w, Leaving)
    else s
  }

  function OnFetch(s: Sys, w: nat, t: nat, item: Option<Item>): Sys
    requires t < |s.core.runs|
  {
    if s.core.runs[t].putFailed then Moved(s, w, Failing(t))
    else if item.None? then Moved(s, w, Top)
    else
      var c := FoldItem(s.core, t, item.value);
      Moved(s.(core := c), w,
            if Heeds(s.core, t) && item.value.done then Posting(t, DuePost(c.runs[t], t)) else Top)
  }

  function OnFail(s: Sys, w: nat, t: nat): Sys
    requires t < |s.core.runs|
  {
    if s.core.runs[t].state.Stopped? then Moved(s, w, Top)
    else Moved(s.(core := MarkErrored(s.core, t)), w, Posting(t, Failure(t)))
  }

  function OnFinally(s: Sys, w: nat): Sys {
    s.(core := if s.core.worker == Some(w) then s.core.(worker := None) else s.core, threads := s.threads - {w})
  }

  /** A worker's action, from where it is. */
  function WorkerStep(s: Sys, a: Action, w: nat, pc: Pc): Sys
    requires Listed(s.core)
  {
    match pc
    case Top => if a.Look? then OnLook(s, w, a.typing) else s
    case Has(t) => if a.Adopt? && t < |s.core.runs| then Moved(s.(core := TakeQuestion(s.core, t)), w, Ready(t)) else s
    case Ready(t) => if a.Fetch? && t < |s.core.runs| then OnFetch(s, w, t, a.item) else s
    case Failing(t) => if a.Fail? && t < |s.core.runs| then OnFail(s, w, t) else s
    case Posting(t, post) => if a.PostEnd? then Moved(s.(posts := s.posts + [post]), w, Retiring(t)) else s
    case Retiring(t) => if a.RetireEnd? then Moved(s.(core := Retire(s.core, t)), w, Top) else s
    case Leaving => if a.Finally? then OnFinally(s, w) else s
  }

  /** The polling thread's action. */
  function PollerStep(s: Sys, a: Action): Sys
    requires Listed(s.core)
  {
    match s.poller
    case Free =>
      (match a
       case Message(uid, plain, files, fails) => OnMessage(s, uid, plain, files, fails)
       case Stop(current) => OnStop(s, current)
       case New(current) => OnNew(s, current)
       case ContinueStart => s.(poller := Continuing([], false))
       case _ => s)
    case Continuing(stopped, aborted) =>
      (match a
       case ContinueAbort(current) => OnAbort(s, current)
       case ContinueEnd(raised) => s.(poller := Owing(stopped, aborted && !raised))
       case _ => s)
    case Owing(stopped, clears) =>
      if stopped != [] then (if a.PostReceipt? && stopped[0] < |s.core.runs| then OnReceipt(s) else s)
      else if a.Settle? then s.(poller := Free, core := if clears then s.core.(pending := map[]) else s.core)
      else s
    case Posted(t, stopped, clears) =>
      if a.RetireStopped? then s.(core := Retire(s.core, t), poller := Owing(stopped, clears)) else s
  }

  predicate ByWorker(a: Action) {
    a.Look? || a.Adopt? || a.Fetch? || a.Fail? || a.PostEnd? || a.RetireEnd? || a.Finally?
  }

  function Step(s: Sys, a: Action): Sys {
    if !Listed(s.core) then s
    else if !ByWorker(a) then PollerStep(s, a)
    else if a.thread in s.threads then WorkerStep(s, a, a.thread, s.threads[a.thread])
    else s
  }

  function Exec(s: Sys, actions: seq<Action>): Sys
    decreases |actions|
  {
    if actions == [] then s else Exec(Step(s, actions[0]), actions[1..])
  }

  // ---- what was posted ----

  /** How many messages were posted about run `t`. */
  function PostsOf(posts: seq<Post>, t: nat): nat {
    if posts == [] then 0
    else PostsOf(posts[..|posts| - 1], t) + (if posts[|posts| - 1].run == t then 1 else 0)
  }

  /** The run of the last answer, question or error; -1 before the first. */
  function LastEnd(posts: seq<Post>): int {
    if posts == [] then -1
    else
      var last := posts[|posts| - 1];
      if last.Receipt? then LastEnd(posts[..|posts| - 1]) else last.run
  }

  /** Answers, questions and errors come in the order their runs were registered. */
  predicate InOrder(posts: seq<Post>) {
    posts == [] ||
    var init, last := posts[..|posts| - 1], posts[|posts| - 1];
    InOrder(init) && (last.Receipt? || last.run > LastEnd(init))
  }

  lemma Posting1(posts: seq<Post>, post: Post, t: nat)
    ensures var after := posts + [post];
            && PostsOf(after, t) == PostsOf(posts, t) + (if post.run == t then 1 else 0)
            && LastEnd(after) == (if post.Receipt? then LastEnd(posts) else post.run)
            && (InOrder(after) <==> InOrder(posts) && (post.Receipt? || post.run > LastEnd(posts)))
  {
    assert (posts + [post])[..|posts|] == posts;
  }

  // ---- the invariant ----

  /** The runs stopped whose receipt is not posted yet. */
  function Owed(p: Poller): seq<nat> {
    match p
    case Free => []
    case Continuing(stopped, _) => stopped
    case Owing(stopped, _) => stopped
    case Posted(_, stopped, _) => stopped
  }

  predicate Leaves(p: Poller, t: nat) {
    p.Posted? && p.run == t
  }

  /** The worker in `_worker`, or one that has left. */
  function WorkerPc(s: Sys): Pc {
    if s.core.worker.Some? && s.core.worker.value in s.threads then s.threads[s.core.worker.value] else Leaving
  }

  predicate Ended(r: Run) {
    !r.state.Queued? && !r.state.Running?
  }

  /** A run in each of its states: whether it is listed, how often it was posted about, and who
      has it in hand. */
  predicate StageOk(r: Run, t: nat, listed: bool, posts: nat, pc: Pc, p: Poller) {
    match r.state
    case Queued => listed && posts == 0 && t !in Owed(p) && !Leaves(p, t)
    case Running => listed && posts == 0 && !r.adoptsAsk && !r.putFailed && t !in Owed(p) && !Leaves(p, t)
    case Stopped =>
      && !r.adoptsAsk && !r.putFailed
      && (if t in Owed(p) then listed && posts == 0 && !Leaves(p, t) else posts == 1 && (listed <==> Leaves(p, t)))
    case _ =>
      && !r.adoptsAsk && t !in Owed(p) && !Leaves(p, t)
      && (if pc.Posting? && pc.run == t then listed && posts == 0
          else posts == 1 && (listed <==> pc.Retiring? && pc.run == t))
  }

  ghost predicate StagesOk(s: Sys) {
    forall t: nat | t < |s.core.runs| ::
      StageOk(s.core.runs[t], t, t in s.core.listed, PostsOf(s.posts, t), WorkerPc(s), s.poller)
  }

  ghost predicate Increasing(listed: seq<nat>) {
    forall i, j | 0 <= i < j < |listed| :: listed[i] < listed[j]
  }

  /** Every run listed before `t` was stopped. */
  ghost predicate AtFront(c: Core, t: nat)
    requires Listed(c)
  {
    forall u | u in c.listed && u < t :: c.runs[u].state.Stopped?
  }

  /** What the worker knows of the run it has. */
  ghost predicate PcOk(c: Core, posts: seq<Post>, pc: Pc)
    requires Listed(c)
  {
    match pc
    case Top => true
    case Leaving => true
    case Has(t) => t < |c.runs| && (Heeds(c, t) || c.runs[t].state.Stopped?) && (Heeds(c, t) ==> AtFront(c, t))
    case Ready(t) =>
      && t < |c.runs| && (Heeds(c, t) || c.runs[t].state.Stopped?) && (Heeds(c, t) ==> AtFront(c, t))
      && !c.runs[t].adoptsAsk
    case Failing(t) => t < |c.runs| && c.runs[t].state.Queued? && AtFront(c, t) && !c.runs[t].adoptsAsk
    case Posting(t, post) =>
      && t < |c.runs| && Ended(c.runs[t]) && !c.runs[t].state.Stopped? && AtFront(c, t)
      && post == DuePost(c.runs[t], t) && t > LastEnd(posts)
    case Retiring(t) => t < |c.runs| && Ended(c.runs[t]) && !c.runs[t].state.Stopped?
  }

  /** The thread in `_worker` is at work, every other one is leaving. */
  ghost predicate ThreadsOk(s: Sys) {
    && (s.core.worker.Some? ==> s.core.worker.value in s.threads)
    && (s.core.listed != [] ==> s.core.worker.Some?)
    && forall w | w in s.threads :: w < s.core.started && (!s.threads[w].Leaving? <==> s.core.worker == Some(w))
  }

  /** Every message posted is the one its run is due, once it has ended. */
  ghost predicate PostsOk(c: Core, posts: seq<Post>) {
    forall k | 0 <= k < |posts| ::
      posts[k].run < |c.runs| && Ended(c.runs[posts[k].run]) && posts[k] == DuePost(c.runs[posts[k].run], posts[k].run)
  }

  /** No answer, question or error was posted past a run that still goes. */
  ghost predicate OrderOk(c: Core, posts: seq<Post>) {
    && InOrder(posts) && LastEnd(posts) < |c.runs|
    && forall t: nat | t < |c.runs| && !Ended(c.runs[t]) :: t > LastEnd(posts)
  }

  ghost predicate PollerOk(c: Core, p: Poller) {
    && (forall k | 0 <= k < |Owed(p)| :: Owed(p)[k] < |c.runs| && c.runs[Owed(p)[k]].state.Stopped?)
    && (forall j, k | 0 <= j < k < |Owed(p)| :: Owed(p)[j] != Owed(p)[k])
    && (p.Posted? ==> p.run < |c.runs| && c.runs[p.run].state.Stopped? && p.run !in p.stopped)
  }

  ghost predicate Inv(s: Sys) {
    && Listed(s.core) && Increasing(s.core.listed)
    && ThreadsOk(s) && StagesOk(s) && PcOk(s.core, s.posts, WorkerPc(s))
    && PostsOk(s.core, s.posts) && OrderOk(s.core, s.posts) && PollerOk(s.core, s.poller)
  }

  // ---- the polling thread keeps it ----

  lemma EnqueueRuns(c: Core, uid: Uid, plain: bool, files: bool, fails: bool)
    requires Listed(c)
    ensures var d := Enqueue(c, uid, plain, files, fails); var n := |c.runs|;
            && |d.runs| == n + 1 && d.runs[..n] == c.runs && d.listed == c.listed + [n]
            && d.runs[n].state.Queued? && d.runs[n].taskTurn == 0 && d.worker.Some?
  {
  }

  lemma MessageStages(s: Sys, uid: Uid, plain: bool, files: bool, fails: bool)
    requires Inv(s)
    ensures StagesOk(OnMessage(s, uid, plain, files, fails))
  {
    var t, n := OnMessage(s, uid, plain, files, fails), |s.core.runs|;
    EnqueueRuns(s.core, uid, plain, files, fails);
    forall u: nat | u < |t.core.runs|
      ensures StageOk(t.core.runs[u], u, u in t.core.listed, PostsOf(t.posts, u), WorkerPc(t), t.poller)
    {
      if u < n {
        assert t.core.runs[..n][u] == s.core.runs[u];
        assert StageOk(s.core.runs[u], u, u in s.core.listed, PostsOf(s.posts, u), WorkerPc(s), s.poller);
        MessageWorker(s, uid, plain, files, fails);
      } else {
        NoPosts(s.core, s.posts, n);
      }
    }
  }

  lemma MessageWorker(s: Sys, uid: Uid, plain: bool, files: bool, fails: bool)
    requires Listed(s.core) && ThreadsOk(s)
    ensures var t := OnMessage(s, uid, plain, files, fails);
            WorkerPc(t) == (if s.core.worker.None? then Top else WorkerPc(s)) && ThreadsOk(t)
  {
    assert s.core.started !in s.threads;
  }

  lemma {:induction false} NoPosts(c: Core, posts: seq<Post>, t: nat)
    requires PostsOk(c, posts) && t >= |c.runs|
    ensures PostsOf(posts, t) == 0
  {
    if posts != [] {
      NoPosts(c, posts[..|posts| - 1], t);
    }
  }

  lemma MessageKeeps(s: Sys, uid: Uid, plain: bool, files: bool, fails: bool)
    requires Inv(s) && s.poller.Free?
    ensures Inv(OnMessage(s, uid, plain, files, fails))
  {
    var t, n := OnMessage(s, uid, plain, files, fails), |s.core.runs|;
    EnqueueRuns(s.core, uid, plain, files, fails);
    MessageStages(s, uid, plain, files, fails);
    MessageWorker(s, uid, plain, files, fails);
    MoreRuns(s.core, t.core, s.posts, WorkerPc(s), s.poller);
  }

  /** What is known of the runs there are stays known when one is registered. */
  lemma MoreRuns(c: Core, d: Core, posts: seq<Post>, pc: Pc, p: Poller)
    requires Listed(c) && Listed(d) && Increasing(c.listed)
    requires var n := |c.runs|; |d.runs| == n + 1 && d.runs[..n] == c.runs && d.listed == c.listed + [n]
    requires PcOk(c, posts, pc) && PostsOk(c, posts) && OrderOk(c, posts) && PollerOk(c, p)
    ensures Increasing(d.listed) && PcOk(d, posts, pc) && PostsOk(d, posts) && OrderOk(d, posts) && PollerOk(d, p)
  {
    forall u: nat | u < |c.runs| ensures d.runs[u] == c.runs[u] {
      assert d.runs[..|c.runs|][u] == c.runs[u];
    }
  }

  /** `t` keeps everything of `s` but the pending questions and the polling thread's place. */
  ghost predicate SameRuns(s: Sys, t: Sys) {
    && t.core == s.core.(pending := t.core.pending) && t.threads == s.threads && t.posts == s.posts
    && Owed(t.poller) == Owed(s.poller) && forall u: nat :: Leaves(t.poller, u) == Leaves(s.poller, u)
  }

  lemma SameRunsKeeps(s: Sys, t: Sys)
    requires Inv(s) && SameRuns(s, t)
    ensures Inv(t)
  {
    forall u: nat | u < |t.core.runs|
      ensures StageOk(t.core.runs[u], u, u in t.core.listed, PostsOf(t.posts, u), WorkerPc(t), t.poller)
    {
      assert StageOk(s.core.runs[u], u, u in s.core.listed, PostsOf(s.posts, u), WorkerPc(s), s.poller);
    }
    SamePc(s.core, t.core, s.posts, WorkerPc(s));
    assert t.poller.Posted? ==> Leaves(s.poller, t.poller.run);
  }

  lemma SamePc(c: Core, d: Core, posts: seq<Post>, pc: Pc)
    requires Listed(c) && PcOk(c, posts, pc) && d == c.(pending := d.pending)
    ensures PcOk(d, posts, pc)
  {
    forall t: nat | t < |c.runs| && AtFront(c, t) ensures AtFront(d, t) {
    }
  }

  /** A running run stopped, and owed its receipt. */
  ghost predicate StopsRun(s: Sys, t: Sys, u: nat) {
    && u < |s.core.runs| && s.core.runs[u].state.Running?
    && t.core == MarkStopped(s.core, u).(pending := t.core.pending) && t.threads == s.threads && t.posts == s.posts
    && !s.poller.Posted? && !t.poller.Posted? && Owed(t.poller) == Owed(s.poller) + [u]
  }

  lemma StopStages(s: Sys, t: Sys, u: nat)
    requires Inv(s) && StopsRun(s, t, u)
    ensures StagesOk(t) && PollerOk(t.core, t.poller)
  {
    assert StageOk(s.core.runs[u], u, u in s.core.listed, PostsOf(s.posts, u), WorkerPc(s), s.poller);
    assert Owed(t.poller)[|Owed(s.poller)|] == u;
    forall v: nat | v < |t.core.runs|
      ensures StageOk(t.core.runs[v], v, v in t.core.listed, PostsOf(t.posts, v), WorkerPc(t), t.poller)
    {
      assert StageOk(s.core.runs[v], v, v in s.core.listed, PostsOf(s.posts, v), WorkerPc(s), s.poller);
      assert v != u ==> (v in Owed(s.poller) + [u] <==> v in Owed(s.poller));
    }
  }

  lemma StopOthers(c: Core, d: Core, posts: seq<Post>, pc: Pc, u: nat)
    requires Listed(c) && u < |c.runs| && c.runs[u].state.Running? && !c.runs[u].adoptsAsk
    requires d == MarkStopped(c, u).(pending := d.pending)
    requires PcOk(c, posts, pc) && PostsOk(c, posts) && OrderOk(c, posts)
    ensures Listed(d) && PcOk(d, posts, pc) && PostsOk(d, posts) && OrderOk(d, posts)
  {
    forall t: nat | t < |c.runs| && AtFront(c, t) ensures AtFront(d, t) {
    }
  }

  lemma StopKeeps(s: Sys, t: Sys, u: nat)
    requires Inv(s) && StopsRun(s, t, u)
    ensures Inv(t)
  {
    StopStages(s, t, u);
    assert StageOk(s.core.runs[u], u, u in s.core.listed, PostsOf(s.posts, u), WorkerPc(s), s.poller);
    StopOthers(s.core, t.core, s.posts, WorkerPc(s), u);
  }

  lemma StoppingKeeps(s: Sys, t: Sys, current: Option<nat>)
    requires Inv(s) && !s.poller.Posted? && !t.poller.Posted? && t.threads == s.threads && t.posts == s.posts
    requires var r := StopRunning(s, current, Owed(s.poller));
             t.core == r.0.(pending := t.core.pending) && Owed(t.poller) == r.1
    ensures Inv(t)
  {
    var u := RunningRun(s.core, current);
    if u.Some? {
      StopKeeps(s, t, u.value);
    } else {
      SameRunsKeeps(s, t);
    }
  }

  lemma ReceiptStages(s: Sys)
    requires Inv(s) && s.poller.Owing? && s.poller.stopped != [] && s.poller.stopped[0] < |s.core.runs|
    ensures StagesOk(OnReceipt(s)) && PollerOk(s.core, OnReceipt(s).poller)
  {
    var t := OnReceipt(s);
    var owed, u := Owed(s.poller), s.poller.stopped[0];
    forall v: nat | v < |t.core.runs|
      ensures StageOk(t.core.runs[v], v, v in t.core.listed, PostsOf(t.posts, v), WorkerPc(t), t.poller)
    {
      assert StageOk(s.core.runs[v], v, v in s.core.listed, PostsOf(s.posts, v), WorkerPc(s), s.poller);
      Posting1(s.posts, Receipt(u, TotalSteps(s.core.runs[u])), v);
      assert v in owed <==> v == u || v in owed[1..];
    }
  }

  lemma ReceiptKeeps(s: Sys)
    requires Inv(s) && s.poller.Owing? && s.poller.stopped != [] && s.poller.stopped[0] < |s.core.runs|
    ensures Inv(OnReceipt(s))
  {
    var u := s.poller.stopped[0];
    var post := Receipt(u, TotalSteps(s.core.runs[u]));
    ReceiptStages(s);
    Posting1(s.posts, post, u);
    PostsMore(s.core, s.posts, post);
    assert PcOk(s.core, s.posts + [post], WorkerPc(s));
  }

  lemma PostsMore(c: Core, posts: seq<Post>, post: Post)
    requires PostsOk(c, posts) && post.run < |c.runs|
    requires Ended(c.runs[post.run]) && post == DuePost(c.runs[post.run], post.run)
    ensures PostsOk(c, posts + [post])
  {
  }

  // ---- retiring ----

  lemma {:induction false} WithoutKeeps(listed: seq<nat>, t: nat)
    requires Increasing(listed)
    ensures Increasing(Without(listed, t))
    ensures forall u :: u in Without(listed, t) <==> u in listed && u != t
  {
    if listed != [] {
      var rest := listed[1..];
      WithoutKeeps(rest, t);
      assert forall u :: u in listed <==> u == listed[0] || u in rest;
      if listed[0] == t {
        assert forall k | 0 <= k < |rest| :: rest[k] == listed[k + 1];
      } else {
        var kept := Without(rest, t);
        forall k | 0 <= k < |kept| ensures listed[0] < kept[k] {
          assert kept[k] in rest;
          var j :| 0 <= j < |rest| && rest[j] == kept[k];
          assert listed[j + 1] == kept[k];
        }
      }
    }
  }

  lemma RetireListed(c: Core, t: nat)
    requires Listed(c) && Increasing(c.listed)
    ensures var d := Retire(c, t);
            && Listed(d) && Increasing(d.listed) && (d.listed != [] ==> c.listed != [])
            && forall u :: u in d.listed <==> u in c.listed && u != t
  {
    WithoutKeeps(c.listed, t);
    var d := Retire(c, t);
    forall k | 0 <= k < |d.listed| ensures d.listed[k] < |d.runs| {
      assert d.listed[k] in d.listed;
    }
  }

  lemma RetireOthers(c: Core, t: nat, posts: seq<Post>, pc: Pc)
    requires Listed(c) && Increasing(c.listed) && t < |c.runs|
    requires PcOk(c, posts, pc) && OrderOk(c, posts)
    ensures Listed(Retire(c, t)) && PcOk(Retire(c, t), posts, pc) && OrderOk(Retire(c, t), posts)
  {
    var d := Retire(c, t);
    RetireListed(c, t);
    forall u: nat | u < |c.runs| && AtFront(c, u) ensures AtFront(d, u) {
    }
  }

  lemma RetireStoppedKeeps(s: Sys)
    requires Inv(s) && s.poller.Posted?
    ensures Inv(s.(core := Retire(s.core, s.poller.run), poller := Owing(s.poller.stopped, s.poller.clears)))
  {
    var u := s.poller.run;
    var t := s.(core := Retire(s.core, u), poller := Owing(s.poller.stopped, s.poller.clears));
    RetireListed(s.core, u);
    forall v: nat | v < |t.core.runs|
      ensures StageOk(t.core.runs[v], v, v in t.core.listed, PostsOf(t.posts, v), WorkerPc(t), t.poller)
    {
      assert StageOk(s.core.runs[v], v, v in s.core.listed, PostsOf(s.posts, v), WorkerPc(s), s.poller);
    }
    RetireOthers(s.core, u, s.posts, WorkerPc(s));
  }

  lemma FreeKeeps(s: Sys, a: Action)
    requires Inv(s) && s.poller.Free?
    ensures Inv(PollerStep(s, a))
  {
    match a
    case Message(uid, plain, files, fails) => MessageKeeps(s, uid, plain, files, fails);
    case Stop(current) => StoppingKeeps(s, OnStop(s, current), current);
    case New(current) => StoppingKeeps(s, OnNew(s, current), current);
    case ContinueStart => SameRunsKeeps(s, PollerStep(s, a));
    case _ =>
  }

  lemma PollerKeeps(s: Sys, a: Action)
    requires Inv(s)
    ensures Inv(PollerStep(s, a))
  {
    match s.poller
    case Free => FreeKeeps(s, a);
    case Continuing(_, _) => ContinuingKeeps(s, a);
    case Owing(_, _) => OwingKeeps(s, a);
    case Posted(_, _, _) => if a.RetireStopped? { RetireStoppedKeeps(s); }
  }

  lemma ContinuingKeeps(s: Sys, a: Action)
    requires Inv(s) && s.poller.Continuing?
    ensures Inv(PollerStep(s, a))
  {
    if a.ContinueAbort? {
      StoppingKeeps(s, OnAbort(s, a.current), a.current);
    } else if a.ContinueEnd? {
      SameRunsKeeps(s, PollerStep(s, a));
    }
  }

  lemma OwingKeeps(s: Sys, a: Action)
    requires Inv(s) && s.poller.Owing?
    ensures Inv(PollerStep(s, a))
  {
    if s.poller.stopped != [] {
      assert Owed(s.poller)[0] < |s.core.runs|;
      if a.PostReceipt? { ReceiptKeeps(s); }
    } else if a.Settle? {
      SameRunsKeeps(s, PollerStep(s, a));
    }
  }

  // ---- a worker keeps it ----

  lemma {:induction false} FirstIsFront(listed: seq<nat>, runs: seq<Run>)
    requires forall k | 0 <= k < |listed| :: listed[k] < |runs|
    requires Increasing(listed) && FirstAlive(listed, runs).Some?
    ensures forall u | u in listed && u < FirstAlive(listed, runs).value :: runs[u].state.Stopped?
  {
    if runs[listed[0]].state.Stopped? {
      var rest := listed[1..];
      FirstIsFront(rest, runs);
      assert forall u | u in listed :: u == listed[0] || u in rest;
    } else {
      forall u | u in listed ensures u >= listed[0] {
        var k :| 0 <= k < |listed| && listed[k] == u;
      }
    }
  }

  /** The thread in `_worker` moves on. */
  lemma MovedThreads(s: Sys, w: nat, pc: Pc)
    requires ThreadsOk(s) && s.core.worker == Some(w) && !pc.Leaving?
    ensures ThreadsOk(Moved(s, w, pc)) && WorkerPc(Moved(s, w, pc)) == pc
  {
  }

  lemma LookKeeps(s: Sys, w: nat, typing: bool)
    requires Inv(s) && s.core.worker == Some(w) && WorkerPc(s).Top?
    ensures Inv(OnLook(s, w, typing))
  {
    var t, head := OnLook(s, w, typing), Head(s.core);
    if head.Some? {
      FirstIsFront(s.core.listed, s.core.runs);
      var h := head.value;
      assert StageOk(s.core.runs[h], h, true, PostsOf(s.posts, h), WorkerPc(s), s.poller);
      MovedThreads(s, w, Has(h));
      SameStages(s, t);
    } else if s.core.listed == [] && !typing {
      SameStages(s, t);
    }
  }

  /** A move between places that have no run's message or retirement in hand. */
  lemma SameStages(s: Sys, t: Sys)
    requires StagesOk(s)
    requires t.core.runs == s.core.runs && t.core.listed == s.core.listed && t.posts == s.posts && t.poller == s.poller
    requires !WorkerPc(s).Posting? && !WorkerPc(s).Retiring? && !WorkerPc(t).Posting? && !WorkerPc(t).Retiring?
    ensures StagesOk(t)
  {
    forall u: nat | u < |t.core.runs|
      ensures StageOk(t.core.runs[u], u, u in t.core.listed, PostsOf(t.posts, u), WorkerPc(t), t.poller)
    {
      assert StageOk(s.core.runs[u], u, u in s.core.listed, PostsOf(s.posts, u), WorkerPc(s), s.poller);
    }
  }

  /** A run that goes on or has just ended: what is known of the others stays known. */
  lemma RunMoves(c: Core, d: Core, posts: seq<Post>, t: nat, p: Poller)
    requires Listed(c) && t < |c.runs| && !Ended(c.runs[t])
    requires |d.runs| == |c.runs| && d == c.(runs := c.runs[t := d.runs[t]], pending := d.pending)
    requires PostsOk(c, posts) && OrderOk(c, posts) && PollerOk(c, p)
    ensures Listed(d) && PostsOk(d, posts) && OrderOk(d, posts) && PollerOk(d, p)
    ensures forall u: nat | u < |c.runs| && AtFront(c, u) :: AtFront(d, u)
  {
  }

  lemma AdoptKeeps(s: Sys, w: nat, t: nat)
    requires Inv(s) && s.core.worker == Some(w) && WorkerPc(s) == Has(t)
    ensures Inv(Moved(s.(core := TakeQuestion(s.core, t)), w, Ready(t)))
  {
    var u := Moved(s.(core := TakeQuestion(s.core, t)), w, Ready(t));
    assert StageOk(s.core.runs[t], t, t in s.core.listed, PostsOf(s.posts, t), WorkerPc(s), s.poller);
    if s.core.runs[t].adoptsAsk {
      RunMoves(s.core, u.core, s.posts, t, s.poller);
    }
    forall v: nat | v < |u.core.runs|
      ensures StageOk(u.core.runs[v], v, v in u.core.listed, PostsOf(u.posts, v), WorkerPc(u), u.poller)
    {
      assert StageOk(s.core.runs[v], v, v in s.core.listed, PostsOf(s.posts, v), WorkerPc(s), s.poller);
    }
  }

  /** The end of a run, whose message the worker now has in hand. */
  lemma EndKeeps(s: Sys, w: nat, t: nat, r: Run, d: Core)
    requires Inv(s) && s.core.worker == Some(w) && t < |s.core.runs| && Heeds(s.core, t) && AtFront(s.core, t)
    requires WorkerPc(s) == Ready(t) || WorkerPc(s) == Failing(t)
    requires Ended(r) && !r.state.Stopped? && !r.adoptsAsk
    requires d == s.core.(runs := s.core.runs[t := r], pending := d.pending)
    ensures Inv(Moved(s.(core := d), w, Posting(t, DuePost(r, t))))
  {
    var u := Moved(s.(core := d), w, Posting(t, DuePost(r, t)));
    RunMoves(s.core, d, s.posts, t, s.poller);
    forall v: nat | v < |d.runs|
      ensures StageOk(d.runs[v], v, v in d.listed, PostsOf(u.posts, v), WorkerPc(u), u.poller)
    {
      assert StageOk(s.core.runs[v], v, v in s.core.listed, PostsOf(s.posts, v), WorkerPc(s), s.poller);
    }
  }

  lemma GoesOnKeeps(s: Sys, w: nat, t: nat, item: Item)
    requires Inv(s) && s.core.worker == Some(w) && WorkerPc(s) == Ready(t) && t < |s.core.runs|
    requires !s.core.runs[t].putFailed && !(Heeds(s.core, t) && item.done)
    ensures Inv(Moved(s.(core := FoldItem(s.core, t, item)), w, Top))
  {
    var u := Moved(s.(core := FoldItem(s.core, t, item)), w, Top);
    if Heeds(s.core, t) {
      RunMoves(s.core, u.core, s.posts, t, s.poller);
    }
    forall v: nat | v < |u.core.runs|
      ensures StageOk(u.core.runs[v], v, v in u.core.listed, PostsOf(u.posts, v), WorkerPc(u), u.poller)
    {
      assert StageOk(s.core.runs[v], v, v in s.core.listed, PostsOf(s.posts, v), WorkerPc(s), s.poller);
    }
  }

  lemma FetchKeeps(s: Sys, w: nat, t: nat, item: Option<Item>)
    requires Inv(s) && s.core.worker == Some(w) && WorkerPc(s) == Ready(t) && t < |s.core.runs|
    ensures Inv(OnFetch(s, w, t, item))
  {
    assert StageOk(s.core.runs[t], t, t in s.core.listed, PostsOf(s.posts, t), WorkerPc(s), s.poller);
    if s.core.runs[t].putFailed {
      SameStages(s, OnFetch(s, w, t, item));
    } else if item.None? {
      SameStages(s, OnFetch(s, w, t, item));
    } else if Heeds(s.core, t) && item.value.done {
      var d := FoldItem(s.core, t, item.value);
      EndKeeps(s, w, t, d.runs[t], d);
    } else {
      GoesOnKeeps(s, w, t, item.value);
    }
  }

  lemma FailKeeps(s: Sys, w: nat, t: nat)
    requires Inv(s) && s.core.worker == Some(w) && WorkerPc(s) == Failing(t) && t < |s.core.runs|
    ensures Inv(OnFail(s, w, t))
  {
    var d := MarkErrored(s.core, t);
    EndKeeps(s, w, t, d.runs[t], d);
  }

  lemma PostEndKeeps(s: Sys, w: nat, t: nat, post: Post)
    requires Inv(s) && s.core.worker == Some(w) && WorkerPc(s) == Posting(t, post)
    ensures Inv(Moved(s.(posts := s.posts + [post]), w, Retiring(t)))
  {
    var u := Moved(s.(posts := s.posts + [post]), w, Retiring(t));
    PostsMore(s.core, s.posts, post);
    Posting1(s.posts, post, t);
    forall v: nat | v < |s.core.runs|
      ensures StageOk(s.core.runs[v], v, v in u.core.listed, PostsOf(u.posts, v), WorkerPc(u), u.poller)
      ensures !Ended(s.core.runs[v]) ==> v > t
    {
      assert StageOk(s.core.runs[v], v, v in s.core.listed, PostsOf(s.posts, v), WorkerPc(s), s.poller);
      Posting1(s.posts, post, v);
    }
  }

  lemma RetireEndKeeps(s: Sys, w: nat, t: nat)
    requires Inv(s) && s.core.worker == Some(w) && WorkerPc(s) == Retiring(t)
    ensures Inv(Moved(s.(core := Retire(s.core, t)), w, Top))
  {
    var u := Moved(s.(core := Retire(s.core, t)), w, Top);
    RetireListed(s.core, t);
    RetireOthers(s.core, t, s.posts, Top);
    forall v: nat | v < |u.core.runs|
      ensures StageOk(u.core.runs[v], v, v in u.core.listed, PostsOf(u.posts, v), WorkerPc(u), u.poller)
    {
      assert StageOk(s.core.runs[v], v, v in s.core.listed, PostsOf(s.posts, v), WorkerPc(s), s.poller);
    }
  }

  lemma FinallyKeeps(s: Sys, w: nat)
    requires Inv(s) && w in s.threads && s.threads[w].Leaving?
    ensures Inv(OnFinally(s, w)) && OnFinally(s, w).core == s.core
  {
    var t := OnFinally(s, w);
    assert WorkerPc(t) == WorkerPc(s);
    forall v: nat | v < |t.core.runs|
      ensures StageOk(t.core.runs[v], v, v in t.core.listed, PostsOf(t.posts, v), WorkerPc(t), t.poller)
    {
      assert StageOk(s.core.runs[v], v, v in s.core.listed, PostsOf(s.posts, v), WorkerPc(s), s.poller);
    }
  }

  lemma WorkerKeeps(s: Sys, a: Action, w: nat)
    requires Inv(s) && w in s.threads
    ensures Inv(WorkerStep(s, a, w, s.threads[w]))
  {
    var pc := s.threads[w];
    assert !pc.Leaving? ==> WorkerPc(s) == pc;
    match pc
    case Top => if a.Look? { LookKeeps(s, w, a.typing); }
    case Has(t) => if a.Adopt? && t < |s.core.runs| { AdoptKeeps(s, w, t); }
    case Ready(t) => if a.Fetch? && t < |s.core.runs| { FetchKeeps(s, w, t, a.item); }
    case Failing(t) => if a.Fail? && t < |s.core.runs| { FailKeeps(s, w, t); }
    case Posting(t, post) => if a.PostEnd? { PostEndKeeps(s, w, t, post); }
    case Retiring(t) => if a.RetireEnd? { RetireEndKeeps(s, w, t); }
    case Leaving => if a.Finally? { FinallyKeeps(s, w); }
  }

  lemma StepKeeps(s: Sys, a: Action)
    requires Inv(s)
    ensures Inv(Step(s, a))
  {
    if !ByWorker(a) {
      PollerKeeps(s, a);
    } else if a.thread in s.threads {
      WorkerKeeps(s, a, a.thread);
    }
  }

  lemma {:induction false} ExecKeeps(s: Sys, actions: seq<Action>)
    requires Inv(s)
    ensures Inv(Exec(s, actions))
    decreases |actions|
  {
    if actions != [] {
      StepKeeps(s, actions[0]);
      ExecKeeps(Step(s, actions[0]), actions[1..]);
    }
  }

  lemma StartsOk()
    ensures Inv(INITIAL)
  {
  }

  // ---- what it means ----

  /** Every run that was taken off the list has had exactly one message, one still listed at most
      one, and it is the one its end calls for: a stopped run's receipt and no answer, an answer,
      a question, or the error. */
  lemma OneMessageEach(actions: seq<Action>, t: nat)
    requires t < |Exec(INITIAL, actions).core.runs|
    ensures var s := Exec(INITIAL, actions);
            && (t !in s.core.listed ==> PostsOf(s.posts, t) == 1)
            && PostsOf(s.posts, t) <= 1
            && forall k | 0 <= k < |s.posts| && s.posts[k].run == t ::
                 s.posts[k] == DuePost(s.core.runs[t], t) && Ended(s.core.runs[t])
  {
    StartsOk();
    ExecKeeps(INITIAL, actions);
    var s := Exec(INITIAL, actions);
    assert StageOk(s.core.runs[t], t, t in s.core.listed, PostsOf(s.posts, t), WorkerPc(s), s.poller);
  }

  /** No ended run is left on the list: the worker is about to post about it or to retire it, or
      the polling thread is. */
  lemma EndedRunsAreInHand(actions: seq<Action>, t: nat)
    requires t in Exec(INITIAL, actions).core.listed
    ensures var s := Exec(INITIAL, actions);
            t < |s.core.runs| && (Ended(s.core.runs[t]) ==>
              || ((WorkerPc(s).Posting? || WorkerPc(s).Retiring?) && WorkerPc(s).run == t)
              || t in Owed(s.poller) || Leaves(s.poller, t))
  {
    StartsOk();
    ExecKeeps(INITIAL, actions);
    var s := Exec(INITIAL, actions);
    assert StageOk(s.core.runs[t], t, true, PostsOf(s.posts, t), WorkerPc(s), s.poller);
  }

  /** Answers, questions and errors are posted in the order their runs were registered. */
  lemma InRegistrationOrder(actions: seq<Action>)
    ensures InOrder(Exec(INITIAL, actions).posts)
  {
    StartsOk();
    ExecKeeps(INITIAL, actions);
  }

  /** While runs are registered a worker is at work, and there is never a second one. */
  lemma OneWorker(actions: seq<Action>)
    ensures var s := Exec(INITIAL, actions);
            && (s.core.listed != [] ==>
                  s.core.worker.Some? && s.core.worker.value in s.threads && !s.threads[s.core.worker.value].Leaving?)
            && forall v, w | v in s.threads && w in s.threads && !s.threads[v].Leaving? && !s.threads[w].Leaving? ::
                 v == w
  {
    StartsOk();
    ExecKeeps(INITIAL, actions);
  }
}
