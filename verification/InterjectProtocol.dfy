/** The account of runner/interject.py against GA's thread. GA reads `intervene`, clears it and
    calls the turn-end hook in three separate steps (managed-ga/code/ga.py); messages arrive at
    any time in between, and a run may end at any time, with GA's callback halfway or its task still
    going on. Every interleaving is a sequence of actions; the invariant holds after all of them. */
module InterjectProtocol {
  import opened Wrappers
  import opened Interject

  /** Where GA's thread is in its turn-end callback. `took` are the messages whose text GA put in
      the next prompt; `live` says that the callback is of the run in progress: false once that run
      has ended, and for a callback of an earlier run's task. */
  datatype Phase =
    | Idle
    | HasRead(injected: Option<string>, took: seq<Id>, live: bool)
    | Cleared(injected: Option<string>, took: seq<Id>, live: bool)
    | LoopOver  // a hook has run that ends the open run before it returns: nothing is read until then

  /** One finished run's ids: accepted, reported read at its steps' ends, put in its own task's
      prompts, returned at its end. */
  datatype RunLog = RunLog(accepted: seq<Id>, reported: seq<Id>, delivered: seq<Id>, returned: seq<Id>)

  datatype Sys = Sys(
    world: World,
    phase: Phase,
    accepted: seq<Id>,
    reported: seq<Id>,
    delivered: seq<Id>,
    runs: seq<RunLog>)

  datatype Action =
    | Send(items: seq<Item>, preamble: string)
    | Read(file: Option<string>, own: bool)
    | Clear
    | Hook(goesOn: bool)
    | EndRun

  const START := Sys(World(NEW_ACCOUNT, None), Idle, [], [], [], [])

  /** What `self.parent.intervene or consume_file(...)` yields. */
  function Taken(cell: Option<string>, file: Option<string>): Option<string> {
    if cell.Some? && cell.value != "" then cell else file
  }

  /** The messages in what GA reads: those of the last text written, if it reads that. */
  function TookNow(w: World): seq<Id> {
    if w.cell.Some? && w.cell.value != "" then Ids(w.account.unread) else []
  }

  function Next(s: Sys, a: Action): Sys {
    match a
    case Send(items, preamble) =>
      var (w, ids) := DoAdd(s.world, items, preamble);
      s.(world := w, accepted := s.accepted + ids)
    case Read(file, own) =>
      if s.phase.Idle? then s.(phase := HasRead(Taken(s.world.cell, file), TookNow(s.world), own)) else s
    case Clear =>
      if s.phase.HasRead? then
        s.(world := s.world.(cell := None), phase := Cleared(s.phase.injected, s.phase.took, s.phase.live))
      else s
    case Hook(goesOn) =>
      if s.phase.Cleared? then
        var (w, read) := DoStepEnded(s.world, s.phase.injected, goesOn);
        s.(world := w, phase := if goesOn || !EndsRun(s) then Idle else LoopOver, reported := s.reported + read,
           delivered := s.delivered + (if goesOn then Mine(s.phase) else []))
      else s
    case EndRun =>
      var (w, ids) := DoTakeUnread(s.world);
      Sys(w, Left(s.phase), [], [], [], s.runs + [RunLog(s.accepted, s.reported, s.delivered, ids)])
  }

  /** The hook of a loop's last call ends whichever run is open: its own, and a run that has accepted
      messages is open too (`ForgottenOnlyAtExit` in BridgeHooks). */
  predicate EndsRun(s: Sys)
    requires s.phase.Cleared?
  {
    s.phase.live || s.accepted != []
  }

  /** The messages a callback took for the run in progress. */
  function Mine(p: Phase): seq<Id> {
    if p.Cleared? && p.live then p.took else []
  }

  /** A callback under way when its run ends goes on. */
  function Left(p: Phase): Phase {
    match p
    case HasRead(injected, took, _) => HasRead(injected, took, false)
    case Cleared(injected, took, _) => Cleared(injected, took, false)
    case _ => Idle
  }

  function Exec(s: Sys, actions: seq<Action>): Sys
    decreases |actions|
  {
    if actions == [] then s else Exec(Next(s, actions[0]), actions[1..])
  }

  ghost predicate NoDup(ids: seq<Id>) {
    forall i, j | 0 <= i < j < |ids| :: ids[i] != ids[j]
  }

  /** `add` weeds out ids taken before, not twice the same id in one batch. */
  ghost predicate DistinctBatches(actions: seq<Action>) {
    forall k | 0 <= k < |actions| && actions[k].Send? :: NoDup(Ids(actions[k].items))
  }

  // ---- the invariant ----

  /** What was written since the last step's end: each text holds a start of what is unread, a
      longer one each time. */
  ghost predicate WrittenGrows(a: Account) {
    && (forall k | 0 <= k < |a.written| ::
          0 < |a.written[k].ids| <= |a.unread| && a.written[k].ids == Ids(a.unread)[..|a.written[k].ids|])
    && (forall j, k | 0 <= j < k < |a.written| :: |a.written[j].ids| < |a.written[k].ids|)
  }

  /** What the account has in `intervene` is the text of all that is unread, and, if it remembers
      any text, the last one. */
  ghost predicate CellHolds(w: World) {
    w.cell.Some? ==>
      && w.account.unread != [] && w.cell.value == Compose(w.account.preamble, Texts(w.account.unread))
      && (w.account.written != [] ==>
            w.account.written[|w.account.written| - 1] == Written(w.cell.value, Ids(w.account.unread)))
  }

  /** What GA took of the run in progress, and has not reported yet, is a text the account remembers. */
  ghost predicate TookIs(a: Account, injected: Option<string>, took: seq<Id>) {
    took != [] ==> injected.Some? && injected.value != "" && OnRecord(a, injected.value, took)
  }

  predicate OnRecord(a: Account, text: string, ids: seq<Id>) {
    Written(text, ids) in a.written
  }

  ghost predicate PhaseOk(s: Sys) {
    match s.phase
    case Idle => true
    case LoopOver => true
    case HasRead(injected, took, live) => live ==> TookIs(s.world.account, injected, took)
    case Cleared(injected, took, live) => live ==> TookIs(s.world.account, injected, took)
  }

  /** The current run's ids: what is unread is what was accepted and not reported yet. */
  ghost predicate IdsOk(a: Account, accepted: seq<Id>, reported: seq<Id>) {
    && NoDup(accepted)
    && accepted == reported + Ids(a.unread)
    && forall id :: id in a.taken <==> id in accepted
  }

  ghost predicate TextsOk(s: Sys) {
    && WrittenGrows(s.world.account) && PhaseOk(s)
    && (s.world.cell.Some? ==> s.world.account.dirty) && CellHolds(s.world)
    && (s.world.cell.Some? && !s.phase.LoopOver? ==> s.world.account.written != [])
  }

  ghost predicate RunsOk(runs: seq<RunLog>) {
    forall k | 0 <= k < |runs| ::
      runs[k].accepted == runs[k].reported + runs[k].returned && NoDup(runs[k].accepted)
  }

  ghost predicate Inv(s: Sys) {
    IdsOk(s.world.account, s.accepted, s.reported) && TextsOk(s) && RunsOk(s.runs)
  }

  // ---- lists ----

  lemma {:induction false} IdsConcat(a: seq<Item>, b: seq<Item>)
    ensures Ids(a + b) == Ids(a) + Ids(b)
  {
  }

  lemma {:induction false} NotTakenIds(items: seq<Item>, taken: set<Id>)
    requires NoDup(Ids(items))
    ensures NoDup(Ids(NotTaken(items, taken)))
    ensures forall id | id in Ids(NotTaken(items, taken)) :: id in Ids(items)
  {
    if items != [] {
      var rest := items[1..];
      assert Ids(rest) == Ids(items)[1..];
      NotTakenIds(rest, taken);
      var added := NotTaken(rest, taken);
      if items[0].id !in taken {
        assert Ids([items[0]] + added) == [items[0].id] + Ids(added);
        assert items[0].id !in Ids(rest);
      } else {
        assert [] + added == added;
      }
    }
  }

  lemma {:induction false} NoneGone(items: seq<Item>, gone: set<Id>)
    requires forall k | 0 <= k < |items| :: items[k].id !in gone
    ensures NotTaken(items, gone) == items
  {
    if items != [] {
      NoneGone(items[1..], gone);
      assert [items[0]] + items[1..] == items;
    }
  }

  /** The first `n` items are those whose ids are gone. */
  ghost predicate FirstGone(items: seq<Item>, n: nat, gone: set<Id>) {
    n <= |items| && forall k | 0 <= k < |items| :: items[k].id in gone <==> k < n
  }

  lemma FirstGoneRest(items: seq<Item>, n: nat, gone: set<Id>)
    requires FirstGone(items, n, gone) && n > 0
    ensures items[0].id in gone && FirstGone(items[1..], n - 1, gone)
  {
    assert items[0].id in gone;
  }

  /** Taking out the first `n` of distinct ids leaves the others. */
  lemma {:induction false} OthersStay(items: seq<Item>, n: nat, gone: set<Id>)
    requires FirstGone(items, n, gone)
    ensures NotTaken(items, gone) == items[n..]
  {
    if n == 0 {
      NoneGone(items, gone);
    } else {
      FirstGoneRest(items, n, gone);
      OthersStay(items[1..], n - 1, gone);
      assert [] + items[1..][n - 1..] == items[n..];
    }
  }

  lemma DistinctFirst(ids: seq<Id>, n: nat, k: nat)
    requires n <= |ids| && NoDup(ids) && k < |ids|
    ensures ids[k] in ids[..n] <==> k < n
  {
    if k < n {
      assert ids[..n][k] == ids[k];
    }
  }

  lemma FirstAreGone(items: seq<Item>, n: nat)
    requires n <= |items| && NoDup(Ids(items))
    ensures FirstGone(items, n, set id | id in Ids(items)[..n])
  {
    var ids := Ids(items);
    var gone := set id | id in ids[..n];
    forall k | 0 <= k < |items| ensures items[k].id in gone <==> k < n {
      DistinctFirst(ids, n, k);
    }
  }

  lemma {:induction false} LatestIsWritten(written: seq<Written>, text: string)
    ensures var ids := LatestWith(written, text);
            ids != [] ==> Written(text, ids) in written
  {
    if written != [] && written[|written| - 1].text != text {
      LatestIsWritten(written[..|written| - 1], text);
    }
  }

  // ---- every action keeps it ----

  /** `_arm` writes everything unread, as the longest text so far. */
  lemma ArmKeeps(w: World)
    requires WrittenGrows(w.account) && (w.cell.Some? ==> w.account.dirty)
    requires forall k | 0 <= k < |w.account.written| :: |w.account.written[k].ids| < |w.account.unread|
    ensures var v := DoArm(w);
            && WrittenGrows(v.account) && CellHolds(v) && (v.cell.Some? ==> v.account.dirty)
            && v.account.unread == w.account.unread && v.account.taken == w.account.taken
            && w.account.written <= v.account.written
  {
    if w.account.unread != [] {
      GrowsByAll(w.account, DoArm(w).account);
    }
  }

  lemma GrowsByAll(a: Account, b: Account)
    requires WrittenGrows(a) && a.unread != [] && b.unread == a.unread
    requires forall k | 0 <= k < |a.written| :: |a.written[k].ids| < |a.unread|
    requires |b.written| == |a.written| + 1 && b.written[..|a.written|] == a.written
    requires b.written[|a.written|].ids == Ids(a.unread)
    ensures WrittenGrows(b)
  {
    var n, ids := |a.written|, Ids(a.unread);
    assert ids[..|ids|] == ids;
    forall k | 0 <= k < n ensures b.written[k] == a.written[k] {
      assert b.written[..n][k] == a.written[k];
    }
  }

  /** The account with `added` taken, before it is written out. */
  function Taking(a: Account, added: seq<Item>, preamble: string): Account {
    a.(taken := a.taken + (set id | id in Ids(added)),
       unread := a.unread + added,
       preamble := if preamble != "" then preamble else a.preamble)
  }

  lemma SendIds(a: Account, accepted: seq<Id>, reported: seq<Id>, items: seq<Item>, preamble: string)
    requires IdsOk(a, accepted, reported) && NoDup(Ids(items))
    ensures var added := NotTaken(items, a.taken);
            IdsOk(Taking(a, added, preamble), accepted + Ids(added), reported)
  {
    var added := NotTaken(items, a.taken);
    var ids := Ids(added);
    NotTakenIds(items, a.taken);
    IdsConcat(a.unread, added);
    Append(reported, Ids(a.unread), ids);
    forall id | id in ids ensures id !in a.taken {
      var k :| 0 <= k < |ids| && ids[k] == id;
      assert added[k].id == id;
    }
    NoDupConcat(accepted, ids);
  }

  lemma Append(a: seq<Id>, b: seq<Id>, c: seq<Id>)
    ensures a + b + c == a + (b + c)
  {
  }

  lemma NoDupConcat(a: seq<Id>, b: seq<Id>)
    requires NoDup(a) && NoDup(b) && forall id | id in b :: id !in a
    ensures NoDup(a + b)
  {
    forall i, j | 0 <= i < j < |a + b| ensures (a + b)[i] != (a + b)[j] {
      if i < |a| && j >= |a| {
        assert b[j - |a|] in b && a[i] in a;
      }
    }
  }

  lemma SendTexts(w: World, added: seq<Item>, preamble: string)
    requires WrittenGrows(w.account) && (w.cell.Some? ==> w.account.dirty) && added != []
    ensures var v := DoArm(w.(account := Taking(w.account, added, preamble)));
            && WrittenGrows(v.account) && CellHolds(v) && (v.cell.Some? ==> v.account.dirty)
            && v.account.unread == w.account.unread + added && w.account.written <= v.account.written
            && v.account.written != []
  {
    var a := w.account;
    IdsConcat(a.unread, added);
    forall k | 0 <= k < |a.written|
      ensures a.written[k].ids == Ids(a.unread + added)[..|a.written[k].ids|]
    {
      assert (Ids(a.unread) + Ids(added))[..|a.written[k].ids|] == Ids(a.unread)[..|a.written[k].ids|];
    }
    ArmKeeps(w.(account := Taking(a, added, preamble)));
  }

  /** What the three operations keep of account and cell, whoever calls them when. */
  ghost predicate AccountOk(w: World, accepted: seq<Id>, reported: seq<Id>) {
    IdsOk(w.account, accepted, reported) && WrittenGrows(w.account) && (w.cell.Some? ==> w.account.dirty)
  }

  lemma AddKeepsAccount(w: World, accepted: seq<Id>, reported: seq<Id>, items: seq<Item>, preamble: string)
    requires AccountOk(w, accepted, reported) && NoDup(Ids(items))
    ensures var (v, ids) := DoAdd(w, items, preamble);
            && AccountOk(v, accepted + ids, reported)
            && w.account.written <= v.account.written && (v == w || v.account.written != [])
            && (CellHolds(w) ==> CellHolds(v))
  {
    var added := NotTaken(items, w.account.taken);
    if added != [] {
      SendIds(w.account, accepted, reported, items, preamble);
      SendTexts(w, added, preamble);
      ArmUnread(w.(account := Taking(w.account, added, preamble)));
    } else {
      assert accepted + [] == accepted;
    }
  }

  lemma ArmUnread(w: World)
    ensures DoArm(w).account.unread == w.account.unread && DoArm(w).account.taken == w.account.taken
  {
  }

  lemma StepEndedKeepsAccount(w: World, accepted: seq<Id>, reported: seq<Id>, injected: Option<string>, goesOn: bool)
    requires AccountOk(w, accepted, reported)
    ensures AccountOk(DoStepEnded(w, injected, goesOn).0, accepted, reported + DoStepEnded(w, injected, goesOn).1)
  {
    var a := w.account;
    var n := |ReadIds(a, injected, goesOn)|;
    UnreadDistinct(a, accepted, reported);
    StepEndedReads(w, injected, goesOn);
    ReadIdsLeft(a, accepted, reported, n);
    ArmKeeps(w.(account := a.(unread := a.unread[n..], written := [])));
  }

  lemma SendKeeps(s: Sys, items: seq<Item>, preamble: string)
    requires Inv(s) && NoDup(Ids(items))
    ensures Inv(Next(s, Send(items, preamble)))
  {
    AddKeepsAccount(s.world, s.accepted, s.reported, items, preamble);
    var r := DoAdd(s.world, items, preamble);
    AddedKeeps(s, r.0, s.accepted + r.1);
  }

  /** More messages leave GA where it is. */
  lemma AddedKeeps(s: Sys, v: World, accepted: seq<Id>)
    requires Inv(s) && AccountOk(v, accepted, s.reported)
    requires CellHolds(v) && s.world.account.written <= v.account.written
    requires v == s.world || v.account.written != []
    ensures Inv(s.(world := v, accepted := accepted))
  {
    if !s.phase.Idle? && !s.phase.LoopOver? && TookIs(s.world.account, s.phase.injected, s.phase.took) {
      TookStays(s.world.account, v.account, s.phase.injected, s.phase.took);
    }
  }

  lemma TookStays(a: Account, b: Account, injected: Option<string>, took: seq<Id>)
    requires TookIs(a, injected, took) && a.written <= b.written
    ensures TookIs(b, injected, took)
  {
    if took != [] {
      var k :| 0 <= k < |a.written| && a.written[k] == Written(injected.value, took);
      assert b.written[k] == a.written[k];
    }
  }

  lemma ReadIdsLeft(a: Account, accepted: seq<Id>, reported: seq<Id>, n: nat)
    requires IdsOk(a, accepted, reported) && n <= |a.unread|
    ensures IdsOk(a.(unread := a.unread[n..], written := []), accepted, reported + Ids(a.unread)[..n])
  {
    var ids := Ids(a.unread);
    assert Ids(a.unread[n..]) == ids[n..];
    assert reported + ids == reported + ids[..n] + ids[n..];
  }

  lemma HookKeeps(s: Sys, goesOn: bool)
    requires Inv(s) && s.phase.Cleared?
    ensures Inv(Next(s, Hook(goesOn)))
  {
    StepEndedKeepsAccount(s.world, s.accepted, s.reported, s.phase.injected, goesOn);
    UnreadDistinct(s.world.account, s.accepted, s.reported);
    StepEndedHolds(s.world, s.phase.injected, goesOn);
  }

  /** A step's end the loop goes on from writes what is unread, another one leaves the cell alone. */
  lemma StepEndedHolds(w: World, injected: Option<string>, goesOn: bool)
    requires NoDup(Ids(w.account.unread)) && WrittenGrows(w.account) && (w.cell.Some? ==> w.account.dirty)
    requires CellHolds(w)
    ensures CellHolds(DoStepEnded(w, injected, goesOn).0)
  {
    var a := w.account;
    StepEndedReads(w, injected, goesOn);
    if goesOn {
      ArmKeeps(w.(account := a.(unread := a.unread[|ReadIds(a, injected, true)|..], written := [])));
    }
  }

  /** What a step's end reports is the first of what is unread, and that is what it takes off. */
  lemma StepEndedReads(w: World, injected: Option<string>, goesOn: bool)
    requires NoDup(Ids(w.account.unread)) && WrittenGrows(w.account)
    ensures var a := w.account;
            var read := ReadIds(a, injected, goesOn);
            && |read| <= |a.unread| && read == Ids(a.unread)[..|read|]
            && DoStepEnded(w, injected, goesOn).0 ==
               (var after := w.(account := a.(unread := a.unread[|read|..], written := []));
                if goesOn then DoArm(after) else after)
  {
    var a := w.account;
    var read := ReadIds(a, injected, goesOn);
    if read != [] {
      LatestIsWritten(a.written, injected.value);
      var k :| 0 <= k < |a.written| && a.written[k] == Written(injected.value, read);
      FirstAreGone(a.unread, |read|);
      OthersStay(a.unread, |read|, set id | id in read);
    } else {
      assert a.unread[0..] == a.unread;
    }
  }

  lemma UnreadDistinct(a: Account, accepted: seq<Id>, reported: seq<Id>)
    requires IdsOk(a, accepted, reported)
    ensures NoDup(Ids(a.unread))
  {
    assert accepted[|reported|..] == Ids(a.unread);
  }

  lemma EndRunKeeps(s: Sys)
    requires Inv(s)
    ensures Inv(Next(s, EndRun))
  {
    UnreadDistinct(s.world.account, s.accepted, s.reported);
    RunsMore(s.runs, RunLog(s.accepted, s.reported, s.delivered, Ids(s.world.account.unread)));
    NewAccountOk(Left(s.phase));
  }

  lemma RunsMore(runs: seq<RunLog>, run: RunLog)
    requires RunsOk(runs) && run.accepted == run.reported + run.returned && NoDup(run.accepted)
    ensures RunsOk(runs + [run])
  {
  }

  lemma NewAccountOk(phase: Phase)
    requires phase.HasRead? || phase.Cleared? ==> !phase.live
    ensures Inv(Sys(World(NEW_ACCOUNT, None), phase, [], [], [], []))
  {
    assert [] + Ids([]) == [];
  }

  lemma NextKeeps(s: Sys, a: Action)
    requires Inv(s) && (a.Send? ==> NoDup(Ids(a.items)))
    ensures Inv(Next(s, a))
  {
    match a
    case Send(items, preamble) => SendKeeps(s, items, preamble);
    case Read(_, _) => if s.phase.Idle? { ReadKeeps(s.world); }
    case Clear =>
    case Hook(goesOn) => if s.phase.Cleared? { HookKeeps(s, goesOn); }
    case EndRun => EndRunKeeps(s);
  }

  /** GA reads the text of all that is unread. */
  lemma ReadKeeps(w: World)
    requires CellHolds(w) && (w.cell.Some? ==> w.account.written != [])
    ensures forall file :: TookIs(w.account, Taken(w.cell, file), TookNow(w))
  {
    if TookNow(w) != [] {
      assert w.account.written[|w.account.written| - 1] in w.account.written;
    }
  }

  lemma StartsOk()
    ensures Inv(START)
  {
    assert [] + Ids([]) == [];
  }

  lemma FirstDistinct(actions: seq<Action>)
    requires actions != [] && DistinctBatches(actions)
    ensures DistinctBatches(actions[1..]) && (actions[0].Send? ==> NoDup(Ids(actions[0].items)))
  {
    assert forall k | 0 <= k < |actions[1..]| :: actions[1..][k] == actions[k + 1];
  }

  lemma {:induction false} ExecKeeps(s: Sys, actions: seq<Action>)
    requires Inv(s) && DistinctBatches(actions)
    ensures Inv(Exec(s, actions))
    decreases |actions|
  {
    if actions != [] {
      FirstDistinct(actions);
      NextKeeps(s, actions[0]);
      ExecKeeps(Next(s, actions[0]), actions[1..]);
    }
  }

  /** Under every interleaving, of each run's accepted ids the ones reported read, then the ones
      returned, are all of them, in the order sent, each once; and so far of the run in progress the
      ones reported, then the ones unread. */
  lemma EveryInterleaving(actions: seq<Action>)
    requires DistinctBatches(actions)
    ensures var s := Exec(START, actions);
            && (forall k | 0 <= k < |s.runs| ::
                  NoDup(s.runs[k].accepted) && s.runs[k].accepted == s.runs[k].reported + s.runs[k].returned)
            && NoDup(s.accepted) && s.accepted == s.reported + Ids(s.world.account.unread)
  {
    StartsOk();
    ExecKeeps(START, actions);
  }

  /** The end of a run hands back exactly what was not reported, and leaves nothing of the
      account in `intervene`. */
  lemma EndRunSettles(s: Sys)
    requires Inv(s)
    ensures var t := Next(s, EndRun);
            && t.runs == s.runs + [RunLog(s.accepted, s.reported, s.delivered, Ids(s.world.account.unread))]
            && s.reported + t.runs[|s.runs|].returned == s.accepted
            && t.world == World(NEW_ACCOUNT, None)
  {
  }

  /** After the hook of a step the loop goes on from, `intervene` holds every message not
      reported, also those GA wiped between its read and its clear. */
  lemma NothingStaysWiped(s: Sys)
    requires Inv(s) && s.phase.Cleared?
    ensures var w := Next(s, Hook(true)).world;
            w.cell == if w.account.unread == [] then None
                      else Some(Compose(w.account.preamble, Texts(w.account.unread)))
  {
    UnreadDistinct(s.world.account, s.accepted, s.reported);
    StepEndedReads(s.world, s.phase.injected, true);
  }

  // ---- what is reported is what GA took ----

  /** Every text written since the last step's end was written with the preamble now in force. */
  ghost predicate Steady(a: Account) {
    forall k | 0 <= k < |a.written| && |a.written[k].ids| <= |a.unread| ::
      a.written[k].text == Compose(a.preamble, Texts(a.unread)[..|a.written[k].ids|])
  }

  /** What is passed to `add` within a step has the preamble of the texts already written. */
  predicate SamePreamble(a: Account, preamble: string) {
    preamble == "" || preamble == a.preamble || a.written == []
  }

  lemma {:induction false} JoinGrows(parts: seq<string>, n: nat)
    requires 0 < n < |parts|
    ensures var a, b := JoinBlank(parts[..n]), JoinBlank(parts);
            |a| < |b| && b[..|a|] == a
    decreases |parts|
  {
    var init := parts[..|parts| - 1];
    var last := parts[|parts| - 1];
    assert JoinBlank(parts) == JoinBlank(init) + "\n\n" + last;
    if n == |parts| - 1 {
      assert JoinBlank(parts)[..|JoinBlank(init)|] == JoinBlank(init);
    } else {
      JoinGrows(init, n);
      assert init[..n] == parts[..n];
      var a := JoinBlank(parts[..n]);
      assert JoinBlank(parts)[..|a|] == JoinBlank(init)[..|a|];
    }
  }

  lemma ComposeGrows(preamble: string, texts: seq<string>, i: nat, j: nat)
    requires 0 < i < j <= |texts|
    ensures var a, b := Compose(preamble, texts[..i]), Compose(preamble, texts[..j]);
            |a| < |b| && b[..|a|] == a
  {
    var head := if preamble != "" then [preamble] else [];
    var parts := head + texts[..j];
    assert parts[..|head| + i] == head + texts[..i];
    JoinGrows(parts, |head| + i);
  }

  /** With one preamble, the texts of a step are pairwise distinct, each the start of the next. */
  lemma TextsGrow(a: Account, j: nat, k: nat)
    requires WrittenGrows(a) && Steady(a) && j < k < |a.written|
    ensures var s, t := a.written[j].text, a.written[k].text;
            |s| < |t| && t[..|s|] == s
  {
    ComposeGrows(a.preamble, Texts(a.unread), |a.written[j].ids|, |a.written[k].ids|);
  }

  /** The search from the latest write back: it finds the write GA read exactly when no later
      write repeats its text. */
  lemma {:induction false} LatestExactly(written: seq<Written>, k: nat)
    requires k < |written|
    requires forall i, j | 0 <= i < j < |written| :: |written[i].ids| < |written[j].ids|
    ensures LatestWith(written, written[k].text) == written[k].ids
            <==> forall j | k < j < |written| :: written[j].text != written[k].text
    decreases |written|
  {
    var n := |written| - 1;
    if k < n {
      if written[n].text == written[k].text {
        assert |written[k].ids| < |written[n].ids|;
      } else {
        LatestExactly(written[..n], k);
        var init := written[..n];
        assert (forall j | k < j < |written| :: written[j].text != written[k].text)
            <==> (forall j | k < j < |init| :: init[j].text != written[k].text) by {
          assert forall j | 0 <= j < n :: init[j] == written[j];
        }
      }
    }
  }

  lemma {:induction false} LatestNone(written: seq<Written>, text: string)
    requires forall k | 0 <= k < |written| :: written[k].text != text
    ensures LatestWith(written, text) == []
  {
    if written != [] {
      LatestNone(written[..|written| - 1], text);
    }
  }

  lemma {:induction false} LatestFinds(written: seq<Written>, k: nat)
    requires k < |written| && forall j | 0 <= j < |written| :: written[j].ids != []
    ensures LatestWith(written, written[k].text) != []
  {
    var n := |written| - 1;
    if k < n && written[n].text != written[k].text {
      LatestFinds(written[..n], k);
    }
  }

  /** At a callback's hook: no text the account remembers, that holds more than the messages the
      callback took for the run in progress, is the text it took. Of a callback that took none, as one
      of an earlier run's task, that is: no text it remembers is. */
  ghost predicate Plain(s: Sys)
    requires s.phase.Cleared?
  {
    var a, injected, mine := s.world.account, s.phase.injected, Mine(s.phase);
    injected.Some? && injected.value != "" ==>
      forall j | 0 <= j < |a.written| && |a.written[j].ids| > |mine| :: a.written[j].text != injected.value
  }

  /** At the end of any step, of whatever run's task and with whatever preambles and texts: the ids
      picked are those of the messages GA took for the run in progress if and only if it is plain. */
  lemma TakenExactly(s: Sys)
    requires Inv(s) && s.phase.Cleared?
    ensures ReadIds(s.world.account, s.phase.injected, true) == Mine(s.phase) <==> Plain(s)
  {
    var a, injected, mine := s.world.account, s.phase.injected, Mine(s.phase);
    if injected.Some? && injected.value != "" {
      if mine == [] {
        NothingTaken(a, injected.value);
      } else {
        SomethingTaken(a, injected.value, mine);
      }
    }
  }

  lemma NothingTaken(a: Account, text: string)
    requires WrittenGrows(a)
    ensures LatestWith(a.written, text) == [] <==> forall j | 0 <= j < |a.written| :: a.written[j].text != text
  {
    if j :| 0 <= j < |a.written| && a.written[j].text == text {
      LatestFinds(a.written, j);
    } else {
      LatestNone(a.written, text);
    }
  }

  lemma SomethingTaken(a: Account, text: string, took: seq<Id>)
    requires WrittenGrows(a) && OnRecord(a, text, took)
    ensures LatestWith(a.written, text) == took <==>
            forall j | 0 <= j < |a.written| && |a.written[j].ids| > |took| :: a.written[j].text != text
  {
    var k :| 0 <= k < |a.written| && a.written[k] == Written(text, took);
    LatestExactly(a.written, k);
    assert forall j | 0 <= j < |a.written| :: |a.written[j].ids| > |took| <==> j > k;
  }

  /** Once nothing is unread the account has cleared what it wrote and has nothing there any more: until
      it takes a message again, a text from elsewhere stays in `intervene`, whatever it is called for. */
  lemma LeavesOthersAlone(w: World, other: string, injected: Option<string>, goesOn: bool)
    requires w.account.unread == []
    ensures var v := DoArm(w);
            && (w.cell.Some? && w.account.dirty ==> v.cell.None?)
            && (var u := v.(cell := Some(other));
                && DoArm(u) == u && DoTakeUnread(u).0.cell == u.cell
                && (ReadIds(u.account, injected, goesOn) == [] ==> DoStepEnded(u, injected, goesOn).0.cell == u.cell))
  {
  }

  /** GA's thread through its callback: it reads the text in `intervene`, or out of its file if that is
      empty, clears, and calls the hook, one after the other, whatever happens to the run meanwhile. */
  lemma CallbackExactly(s: Sys, a: Action)
    ensures var p, q := s.phase, Next(s, a).phase;
            q ==
            match a
            case Send(_, _) => p
            case Read(file, own) =>
              if !p.Idle? then p
              else if s.world.cell.Some? && s.world.cell.value != ""
              then HasRead(s.world.cell, Ids(s.world.account.unread), own) else HasRead(file, [], own)
            case Clear => if p.HasRead? then Cleared(p.injected, p.took, p.live) else p
            case Hook(goesOn) =>
              if !p.Cleared? then p else if !goesOn && (p.live || s.accepted != []) then LoopOver else Idle
            case EndRun =>
              if p.HasRead? then HasRead(p.injected, p.took, false)
              else if p.Cleared? then Cleared(p.injected, p.took, false) else Idle
  {
  }

  // ---- over every interleaving ----

  /** What a hook reports read, and what its callback put in a prompt of the run in progress. */
  function Reports(s: Sys, a: Action): seq<Id> {
    if a.Hook? && s.phase.Cleared? then ReadIds(s.world.account, s.phase.injected, a.goesOn) else []
  }

  function Delivers(s: Sys, a: Action): seq<Id> {
    if a.Hook? && a.goesOn then Mine(s.phase) else []
  }

  lemma ReportsAdd(s: Sys, a: Action)
    requires !a.EndRun?
    ensures var t := Next(s, a);
            t.reported == s.reported + Reports(s, a) && t.delivered == s.delivered + Delivers(s, a) && t.runs == s.runs
  {
  }

  /** Every hook reports what its callback delivered. */
  ghost predicate AllTruthful(s: Sys, actions: seq<Action>)
    decreases |actions|
  {
    actions == [] || (Reports(s, actions[0]) == Delivers(s, actions[0]) && AllTruthful(Next(s, actions[0]), actions[1..]))
  }

  ghost predicate PlainAt(s: Sys, a: Action) {
    a.Hook? && a.goesOn && s.phase.Cleared? ==> Plain(s)
  }

  ghost predicate AllPlain(s: Sys, actions: seq<Action>)
    decreases |actions|
  {
    actions == [] || (PlainAt(s, actions[0]) && AllPlain(Next(s, actions[0]), actions[1..]))
  }

  lemma TruthfulAt(s: Sys, a: Action)
    requires Inv(s)
    ensures Reports(s, a) == Delivers(s, a) <==> PlainAt(s, a)
  {
    if s.phase.Cleared? { TakenExactly(s); }
  }

  lemma {:induction false} TruthfulFrom(s: Sys, actions: seq<Action>)
    requires Inv(s) && DistinctBatches(actions)
    ensures AllTruthful(s, actions) <==> AllPlain(s, actions)
    decreases |actions|
  {
    if actions != [] {
      FirstDistinct(actions);
      TruthfulAt(s, actions[0]);
      NextKeeps(s, actions[0]);
      TruthfulFrom(Next(s, actions[0]), actions[1..]);
    }
  }

  ghost predicate Even(s: Sys) {
    s.reported == s.delivered && forall k | 0 <= k < |s.runs| :: s.runs[k].reported == s.runs[k].delivered
  }

  lemma {:induction false} TruthfulIsEven(s: Sys, actions: seq<Action>)
    requires Even(s) && AllTruthful(s, actions)
    ensures Even(Exec(s, actions))
    decreases |actions|
  {
    if actions != [] {
      if !actions[0].EndRun? { ReportsAdd(s, actions[0]); }
      TruthfulIsEven(Next(s, actions[0]), actions[1..]);
    }
  }

  /** Over every interleaving: each step reports exactly the messages its callback put in a prompt of
      the run in progress if and only if every hook is plain; and then each run's reported ids are
      those of the messages its task was given. */
  lemma ReportedIsDelivered(actions: seq<Action>)
    requires DistinctBatches(actions)
    ensures AllTruthful(START, actions) <==> AllPlain(START, actions)
    ensures AllPlain(START, actions) ==> Even(Exec(START, actions))
  {
    StartsOk();
    TruthfulFrom(START, actions);
    if AllPlain(START, actions) { TruthfulIsEven(START, actions); }
  }

  // ---- with one preamble ----

  /** With one preamble in its step a hook is plain exactly if its callback took messages of the run in
      progress, or no text the account remembers is the one it took: not from GA's own `_intervene`
      file, and not as an earlier run's. */
  lemma SteadyIsPlain(s: Sys)
    requires Inv(s) && Steady(s.world.account) && s.phase.Cleared?
    ensures Plain(s) <==> Mine(s.phase) != [] || Unwritten(s.world.account, s.phase.injected)
  {
    if Mine(s.phase) != [] {
      NoneLaterSays(s.world.account, s.phase.injected.value, Mine(s.phase));
    } else {
      assert forall j | 0 <= j < |s.world.account.written| :: |s.world.account.written[j].ids| > 0;
    }
  }

  lemma NoneLaterSays(a: Account, text: string, ids: seq<Id>)
    requires WrittenGrows(a) && Steady(a) && OnRecord(a, text, ids)
    ensures forall j | 0 <= j < |a.written| && |a.written[j].ids| > |ids| :: a.written[j].text != text
  {
    var k :| 0 <= k < |a.written| && a.written[k] == Written(text, ids);
    forall j | 0 <= j < |a.written| && |a.written[j].ids| > |ids| ensures a.written[j].text != text {
      assert j > k;
      TextsGrow(a, k, j);
    }
  }

  ghost predicate Unwritten(a: Account, text: Option<string>) {
    text.Some? && text.value != "" ==> forall k | 0 <= k < |a.written| :: a.written[k].text != text.value
  }

  ghost predicate SteadySend(s: Sys, a: Action) {
    a.Send? ==> NoDup(Ids(a.items)) && SamePreamble(s.world.account, a.preamble)
  }

  ghost predicate AllSteady(s: Sys, actions: seq<Action>)
    decreases |actions|
  {
    actions == [] || (SteadySend(s, actions[0]) && AllSteady(Next(s, actions[0]), actions[1..]))
  }

  /** A callback that took nothing for the run in progress took no text that the account remembers. */
  ghost predicate FreshAt(s: Sys, a: Action) {
    a.Hook? && a.goesOn && s.phase.Cleared? && Mine(s.phase) == [] ==> Unwritten(s.world.account, s.phase.injected)
  }

  ghost predicate AllFresh(s: Sys, actions: seq<Action>)
    decreases |actions|
  {
    actions == [] || (FreshAt(s, actions[0]) && AllFresh(Next(s, actions[0]), actions[1..]))
  }

  lemma ArmSteady(w: World)
    requires WrittenGrows(w.account) && Steady(w.account)
    requires forall k | 0 <= k < |w.account.written| :: |w.account.written[k].ids| < |w.account.unread|
    ensures Steady(DoArm(w).account)
  {
    var texts := Texts(w.account.unread);
    assert texts[..|texts|] == texts;
  }

  lemma {:induction false} TextsConcat(a: seq<Item>, b: seq<Item>)
    ensures Texts(a + b) == Texts(a) + Texts(b)
  {
  }

  lemma SendSteady(w: World, added: seq<Item>, preamble: string)
    requires WrittenGrows(w.account) && Steady(w.account) && SamePreamble(w.account, preamble) && added != []
    ensures Steady(DoArm(w.(account := Taking(w.account, added, preamble))).account)
  {
    TakingSteady(w.account, added, preamble);
    ArmSteady(w.(account := Taking(w.account, added, preamble)));
  }

  lemma TakingSteady(a: Account, added: seq<Item>, preamble: string)
    requires WrittenGrows(a) && Steady(a) && SamePreamble(a, preamble) && added != []
    ensures var more := Taking(a, added, preamble);
            && WrittenGrows(more) && Steady(more)
            && forall k | 0 <= k < |more.written| :: |more.written[k].ids| < |more.unread|
  {
    var more := Taking(a, added, preamble);
    forall k | 0 <= k < |a.written|
      ensures a.written[k].ids == Ids(more.unread)[..|a.written[k].ids|]
      ensures Texts(more.unread)[..|a.written[k].ids|] == Texts(a.unread)[..|a.written[k].ids|]
    {
      StartStays(a.unread, added, |a.written[k].ids|);
    }
  }

  lemma StartStays(items: seq<Item>, added: seq<Item>, n: nat)
    requires n <= |items|
    ensures Ids(items + added)[..n] == Ids(items)[..n] && Texts(items + added)[..n] == Texts(items)[..n]
  {
    IdsConcat(items, added);
    TextsConcat(items, added);
    assert (Ids(items) + Ids(added))[..n] == Ids(items)[..n];
    assert (Texts(items) + Texts(added))[..n] == Texts(items)[..n];
  }

  lemma AddSteady(w: World, items: seq<Item>, preamble: string)
    requires WrittenGrows(w.account) && Steady(w.account) && SamePreamble(w.account, preamble)
    ensures Steady(DoAdd(w, items, preamble).0.account)
  {
    var added := NotTaken(items, w.account.taken);
    if added != [] {
      SendSteady(w, added, preamble);
      assert DoAdd(w, items, preamble).0 == DoArm(w.(account := Taking(w.account, added, preamble)));
    }
  }

  lemma StepEndedSteady(w: World, injected: Option<string>, goesOn: bool)
    requires NoDup(Ids(w.account.unread)) && WrittenGrows(w.account)
    ensures Steady(DoStepEnded(w, injected, goesOn).0.account)
  {
    var a := w.account;
    StepEndedReads(w, injected, goesOn);
    ArmSteady(w.(account := a.(unread := a.unread[|ReadIds(a, injected, goesOn)|..], written := [])));
  }

  lemma HookSteady(s: Sys, goesOn: bool)
    requires Inv(s) && s.phase.Cleared?
    ensures Steady(Next(s, Hook(goesOn)).world.account)
  {
    UnreadDistinct(s.world.account, s.accepted, s.reported);
    StepEndedSteady(s.world, s.phase.injected, goesOn);
  }

  lemma SteadyKeeps(s: Sys, a: Action)
    requires Inv(s) && Steady(s.world.account) && SteadySend(s, a)
    ensures Inv(Next(s, a)) && Steady(Next(s, a).world.account) && (PlainAt(s, a) <==> FreshAt(s, a))
  {
    NextKeeps(s, a);
    match a
    case Send(items, preamble) => AddSteady(s.world, items, preamble);
    case Hook(goesOn) =>
      if s.phase.Cleared? {
        HookSteady(s, goesOn);
        SteadyIsPlain(s);
      }
    case Read(_, _) =>
    case Clear =>
    case EndRun =>
  }

  lemma {:induction false} SteadyFrom(s: Sys, actions: seq<Action>)
    requires Inv(s) && Steady(s.world.account) && AllSteady(s, actions)
    ensures (AllPlain(s, actions) <==> AllFresh(s, actions)) && DistinctBatches(actions)
    decreases |actions|
  {
    if actions != [] {
      SteadyKeeps(s, actions[0]);
      SteadyFrom(Next(s, actions[0]), actions[1..]);
      assert forall k | 0 < k < |actions| :: actions[k] == actions[1..][k - 1];
    }
  }

  /** What the user is told GA read is what GA read: over every interleaving with one preamble in each
      step, every report is true if and only if no callback takes a text, of an earlier run or out of
      GA's own file, that is also written in the run in progress. */
  lemma SteadyReports(actions: seq<Action>)
    requires AllSteady(START, actions)
    ensures AllTruthful(START, actions) <==> AllFresh(START, actions)
    ensures AllFresh(START, actions) ==> Even(Exec(START, actions))
  {
    StartsOk();
    SteadyFrom(START, actions);
    ReportedIsDelivered(actions);
  }

  // ---- a preamble that changes ----

  const FIRST := [Item("a", "t")]
  const SECOND := [Item("b", "t")]
  const LONG := "P\n\nt"
  const BOTH := "P\n\nt\n\nt"

  lemma SameText()
    ensures Compose(LONG, ["t"]) == BOTH && Compose("P", ["t", "t"]) == BOTH
  {
    var long, both := [LONG] + ["t"], ["P"] + ["t", "t"];
    assert long[..1] == [LONG] && both[..2] == ["P", "t"] && ["P", "t"][..1] == ["P"];
    assert JoinBlank(["P", "t"]) == "P" + "\n\n" + "t" == LONG;
    assert JoinBlank(long) == LONG + "\n\n" + "t" == BOTH;
    assert JoinBlank(both) == LONG + "\n\n" + "t" == BOTH;
  }

  lemma ListsAre()
    ensures Ids(FIRST) == ["a"] && Ids(SECOND) == ["b"] && Ids(FIRST + SECOND) == ["a", "b"]
    ensures Texts(FIRST) == ["t"] && Texts(FIRST + SECOND) == ["t", "t"]
    ensures NotTaken(FIRST, {}) == FIRST && NotTaken(SECOND, {"a"}) == SECOND
  {
  }

  lemma FirstSent(w: World)
    requires w == World(NEW_ACCOUNT, None)
    ensures DoAdd(w, FIRST, LONG) == (World(Account(FIRST, LONG, {"a"}, [Written(BOTH, ["a"])], true), Some(BOTH)), ["a"])
  {
    ListsAre();
    assert [] + FIRST == FIRST;
    assert {} + (set id | id in ["a"]) == {"a"};
    FirstArmed(World(Account(FIRST, LONG, {"a"}, [], false), None));
  }

  lemma FirstArmed(w: World)
    requires w == World(Account(FIRST, LONG, {"a"}, [], false), None)
    ensures DoArm(w) == World(Account(FIRST, LONG, {"a"}, [Written(BOTH, ["a"])], true), Some(BOTH))
  {
    ListsAre();
    SameText();
    assert [] + [Written(BOTH, ["a"])] == [Written(BOTH, ["a"])];
  }

  lemma SecondSent(w: World)
    requires w == World(Account(FIRST, LONG, {"a"}, [Written(BOTH, ["a"])], true), Some(BOTH))
    ensures var (v, ids) := DoAdd(w, SECOND, "P");
            ids == ["b"] && v.account.written == [Written(BOTH, ["a"]), Written(BOTH, ["a", "b"])]
  {
    ListsAre();
    SameText();
  }

  lemma HookReports(s: Sys)
    requires s.phase == Cleared(Some(BOTH), ["a"], true) && s.reported == [] && s.delivered == []
    requires s.world.account.written == [Written(BOTH, ["a"]), Written(BOTH, ["a", "b"])]
    ensures var t := Next(s, Hook(true)); t.delivered == ["a"] && t.reported == ["a", "b"]
  {
    assert LatestWith(s.world.account.written, BOTH) == ["a", "b"];
    assert BOTH != "";
  }

  lemma ReadsFirst(s: Sys)
    requires s.phase == Idle
    requires s.world == World(Account(FIRST, LONG, {"a"}, [Written(BOTH, ["a"])], true), Some(BOTH))
    ensures Next(s, Read(None, true)) == s.(phase := HasRead(Some(BOTH), ["a"], true))
  {
    ListsAre();
    assert BOTH != "";
  }

  /** Why the preamble must not change within a step: the text of the second write is then the
      one GA has already read, and a message GA never had is reported read. */
  lemma PreambleChangeMisreports()
    ensures var s1 := Next(START, Send(FIRST, LONG));
            var s2 := Next(s1, Read(None, true));
            var s3 := Next(s2, Send(SECOND, "P"));
            var s5 := Next(Next(s3, Clear), Hook(true));
            s5.delivered == ["a"] && s5.reported == ["a", "b"]
  {
    FirstSent(START.world);
    var s1 := Next(START, Send(FIRST, LONG));
    ReadsFirst(s1);
    var s2 := Next(s1, Read(None, true));
    SecondSent(s2.world);
    HookReports(Next(Next(s2, Send(SECOND, "P")), Clear));
  }

  // ---- a callback of an earlier run ----

  function Holding(id: Id): World {
    World(Account([Item(id, "t")], "", {id}, [Written("t", [id])], true), Some("t"))
  }

  lemma OneSent(id: Id)
    ensures DoAdd(START.world, [Item(id, "t")], "") == (Holding(id), [id])
  {
    var items := [Item(id, "t")];
    assert items[1..] == [] && NotTaken(items, {}) == items;
    assert Ids(items) == [id] && Texts(items) == ["t"] && Compose("", ["t"]) == "t" by {
      assert [] + ["t"] == ["t"];
    }
    assert [] + items == items && {} + (set i | i in [id]) == {id};
    assert [] + [Written("t", [id])] == [Written("t", [id])];
  }

  lemma HoldingIds(id: Id)
    ensures Ids(Holding(id).account.unread) == [id] && "t" != ""
    ensures LatestWith(Holding(id).account.written, "t") == [id]
    ensures NotTaken(Holding(id).account.unread, set i | i in [id]) == []
  {
    assert [Item(id, "t")][1..] == [];
  }

  /** A run's end between GA's callback and its hook, and the next run's message in the same words:
      the hook reports it read, though GA was given the message of the run before, and it is not in
      `intervene` any more. There was no preamble at all. */
  lemma StaleHookMisreports()
    ensures var s2 := Next(Next(START, Send([Item("a", "t")], "")), Read(None, true));
            var s4 := Next(Next(s2, Clear), EndRun);
            var s5 := Next(s4, Send([Item("b", "t")], ""));
            var s6 := Next(s5, Hook(true));
            && s4.runs[0].returned == ["a"] && s5.accepted == ["b"]
            && s6.reported == ["b"] && s6.delivered == []
            && s6.world.account.unread == [] && s6.world.cell == None
  {
    StaleTaken();
    StaleHook(Sys(START.world, Cleared(Some("t"), ["a"], false), [], [], [], [RunLog(["a"], [], [], ["a"])]));
  }

  lemma StaleTaken()
    ensures var s2 := Next(Next(START, Send([Item("a", "t")], "")), Read(None, true));
            Next(Next(s2, Clear), EndRun) ==
            Sys(World(NEW_ACCOUNT, None), Cleared(Some("t"), ["a"], false), [], [], [], [RunLog(["a"], [], [], ["a"])])
  {
    OneSent("a");
    HoldingIds("a");
    assert [] + ["a"] == ["a"];
    var s2 := Next(Next(START, Send([Item("a", "t")], "")), Read(None, true));
    assert s2 == Sys(Holding("a"), HasRead(Some("t"), ["a"], true), ["a"], [], [], []);
    var s3 := Next(s2, Clear);
    assert s3 == Sys(World(Holding("a").account, None), Cleared(Some("t"), ["a"], true), ["a"], [], [], []);
  }

  lemma StaleHook(s: Sys)
    requires s.world == START.world && s.phase == Cleared(Some("t"), ["a"], false)
    requires s.accepted == s.reported == s.delivered == []
    ensures var s5 := Next(s, Send([Item("b", "t")], ""));
            var s6 := Next(s5, Hook(true));
            && s5.accepted == ["b"] && s6.reported == ["b"] && s6.delivered == []
            && s6.world.account.unread == [] && s6.world.cell == None
  {
    NextIsSent(s);
    HoldingIds("b");
  }

  lemma NextIsSent(s: Sys)
    requires s.world == START.world && s.accepted == []
    ensures Next(s, Send([Item("b", "t")], "")) == s.(world := Holding("b"), accepted := ["b"])
  {
    OneSent("b");
    assert [] + ["b"] == ["b"];
  }
}
