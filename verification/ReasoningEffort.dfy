/** Reasoning effort: a session's override is replayed onto whichever backend object is live, and
    what that object carried before is kept by its id, so that clearing the override restores it.
    runner/workbench_bridge.py and runner/ga_session.py. */
module ReasoningEffort {
  import opened Wrappers

  type Effort = Option<string>

  const TIERS := {"none", "minimal", "low", "medium", "high", "xhigh", "max"}

  /** A backend object: its `id()`, the effort it carries, and whether it refuses the attribute. */
  datatype Cell = Cell(addr: nat, effort: Effort, refuses: bool)

  /** The bridge's part, and the live backend if there is one. */
  datatype Local = Local(override: Effort, memo: map<nat, Effort>, live: Option<Cell>)

  /** `_apply_reasoning_effort`. */
  function Apply(l: Local): Local {
    if l.live.None? then l
    else
      var cell := l.live.value;
      var memo := if cell.addr in l.memo then l.memo else l.memo[cell.addr := cell.effort];
      var target := if l.override.Some? then l.override else memo[cell.addr];
      l.(memo := memo, live := Some(if cell.refuses then cell else cell.(effort := target)))
  }

  class Backend {
    const addr: nat
    const refuses: bool
    var effort: Effort

    constructor (addr: nat, refuses: bool, effort: Effort)
      ensures this.addr == addr && this.refuses == refuses && this.effort == effort
    {
      this.addr, this.refuses, this.effort := addr, refuses, effort;
    }
  }

  class EffortReplay {
    var override: Effort
    var memo: map<nat, Effort>
    var live: Backend?
    var errors: nat

    ghost function View(): Local
      reads this, live
    {
      Local(override, memo, if live == null then None else Some(Cell(live.addr, live.effort, live.refuses)))
    }

    constructor (override: Effort)
      ensures View() == Local(override, map[], None) && errors == 0
    {
      this.override, memo, live, errors := override, map[], null, 0;
    }

    /** What the live backend carries now, and what it carried before Galley wrote to it. An error
        is reported when there is no backend to carry an override, or it refuses. */
    method ApplyReasoningEffort() returns (effective: Effort, configured: Effort)
      modifies this`memo, this`errors, live
      ensures View() == Apply(old(View()))
      ensures live == null ==> effective == None && configured == None
      ensures live != null ==> effective == live.effort && live.addr in memo && configured == memo[live.addr]
      ensures errors == old(errors) + (if (live == null && override.Some?) || (live != null && live.refuses) then 1 else 0)
    {
      if live == null {
        if override.Some? {
          errors := errors + 1;
        }
        return None, None;
      }
      if live.addr !in memo {
        memo := memo[live.addr := live.effort];
      }
      configured := memo[live.addr];
      var target := if override.Some? then override else configured;
      if live.refuses {
        errors := errors + 1;
      } else {
        live.effort := target;
      }
      effective := live.effort;
    }

    /** `_handle_set_reasoning_effort`. */
    method SetReasoningEffort(value: Effort)
      modifies this`override, this`memo, this`errors, live
      ensures value.Some? && value.value !in TIERS ==> View() == old(View()) && errors == old(errors) + 1
      ensures !(value.Some? && value.value !in TIERS) ==> View() == Apply(old(View()).(override := value))
    {
      if value.Some? && value.value !in TIERS {
        errors := errors + 1;
        return;
      }
      override := value;
      var _, _ := ApplyReasoningEffort();
    }
  }

  // ---- over time ----

  /** A backend object over its life: what its model's configuration gave it; what it carried when
      Galley first wrote to it, if it has; and whether GA changed it before that. */
  datatype Object = Object(cell: Cell, made: Effort, before: Option<Effort>, gaFirst: bool)

  /** A replay looks up the live backend for its id, for what it carries and to write to it; in
      between GA's thread may put another one there. */
  datatype Place =
    | Rest
    | HasId(addr: nat)
    | HasTarget(addr: nat, target: Effort)

  /** What the live backend carried when a replay had taken the id `addr`. */
  datatype Sight = Sight(addr: nat, carried: Effort)

  /** Every backend object ever made, which of them is live, the bridge's part, where its replay is,
      what its replays saw, in order, and whether GA has never come between the steps of one. */
  datatype World = World(
    objects: seq<Object>,
    live: Option<nat>,
    override: Effort,
    memo: map<nat, Effort>,
    place: Place,
    seen: seq<Sight>,
    calm: bool)

  datatype Action =
    | Set(value: Effort)                                  // set or clear the override, and replay
    | Replay                                              // any other call of the replay
    | Keep                                                // its second look: the memo and the target
    | Write                                               // its third look
    | Rebuild(addr: nat, made: Effort, refuses: bool)     // GA makes a new backend, and it is live
    | Switch(index: nat)                                  // GA goes to one it has made
    | Unplug                                              // GA has no client
    | GaWrites(value: Effort)                             // the user's `/session.reasoning_effort=`

  const START := World([], None, None, map[], Rest, [], true)

  predicate LiveOk(w: World) {
    w.live.Some? ==> w.live.value < |w.objects|
  }

  function LocalOf(w: World): Local
    requires LiveOk(w)
  {
    Local(w.override, w.memo, if w.live.None? then None else Some(w.objects[w.live.value].cell))
  }

  /** The first look: nothing more without a backend. */
  function Begin(w: World): World
    requires LiveOk(w)
  {
    if w.live.None? then w else w.(place := HasId(w.objects[w.live.value].cell.addr))
  }

  /** The second, needed only if nothing is kept under the id, and what is to be written. */
  function KeepNow(w: World): World
    requires LiveOk(w) && w.place.HasId?
  {
    var addr := w.place.addr;
    var carried := if w.live.None? then None else w.objects[w.live.value].cell.effort;
    var memo := if addr in w.memo then w.memo else w.memo[addr := carried];
    w.(memo := memo, seen := w.seen + [Sight(addr, carried)],
       place := HasTarget(addr, if w.override.Some? then w.override else memo[addr]))
  }

  function Written(o: Object, target: Effort): Object {
    o.(cell := if o.cell.refuses then o.cell else o.cell.(effort := target),
       before := if o.before.None? then Some(o.cell.effort) else o.before)
  }

  /** The third. */
  function WriteNow(w: World): World
    requires LiveOk(w) && w.place.HasTarget?
  {
    w.(place := Rest,
       objects := if w.live.None? then w.objects
                  else w.objects[w.live.value := Written(w.objects[w.live.value], w.place.target)])
  }

  predicate ByGa(a: Action) {
    a.Rebuild? || a.Switch? || a.Unplug? || a.GaWrites?
  }

  function GaActs(w: World, a: Action): (v: World)
    requires LiveOk(w) && ByGa(a)
    ensures LiveOk(v)
  {
    match a
    case Rebuild(addr, made, refuses) =>
      w.(objects := w.objects + [Object(Cell(addr, made, refuses), made, None, false)], live := Some(|w.objects|))
    case Switch(index) => if index < |w.objects| then w.(live := Some(index)) else w
    case Unplug => w.(live := None)
    case GaWrites(value) =>
      if w.live.None? then w
      else
        var o := w.objects[w.live.value];
        w.(objects := w.objects[w.live.value :=
             o.(cell := o.cell.(effort := value), gaFirst := o.gaFirst || o.before.None?)])
  }

  function Next(w: World, a: Action): (v: World)
    requires LiveOk(w)
    ensures LiveOk(v)
  {
    if ByGa(a) then GaActs(w, a).(calm := w.calm && w.place.Rest?)
    else
      match a
      case Set(value) =>
        if !w.place.Rest? || (value.Some? && value.value !in TIERS) then w else Begin(w.(override := value))
      case Replay => if w.place.Rest? then Begin(w) else w
      case Keep => if w.place.HasId? then KeepNow(w) else w
      case Write => if w.place.HasTarget? then WriteNow(w) else w
  }

  function Exec(w: World, actions: seq<Action>): (v: World)
    requires LiveOk(w)
    ensures LiveOk(v)
    decreases |actions|
  {
    if actions == [] then w else Exec(Next(w, actions[0]), actions[1..])
  }

  /** What GA does to the backends: a new one is live, one it has made becomes live, none is, or the live
      one is given a value; and it never touches the bridge's part. */
  lemma GaExactly(w: World, a: Action)
    requires LiveOk(w) && ByGa(a)
    ensures var v := Next(w, a);
            && v.override == w.override && v.memo == w.memo && v.place == w.place && v.seen == w.seen
            && v.calm == (w.calm && w.place.Rest?)
            && match a
               case Rebuild(addr, made, refuses) =>
                 && |v.objects| == |w.objects| + 1 && v.objects[..|w.objects|] == w.objects && v.live == Some(|w.objects|)
                 && v.objects[|w.objects|] == Object(Cell(addr, made, refuses), made, None, false)
               case Switch(index) =>
                 v.objects == w.objects && v.live == (if index < |w.objects| then Some(index) else w.live)
               case Unplug => v.objects == w.objects && v.live.None?
               case GaWrites(value) =>
                 && v.live == w.live && |v.objects| == |w.objects|
                 && forall k | 0 <= k < |w.objects| ::
                      var o, p := w.objects[k], v.objects[k];
                      if w.live == Some(k)
                      then p == o.(cell := o.cell.(effort := value), gaFirst := o.gaFirst || o.before.None?) else p == o
  {
  }

  /** A set of none of the tiers changes nothing; another one, and a clear, is the override from then on,
      and is replayed if there is a backend. */
  lemma SetExactly(w: World, value: Effort)
    requires LiveOk(w) && w.place.Rest?
    ensures var v := Next(w, Set(value));
            if value.Some? && value.value !in {"none", "minimal", "low", "medium", "high", "xhigh", "max"} then v == w
            else
              && v.override == value && v.memo == w.memo && v.objects == w.objects && v.live == w.live
              && v.place == if w.live.Some? then HasId(w.objects[w.live.value].cell.addr) else Rest
  {
  }

  /** With nothing in between, the steps of a replay are `_apply_reasoning_effort` at once. */
  lemma StepsAreApply(w: World)
    requires LiveOk(w) && w.place.Rest?
    ensures var v := Next(Next(Next(w, Replay), Keep), Write);
            LocalOf(v) == Apply(LocalOf(w)) && v.place.Rest?
  {
  }

  // ---- what is kept under an id ----

  /** What the live backend carried at the first replay that took this id. */
  function FirstSeen(seen: seq<Sight>, addr: nat): Option<Effort> {
    if seen == [] then None
    else
      var earlier := FirstSeen(seen[..|seen| - 1], addr);
      var last := seen[|seen| - 1];
      if earlier.Some? then earlier
      else if last.addr == addr then Some(last.carried)
      else None
  }

  lemma SeenMore(seen: seq<Sight>, sight: Sight, addr: nat)
    ensures var first := FirstSeen(seen, addr);
            FirstSeen(seen + [sight], addr) ==
            if first.None? && sight.addr == addr then Some(sight.carried) else first
  {
    assert (seen + [sight])[..|seen|] == seen;
  }

  /** Until Galley writes to it, an object carries what it was made with, unless GA itself changed
      it. */
  predicate ObjectOk(o: Object) {
    o.gaFirst || (if o.before.None? then o.cell.effort == o.made else o.before.value == o.made)
  }

  predicate MemoIs(w: World, addr: nat) {
    match FirstSeen(w.seen, addr)
    case None => addr !in w.memo
    case Some(carried) => addr in w.memo && w.memo[addr] == carried
  }

  predicate TargetOk(w: World) {
    w.place.HasTarget? ==>
      && FirstSeen(w.seen, w.place.addr).Some?
      && w.place.target == (if w.override.Some? then w.override else FirstSeen(w.seen, w.place.addr).value)
  }

  /** As long as GA has not come between, the id a replay has taken is that of the live backend. */
  predicate OwnId(w: World)
    requires LiveOk(w)
  {
    w.calm && !w.place.Rest? ==> w.live.Some? && w.place.addr == w.objects[w.live.value].cell.addr
  }

  ghost predicate Inv(w: World) {
    && LiveOk(w) && TargetOk(w) && OwnId(w)
    && (forall k | 0 <= k < |w.objects| :: ObjectOk(w.objects[k]))
    && forall addr :: MemoIs(w, addr)
  }

  lemma KeepKeeps(w: World)
    requires Inv(w) && w.place.HasId?
    ensures Inv(KeepNow(w))
  {
    var v := KeepNow(w);
    forall addr ensures MemoIs(v, addr) {
      assert MemoIs(w, addr);
      SeenMore(w.seen, v.seen[|w.seen|], addr);
    }
    assert MemoIs(v, w.place.addr);
    SeenMore(w.seen, v.seen[|w.seen|], w.place.addr);
  }

  /** All but the second look leave the memo alone. */
  lemma SameMemo(w: World, v: World)
    requires Inv(w) && v.memo == w.memo && v.seen == w.seen
    ensures forall addr :: MemoIs(v, addr)
  {
    forall addr ensures MemoIs(v, addr) {
      assert MemoIs(w, addr);
    }
  }

  lemma OthersKeep(w: World, a: Action)
    requires Inv(w) && !(a.Keep? && w.place.HasId?)
    ensures Inv(Next(w, a))
  {
    var v := Next(w, a);
    SameMemo(w, v);
    forall k | 0 <= k < |v.objects| ensures ObjectOk(v.objects[k]) {
      assert k < |w.objects| ==> ObjectOk(w.objects[k]);
    }
  }

  /** Over every sequence of sets, clears, switches, rebuilds, writes of GA and steps of replays: what
      is kept under an id is what the live backend carried at the first replay that took that id. */
  lemma {:induction false} MemoIsWhatWas(w: World, actions: seq<Action>)
    requires Inv(w)
    ensures Inv(Exec(w, actions))
    decreases |actions|
  {
    if actions != [] {
      var a := actions[0];
      if a.Keep? && w.place.HasId? { KeepKeeps(w); } else { OthersKeep(w, a); }
      MemoIsWhatWas(Next(w, a), actions[1..]);
    }
  }

  lemma StartsOk()
    ensures Inv(START)
  {
  }

  // ---- what a replay gives ----

  /** Over every sequence, ids reused or not, GA between the steps or not: a replay gives the backend
      it writes to, unless that refuses, the override, if one is set; and without one it gives it back
      what it carried before Galley exactly if the first replay that took the id this one took had
      seen the same carried. That is its own id, if GA has never come between the steps. */
  lemma RestoredExactly(actions: seq<Action>)
    requires var w := Exec(START, actions);
             w.place.HasTarget? && w.live.Some?
    ensures var w := Exec(START, actions);
            var o, p := Next(w, Write).objects[w.live.value], w.objects[w.live.value];
            && o.before.Some? && FirstSeen(w.seen, w.place.addr).Some?
            && (w.calm ==> w.place.addr == o.cell.addr)
            && (p.cell.refuses ==> o.cell == p.cell)
            && (!p.cell.refuses && w.override.Some? ==> o.cell.effort == w.override)
            && (!p.cell.refuses && w.override.None? ==>
                 (o.cell.effort == o.before.value <==> FirstSeen(w.seen, w.place.addr) == o.before))
  {
    StartsOk();
    MemoIsWhatWas(START, actions);
  }

  // ---- new ids, and GA never in between ----

  /** No new object gets the id of an earlier one. */
  ghost predicate NewAddrs(w: World, actions: seq<Action>)
    requires LiveOk(w)
    decreases |actions|
  {
    actions != [] ==>
      && (actions[0].Rebuild? ==> forall k | 0 <= k < |w.objects| :: w.objects[k].cell.addr != actions[0].addr)
      && NewAddrs(Next(w, actions[0]), actions[1..])
  }

  ghost predicate DistinctAddrs(objects: seq<Object>) {
    forall j, k | 0 <= j < k < |objects| :: objects[j].cell.addr != objects[k].cell.addr
  }

  /** What a replay first saw under an object's id is what the object carries, until it is written to,
      and then what it carried before. */
  predicate SeenAsIs(w: World, k: nat)
    requires k < |w.objects|
  {
    var o, first := w.objects[k], FirstSeen(w.seen, w.objects[k].cell.addr);
    if o.before.Some? then first == o.before
    else if w.place.HasTarget? && w.live == Some(k) then first == Some(o.cell.effort)
    else first.None?
  }

  ghost predicate OfObject(w: World, addr: nat) {
    exists k :: 0 <= k < |w.objects| && w.objects[k].cell.addr == addr
  }

  ghost predicate CalmOk(w: World) {
    && LiveOk(w) && OwnId(w) && DistinctAddrs(w.objects)
    && (forall k | 0 <= k < |w.seen| :: OfObject(w, w.seen[k].addr))
    && (w.calm ==> forall k | 0 <= k < |w.objects| :: SeenAsIs(w, k))
    && (!w.place.Rest? ==> OfObject(w, w.place.addr))
  }

  lemma {:induction false} NotSeen(seen: seq<Sight>, addr: nat)
    requires forall k | 0 <= k < |seen| :: seen[k].addr != addr
    ensures FirstSeen(seen, addr).None?
  {
    if seen != [] {
      NotSeen(seen[..|seen| - 1], addr);
    }
  }

  lemma StayObjects(w: World, v: World)
    requires |w.objects| <= |v.objects|
    requires forall k | 0 <= k < |w.objects| :: v.objects[k].cell.addr == w.objects[k].cell.addr
    ensures forall addr | OfObject(w, addr) :: OfObject(v, addr)
  {
    forall addr | OfObject(w, addr) ensures OfObject(v, addr) {
      var k :| 0 <= k < |w.objects| && w.objects[k].cell.addr == addr;
      assert v.objects[k].cell.addr == addr;
    }
  }

  lemma KeepCalm(w: World)
    requires CalmOk(w) && w.place.HasId?
    ensures CalmOk(KeepNow(w))
  {
    var v := KeepNow(w);
    StayObjects(w, v);
    if w.calm {
      forall k | 0 <= k < |v.objects| ensures SeenAsIs(v, k) {
        assert SeenAsIs(w, k);
        SeenMore(w.seen, v.seen[|w.seen|], v.objects[k].cell.addr);
      }
    }
  }

  lemma OthersCalm(w: World, a: Action)
    requires CalmOk(w) && !ByGa(a) && !a.Keep?
    ensures CalmOk(Next(w, a))
  {
    var v := Next(w, a);
    StayObjects(w, v);
    if w.calm {
      forall k | 0 <= k < |v.objects| ensures SeenAsIs(v, k) {
        assert SeenAsIs(w, k);
      }
    }
  }

  lemma GaCalm(w: World, a: Action)
    requires CalmOk(w) && ByGa(a)
    requires a.Rebuild? ==> forall k | 0 <= k < |w.objects| :: w.objects[k].cell.addr != a.addr
    ensures CalmOk(Next(w, a))
  {
    var v := Next(w, a);
    StayObjects(w, v);
    if v.calm {
      forall k | 0 <= k < |v.objects| ensures SeenAsIs(v, k) {
        if k < |w.objects| {
          assert SeenAsIs(w, k);
        } else {
          NotSeen(w.seen, a.addr);
        }
      }
    }
  }

  lemma {:induction false} CalmOfRun(w: World, actions: seq<Action>)
    requires CalmOk(w) && NewAddrs(w, actions)
    ensures CalmOk(Exec(w, actions))
    decreases |actions|
  {
    if actions != [] {
      var a := actions[0];
      if ByGa(a) {
        GaCalm(w, a);
      } else if a.Keep? {
        if w.place.HasId? { KeepCalm(w); }
      } else {
        OthersCalm(w, a);
      }
      CalmOfRun(Next(w, a), actions[1..]);
    }
  }

  /** So with ids never reused, and GA never between the steps of a replay, a replay without override
      gives the live backend back what it carried before Galley: its model's own value, if GA left
      that alone. */
  lemma ReplayRestores(actions: seq<Action>)
    requires NewAddrs(START, actions)
    requires var w := Exec(START, actions);
             w.calm && w.place.HasTarget? && (w.live.Some? ==> !w.objects[w.live.value].cell.refuses)
    ensures var w := Exec(START, actions);
            w.live.Some? &&
            (var o := Next(w, Write).objects[w.live.value];
             && o.before.Some? && o.cell.effort == (if w.override.Some? then w.override else o.before.value)
             && (!o.gaFirst && w.override.None? ==> o.cell.effort == o.made))
  {
    var w := Exec(START, actions);
    StartsOk();
    MemoIsWhatWas(START, actions);
    CalmOfRun(START, actions);
    RestoredExactly(actions);
    assert SeenAsIs(w, w.live.value);
    OthersKeep(w, Write);
    assert ObjectOk(Next(w, Write).objects[w.live.value]);
  }

  // ---- an id reused, and a replay torn ----

  const LOW := Some("low")
  const HIGH := Some("high")

  function Replayed(w: World): (v: World)
    requires LiveOk(w)
    ensures LiveOk(v)
  {
    Next(Next(Next(w, Replay), Keep), Write)
  }

  /** A backend is replayed onto and goes; the one made after it gets its id and the same value, and
      the user gives it another. The next replay takes that away. */
  lemma ReusedIdOverwrites()
    ensures var first := Replayed(Next(START, Rebuild(1, LOW, false)));
            var w := Replayed(Next(Next(first, Rebuild(1, LOW, false)), GaWrites(HIGH)));
            |w.objects| == 2 && w.override.None? && w.calm
            && w.objects[1].before == Some(HIGH) && w.objects[1].cell.effort == LOW
  {
    var first := Replayed(Next(START, Rebuild(1, LOW, false)));
    assert first.memo == map[1 := LOW] && first.objects == [Object(Cell(1, LOW, false), LOW, Some(LOW), false)];
  }

  /** GA makes another backend before the replay writes: that one is given the value of the one before
      it, and the next replay takes this for its own. Both ids are new. */
  lemma TornWriteOverwrites()
    ensures var begun := Next(Next(Next(START, Rebuild(1, LOW, false)), Replay), Keep);
            var torn := Next(Next(begun, Rebuild(2, HIGH, false)), Write);
            var w := Replayed(torn);
            && |torn.objects| == |w.objects| == 2 && w.override.None?
            && torn.objects[1].before == Some(HIGH) && torn.objects[1].cell.effort == LOW
            && w.memo == map[1 := LOW, 2 := LOW] && w.objects[1].cell.effort == LOW
  {
  }

  /** GA makes another backend before the replay sees what is carried: its value is kept under the id
      of the one before it, and given to the next backend with that id. */
  lemma TornSightMisleads()
    ensures var begun := Next(Next(START, Rebuild(1, LOW, false)), Replay);
            var torn := Next(Next(Next(begun, Rebuild(2, HIGH, false)), Keep), Write);
            var w := Replayed(Next(torn, Rebuild(1, LOW, false)));
            && torn.memo == map[1 := HIGH] && |w.objects| == 3 && w.override.None?
            && w.objects[2].before == Some(LOW) && w.objects[2].cell.effort == HIGH
  {
  }
}
