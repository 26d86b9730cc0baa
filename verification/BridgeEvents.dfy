/** What every action of the bridge's threads tells Core, event by event, and what becomes of the
    messages handed over: none is lost, whether a run takes it or not. */
module BridgeEvents {
  import opened Wrappers
  import Text
  import opened Interject
  import opened InterjectProtocol
  import opened BridgeRuns
  import opened BridgeProtocol

  // ---- the events of an action ----

  /** The messages the account holds go back to Core in one event, if there are any. */
  function GivenBack(c: Core): seq<Event> {
    var ids := Ids(c.world.account.unread);
    if ids == [] then [] else [InterjectReturned(ids)]
  }

  function Ends(c: Core, reason: Reason, drain: Option<nat>): seq<Event> {
    if c.open then GivenBack(c) + [RunComplete(reason, drain)] else []
  }

  /** The line's number: one more if it is of the step told of last, else 1. */
  function Line(c: Core, turn: nat): seq<Event> {
    if !c.open then []
    else if c.told.0 == turn then [TellUser(turn, c.told.1 + 1)]
    else [TellUser(turn, 1)]
  }

  /** The ids of `items` that the account has not taken in this run, in order. */
  function Fresh(items: seq<Item>, taken: set<Id>): seq<Id> {
    if items == [] then []
    else (if items[0].id in taken then [] else [items[0].id]) + Fresh(items[1..], taken)
  }

  function Handed(c: Core, items: seq<Item>, allowed: bool): seq<Event> {
    if c.open && allowed then [Accepted(Fresh(items, c.world.account.taken))]
    else if items == [] then []
    else [InterjectRefused(Ids(items))]
  }

  function Ended(c: Core, drain: nat, slash: bool): seq<Event> {
    if !c.open || c.gen != drain then []
    else if slash then GivenBack(c) + [RunComplete(SlashCommand, Some(drain))]
    else [Error] + GivenBack(c) + [RunComplete(WithoutExit, Some(drain))]
  }

  /** What an action adds to the log: the command thread's sections only where that thread is at them,
      the hook's only where the agent thread is, a drain's only while it waits. */
  function Added(s: State, a: BridgeProtocol.Action): seq<Event> {
    var c := s.core;
    match a
    case UserMessage => if s.command.Ready? && c.open then [Error] else []
    case Sweep => if s.command.Checked? then GivenBack(c) else []
    case Open => if s.command.Swept? then [RunOpened(c.gen + 1)] else []
    case StartTask => if s.command.Opening? then [ToldReset] else []
    case Abort => if s.command.Ready? then [RunRetired] else []
    case AbortEnd => if s.command.Aborting? then Ends(c, Aborted, None) else []
    case Interject(items, _, allowed) => if s.command.Ready? then Handed(c, items, allowed) else []
    case Tell(turn) => Line(c, turn)
    case TellOverReset(turn) => if s.command.Opening? then Line(c, turn) else []
    case BeginHook(injected, _, exit) =>
      if !s.agent.NoHook? || ReadIds(c.world.account, injected, !exit) == [] then []
      else [ReadAt(ReadIds(c.world.account, injected, !exit))]
    case SendHook =>
      if !s.agent.Hooking? then []
      else [TurnEnd(s.agent.turn)] + (if s.agent.read == [] then [] else [InterjectDelivered(s.agent.read, s.agent.turn)])
    case ExitHook => if s.agent.Exiting? then Ends(c, Exited, None) else []
    case GaClears => []
    case Done(drain, slash) => if drain in s.drains then Ended(c, drain, slash) else []
  }

  lemma {:induction false} FreshIs(items: seq<Item>, taken: set<Id>)
    ensures Ids(NotTaken(items, taken)) == Fresh(items, taken)
  {
    if items != [] {
      FreshIs(items[1..], taken);
      var rest := NotTaken(items[1..], taken);
      assert [items[0]] + rest != [] && ([items[0]] + rest)[1..] == rest;
      assert [] + rest == rest && [] + Ids(rest) == Ids(rest);
    }
  }

  lemma CloseAdds(c: Core, reason: Reason, drain: Option<nat>)
    ensures Close(c, reason, drain).log == c.log + Ends(c, reason, drain)
  {
    if c.open {
      GivenBackIs(c);
      Text.Assoc(c.log, GivenBack(c), [RunComplete(reason, drain)]);
    } else {
      assert c.log + [] == c.log;
    }
  }

  lemma GivenBackIs(c: Core)
    ensures ReturnUnread(c).log == c.log + GivenBack(c)
  {
    assert c.log + [] == c.log;
  }

  lemma DoneAdds(c: Core, drain: nat, slash: bool)
    ensures DrainDone(c, drain, slash).log == c.log + Ended(c, drain, slash)
  {
    if !c.open || c.gen != drain {
      assert c.log + [] == c.log;
    } else if slash {
      CloseAdds(c, SlashCommand, Some(drain));
    } else {
      CloseAdds(Log(c, Error), WithoutExit, Some(drain));
      Text.Assoc(c.log, [Error], GivenBack(c) + [RunComplete(WithoutExit, Some(drain))]);
      Text.Assoc([Error], GivenBack(c), [RunComplete(WithoutExit, Some(drain))]);
    }
  }

  lemma TakeAdds(c: Core, items: seq<Item>, preamble: string, allowed: bool)
    ensures TakeMessages(c, items, preamble, allowed).log == c.log + Handed(c, items, allowed)
  {
    FreshIs(items, c.world.account.taken);
    assert c.log + [] == c.log;
    assert NotTaken(items, c.world.account.taken) == [] ==> Ids([]) == [];
  }

  lemma EventsAdd(c: Core, turn: nat, read: seq<Id>)
    ensures StepEvents(c, turn, read).log ==
            c.log + ([TurnEnd(turn)] + (if read == [] then [] else [InterjectDelivered(read, turn)]))
  {
    Text.Assoc(c.log, [TurnEnd(turn)], if read == [] then [] else [InterjectDelivered(read, turn)]);
    assert c.log + [TurnEnd(turn)] + [] == c.log + [TurnEnd(turn)];
  }

  /** Every action tells Core exactly that, in this order. */
  lemma EventsExactly(s: State, a: BridgeProtocol.Action)
    ensures Step(s, a).core.log == s.core.log + Added(s, a)
  {
    var c := s.core;
    assert c.log + [] == c.log;
    match a
    case Sweep => GivenBackIs(c);
    case AbortEnd => CloseAdds(c, Aborted, None);
    case Interject(items, preamble, allowed) => TakeAdds(c, items, preamble, allowed);
    case SendHook => if s.agent.Hooking? { EventsAdd(c, s.agent.turn, s.agent.read); }
    case ExitHook => CloseAdds(c, Exited, None);
    case Done(drain, slash) => DoneAdds(c, drain, slash);
    case _ =>
  }

  /** The actions that end the open run: an abort's second section, a hook's exit, and the end of a
      drain of the current generation. */
  predicate Completes(s: State, a: BridgeProtocol.Action) {
    || (a.AbortEnd? && s.command.Aborting?)
    || (a.ExitHook? && s.agent.Exiting?)
    || (a.Done? && a.drain in s.drains && a.drain == s.core.gen)
  }

  /** And what is open, and which generation: a run opens at `Open`, and is closed by what completes
      it; the generation goes up when a run opens and when one is retired. */
  lemma RunExactly(s: State, a: BridgeProtocol.Action)
    ensures var c, t := s.core, Step(s, a).core;
            && t.gen == c.gen + (if (a.Open? && s.command.Swept?) || (a.Abort? && s.command.Ready?) then 1 else 0)
            && (t.open <==> (a.Open? && s.command.Swept?) || (c.open && !Completes(s, a)))
  {
  }

  /** Where an action leaves the three kinds of threads: the command thread between commands, past the
      check, past the return of messages, before a task is put, or between the sections of an
      abort; the agent thread outside a hook, before the hook's events, or before its exit; and a drain
      waiting for each task put. */
  lemma PlacesExactly(s: State, a: BridgeProtocol.Action)
    ensures var t := Step(s, a);
            var puts := s.command.Opening? && (a.StartTask? || (a.TellOverReset? && s.core.open));
            && t.command ==
               (if s.command.Ready? && a.UserMessage? && !s.core.open then Checked
                else if s.command.Checked? && a.Sweep? then Swept
                else if s.command.Swept? && a.Open? then Opening(s.core.gen + 1)
                else if puts then Ready
                else if s.command.Ready? && a.Abort? then Aborting
                else if s.command.Aborting? && a.AbortEnd? then Ready
                else s.command)
            && t.agent ==
               (if s.agent.NoHook? && a.BeginHook?
                then Hooking(a.turn, ReadIds(s.core.world.account, a.injected, !a.exit), a.exit)
                else if s.agent.Hooking? && a.SendHook? then (if s.agent.exit then Exiting else NoHook)
                else if s.agent.Exiting? && a.ExitHook? then NoHook
                else s.agent)
            && t.drains ==
               (if puts then s.drains + {s.command.gen} else if a.Done? then s.drains - {a.drain} else s.drains)
  {
  }

  /** What becomes of the account and `intervene`: messages are added only to an open run that may take
      them, a hook ends a step, GA clears, and the account is emptied before a run opens and where one
      ends. */
  lemma AccountExactly(s: State, a: BridgeProtocol.Action)
    ensures var c, w := s.core, s.core.world;
            Step(s, a).core.world ==
            if a.Interject? && s.command.Ready? && c.open && a.allowed then DoAdd(w, a.items, a.preamble).0
            else if a.BeginHook? && s.agent.NoHook? then DoStepEnded(w, a.injected, !a.exit).0
            else if a.GaClears? then World(w.account, None)
            else if (a.Sweep? && s.command.Checked?) || (c.open && Completes(s, a)) then DoTakeUnread(w).0
            else w
  {
  }

  /** The check, the return of messages and the opening, one after the other, start a run as the method
      does it at once: refused with an error while one is open. */
  lemma StartIsSteps(s: State)
    requires s.command.Ready?
    ensures var c, t := s.core, Step(Step(Step(s, UserMessage), Sweep), Open);
            && t.core == (if c.open then Log(c, Error) else OpenRun(ReturnUnread(c)))
            && t.command == (if c.open then Ready else Opening(c.gen + 1))
  {
  }

  // ---- no message is lost ----

  /** The ids of the messages Core has handed over. */
  function HandedOver(s: State, actions: seq<BridgeProtocol.Action>): set<Id>
    decreases |actions|
  {
    if actions == [] then {}
    else
      (if actions[0].Interject? && s.command.Ready? then set id | id in Ids(actions[0].items) else {})
      + HandedOver(Step(s, actions[0]), actions[1..])
  }

  /** The ids an event tells Core of: read by a step, or handed back. */
  function ToldOf(e: Event): set<Id> {
    match e
    case ReadAt(ids) => set id | id in ids
    case InterjectReturned(ids) => set id | id in ids
    case InterjectRefused(ids) => set id | id in ids
    case _ => {}
  }

  function Settled(log: seq<Event>): set<Id> {
    if log == [] then {} else Settled(log[..|log| - 1]) + ToldOf(log[|log| - 1])
  }

  lemma {:induction false} SettledConcat(a: seq<Event>, b: seq<Event>)
    ensures Settled(a + b) == Settled(a) + Settled(b)
  {
    if b == [] {
      assert a + b == a;
    } else {
      assert (a + b)[..|a + b| - 1] == a + b[..|b| - 1];
      SettledConcat(a, b[..|b| - 1]);
    }
  }

  lemma SettledOne(e: Event)
    ensures Settled([e]) == ToldOf(e)
  {
    assert [e][..0] == [];
  }

  /** What a message's id is owed: it has been told of, or its message is unread. */
  predicate Kept(c: Core, id: Id) {
    id in Settled(c.log) || id in Ids(c.world.account.unread)
  }

  lemma {:induction false} ReadIsSettled(log: seq<Event>)
    ensures forall id | id in WatchAll(log).read :: id in Settled(log)
  {
    if log != [] {
      var init, last := log[..|log| - 1], log[|log| - 1];
      ReadIsSettled(init);
      ReadByOne(WatchAll(init), last);
    }
  }

  lemma ReadByOne(m: Monitor, e: Event)
    ensures forall id | id in Watch(m, e).read :: id in m.read || id in ToldOf(e)
  {
  }

  /** Every id the account has taken is kept. */
  lemma TakenIsKept(c: Core)
    requires BooksOk(c)
    ensures forall id | id in c.world.account.taken :: Kept(c, id)
  {
    ReadIsSettled(c.log);
    Balance(c.world, WatchAll(c.log).accepted, WatchAll(c.log).read);
  }

  lemma {:induction false} AllFresh(items: seq<Item>, taken: set<Id>)
    ensures forall id | id in Ids(items) :: id in taken || id in Fresh(items, taken)
  {
    if items != [] {
      AllFresh(items[1..], taken);
      assert Ids(items) == [items[0].id] + Ids(items[1..]);
    }
  }

  /** After a command that hands messages over, each of them is kept. */
  lemma HandedIsKept(s: State, items: seq<Item>, preamble: string, allowed: bool)
    requires BridgeProtocol.Inv(s) && s.command.Ready? && NoDup(Ids(items))
    ensures var c := Step(s, BridgeProtocol.Interject(items, preamble, allowed)).core;
            forall id | id in Ids(items) :: Kept(c, id)
  {
    if s.core.open && allowed {
      MessagesBooks(s.core, items, preamble);
      AcceptedIsKept(s.core, items, preamble);
    } else {
      RefusedIsKept(s.core, items, preamble, allowed);
    }
    StepTakes(s, items, preamble, allowed);
  }

  lemma StepTakes(s: State, items: seq<Item>, preamble: string, allowed: bool)
    requires s.command.Ready?
    ensures Step(s, BridgeProtocol.Interject(items, preamble, allowed)).core ==
            TakeMessages(s.core, items, preamble, allowed)
  {
  }

  lemma AcceptedIsKept(c: Core, items: seq<Item>, preamble: string)
    requires c.open && BooksOk(TakeMessages(c, items, preamble, true))
    ensures forall id | id in Ids(items) :: Kept(TakeMessages(c, items, preamble, true), id)
  {
    TakenIsKept(TakeMessages(c, items, preamble, true));
    AddTakes(c.world, items, preamble);
  }

  lemma RefusedIsKept(c: Core, items: seq<Item>, preamble: string, allowed: bool)
    requires !(c.open && allowed)
    ensures forall id | id in Ids(items) :: Kept(TakeMessages(c, items, preamble, allowed), id)
  {
    if items != [] {
      SettledConcat(c.log, [InterjectRefused(Ids(items))]);
      SettledOne(InterjectRefused(Ids(items)));
    }
  }

  lemma AddTakes(w: World, items: seq<Item>, preamble: string)
    ensures forall id | id in Ids(items) :: id in DoAdd(w, items, preamble).0.account.taken
  {
    FreshIs(items, w.account.taken);
    AllFresh(items, w.account.taken);
    ArmUnread(w.(account := Taking(w.account, NotTaken(items, w.account.taken), preamble)));
    assert NotTaken(items, w.account.taken) == [] ==> Fresh(items, w.account.taken) == [];
  }

  /** What an action does to the unread messages: more are added, or some go that it tells of. */
  lemma UnreadStays(s: State, a: BridgeProtocol.Action)
    requires BridgeProtocol.Inv(s)
    ensures forall id | id in Ids(s.core.world.account.unread) ::
              id in Ids(Step(s, a).core.world.account.unread) || id in Settled(Added(s, a))
  {
    var unread := Ids(s.core.world.account.unread);
    if unread != [] {
      SettledOne(InterjectReturned(unread));
    }
    match a
    case BeginHook(injected, _, exit) => if s.agent.NoHook? { HookStays(s, injected, exit); }
    case Interject(items, preamble, allowed) => AddStays(s.core.world, items, preamble);
    case AbortEnd => EndStays(s.core, Aborted, None);
    case ExitHook => EndStays(s.core, Exited, None);
    case Done(drain, slash) => DoneStays(s.core, drain, slash);
    case _ =>
  }

  lemma EndStays(c: Core, reason: Reason, drain: Option<nat>)
    ensures c.open ==> forall id | id in Ids(c.world.account.unread) :: id in Settled(Ends(c, reason, drain))
    ensures !c.open ==> Close(c, reason, drain) == c
  {
    SettledConcat(GivenBack(c), [RunComplete(reason, drain)]);
    if Ids(c.world.account.unread) != [] { SettledOne(InterjectReturned(Ids(c.world.account.unread))); }
  }

  lemma DoneStays(c: Core, drain: nat, slash: bool)
    ensures c.open && c.gen == drain ==>
              forall id | id in Ids(c.world.account.unread) :: id in Settled(Ended(c, drain, slash))
  {
    if c.open && c.gen == drain {
      EndStays(c, if slash then SlashCommand else WithoutExit, Some(drain));
      var end := GivenBack(c) + [RunComplete(WithoutExit, Some(drain))];
      SettledConcat([Error], end);
      Text.Assoc([Error], GivenBack(c), [RunComplete(WithoutExit, Some(drain))]);
    }
  }

  lemma AddStays(w: World, items: seq<Item>, preamble: string)
    ensures forall id | id in Ids(w.account.unread) :: id in Ids(DoAdd(w, items, preamble).0.account.unread)
  {
    var added := NotTaken(items, w.account.taken);
    IdsConcat(w.account.unread, added);
    ArmUnread(w.(account := Taking(w.account, added, preamble)));
  }

  lemma HookStays(s: State, injected: Option<string>, exit: bool)
    requires BridgeProtocol.Inv(s)
    ensures var read := ReadIds(s.core.world.account, injected, !exit);
            forall id | id in Ids(s.core.world.account.unread) ::
              id in Ids(DoStepEnded(s.core.world, injected, !exit).0.account.unread)
              || (read != [] && id in Settled([ReadAt(read)]))
  {
    UnreadDistinct(s.core.world.account, WatchAll(s.core.log).accepted, WatchAll(s.core.log).read);
    StepStays(s.core.world, injected, !exit);
    SettledOne(ReadAt(ReadIds(s.core.world.account, injected, !exit)));
  }

  lemma StepUnread(w: World, injected: Option<string>, goesOn: bool)
    requires NoDup(Ids(w.account.unread)) && WrittenGrows(w.account)
    ensures var read := ReadIds(w.account, injected, goesOn);
            && |read| <= |w.account.unread| && read == Ids(w.account.unread)[..|read|]
            && DoStepEnded(w, injected, goesOn).0.account.unread == w.account.unread[|read|..]
  {
    StepEndedReads(w, injected, goesOn);
    var n := |ReadIds(w.account, injected, goesOn)|;
    ArmUnread(w.(account := w.account.(unread := w.account.unread[n..], written := [])));
  }

  lemma InParts(ids: seq<Id>, n: nat, id: Id)
    requires n <= |ids| && id in ids
    ensures id in ids[..n] || id in ids[n..]
  {
    assert ids == ids[..n] + ids[n..];
  }

  lemma StepStays(w: World, injected: Option<string>, goesOn: bool)
    requires NoDup(Ids(w.account.unread)) && WrittenGrows(w.account)
    ensures forall id | id in Ids(w.account.unread) ::
              id in Ids(DoStepEnded(w, injected, goesOn).0.account.unread) || id in ReadIds(w.account, injected, goesOn)
  {
    StepUnread(w, injected, goesOn);
    var n := |ReadIds(w.account, injected, goesOn)|;
    RestIds(w.account.unread, n);
    forall id | id in Ids(w.account.unread) ensures id in Ids(w.account.unread)[..n] || id in Ids(w.account.unread)[n..] {
      InParts(Ids(w.account.unread), n, id);
    }
  }

  lemma RestIds(items: seq<Item>, n: nat)
    requires n <= |items|
    ensures Ids(items[n..]) == Ids(items)[n..]
  {
  }

  lemma StepKeepsAll(s: State, a: BridgeProtocol.Action, ids: set<Id>)
    requires BridgeProtocol.Inv(s) && (a.Interject? ==> NoDup(Ids(a.items)))
    requires forall id | id in ids :: Kept(s.core, id)
    ensures forall id | id in ids :: Kept(Step(s, a).core, id)
    ensures a.Interject? && s.command.Ready? ==> forall id | id in Ids(a.items) :: Kept(Step(s, a).core, id)
  {
    EventsExactly(s, a);
    SettledConcat(s.core.log, Added(s, a));
    UnreadStays(s, a);
    if a.Interject? && s.command.Ready? { HandedIsKept(s, a.items, a.preamble, a.allowed); }
  }

  lemma {:induction false} AllKept(s: State, actions: seq<BridgeProtocol.Action>, ids: set<Id>)
    requires BridgeProtocol.Inv(s) && DistinctItems(actions) && forall id | id in ids :: Kept(s.core, id)
    ensures var c := BridgeProtocol.Run(s, actions).core;
            forall id | id in ids + HandedOver(s, actions) :: Kept(c, id)
    decreases |actions|
  {
    if actions != [] {
      var a := actions[0];
      BridgeProtocol.FirstDistinct(actions);
      StepKeeps(s, a);
      StepKeepsAll(s, a, ids);
      var given := if a.Interject? && s.command.Ready? then set id | id in Ids(a.items) else {};
      AllKept(Step(s, a), actions[1..], ids + given);
      assert ids + given + HandedOver(Step(s, a), actions[1..]) == ids + HandedOver(s, actions);
    }
  }

  /** Over every interleaving no message handed over is lost: each has been reported read by a step,
      or handed back, at once or at its run's end, or it is unread in the run that is open. */
  lemma NoMessageLost(actions: seq<BridgeProtocol.Action>, id: Id)
    requires DistinctItems(actions) && id in HandedOver(INITIAL, actions)
    ensures var c := BridgeProtocol.Run(INITIAL, actions).core;
            id in Settled(c.log) || (c.open && id in Ids(c.world.account.unread))
  {
    BridgeProtocol.StartsOk();
    AllKept(INITIAL, actions, {});
    RunKeeps(INITIAL, actions);
    ClosedHoldsNone(BridgeProtocol.Run(INITIAL, actions));
    assert id in {} + HandedOver(INITIAL, actions);
  }

  lemma ClosedHoldsNone(s: State)
    requires BridgeProtocol.Inv(s)
    ensures !s.core.open ==> s.core.world.account.unread == []
  {
    if !s.core.open { Balance(s.core.world, WatchAll(s.core.log).accepted, WatchAll(s.core.log).read); }
  }
}
