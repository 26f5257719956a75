/** Whole runs of the daemon. A run is projected onto each USB path, which carries the results of
    `PathRuns` over to the composed system; identities and driver resets are followed directly. */
module DaemonRuns {
  import opened Wire
  import opened DecisionTable
  import opened Transitions
  import opened Ladder
  import opened Gates
  import opened Engine
  import opened EngineLaws
  import opened PathRuns
  import opened CycleDriver

  // ---------------------------------------------------------------- runs

  function NextStore(st: Store, c: CycleInput, cfg: Settings): Store
    requires |c.ticks| == |c.modems|
  {
    DaemonCycle(st, c, cfg).store
  }

  function CycleActions(st: Store, c: CycleInput, cfg: Settings): seq<ActionResult>
    requires |c.ticks| == |c.modems|
  {
    DaemonCycle(st, c, cfg).actions
  }

  ghost predicate WellFormedRun(cs: seq<CycleInput>) {
    forall i | 0 <= i < |cs| :: cs[i].WellFormed()
  }

  ghost function After(st: Store, cs: seq<CycleInput>, cfg: Settings): Store
    requires WellFormedRun(cs)
  {
    if cs == [] then st else NextStore(After(st, cs[..|cs| - 1], cfg), cs[|cs| - 1], cfg)
  }

  function IndexOf(modems: seq<Descriptor>, usbPath: string): (r: Option<nat>)
    ensures r.Some? ==> r.value < |modems| && modems[r.value].usbPath == usbPath
    ensures r.None? ==> forall m <- modems :: m.usbPath != usbPath
  {
    if modems == [] then None
    else if modems[|modems| - 1].usbPath == usbPath then Some(|modems| - 1)
    else IndexOf(modems[..|modems| - 1], usbPath)
  }

  /** The cycle gets as far as the engine. */
  predicate ReachesEngine(st: Store, c: CycleInput) {
    |c.snapshots| == |c.modems| && StageCompletes(st, c) && !c.stop.AtLoad?
  }

  /** The engine's short-circuit decision in this cycle; it does not look at per-modem state. */
  predicate ShortCircuits(st: Store, c: CycleInput, cfg: Settings)
    requires |c.snapshots| == |c.modems| == |c.ticks|
  {
    GlobalDriverResetEligible(DiagOf(c), st.globals, ContextOf(c, cfg))
  }

  predicate Mentions(events: seq<SimSwapped>, usbPath: string) {
    exists e <- events :: e.usbPath == usbPath
  }

  /** The SIM-swap stage resets the path's record in this cycle. */
  predicate ResetAt(st: Store, c: CycleInput, usbPath: string) {
    |c.snapshots| == |c.modems| && Mentions(HandledSwaps(st, c), usbPath)
  }

  /** What the cycle does at one path, whether or not it is saved. */
  function AttemptAt(st: Store, c: CycleInput, cfg: Settings, usbPath: string): PathCycle
    requires |c.ticks| == |c.modems|
  {
    var swapped, ix := ResetAt(st, c, usbPath), IndexOf(c.modems, usbPath);
    if ReachesEngine(st, c) && ix.Some? then
      Seen(c.snapshots[ix.value], c.ticks[ix.value], ContextOf(c, cfg), swapped, ShortCircuits(st, c, cfg), c.persistAt)
    else if swapped then ResetOnly
    else Absent
  }

  /** The engine's record of the path is saved in this cycle. */
  predicate SavedAt(st: Store, c: CycleInput, usbPath: string) {
    var ix := IndexOf(c.modems, usbPath);
    ReachesEngine(st, c) && ix.Some? && ix.value < SavedCount(c)
  }

  /** What the cycle does to the stored record of one path. */
  function SeenFrom(st: Store, c: CycleInput, cfg: Settings, usbPath: string): PathCycle
    requires |c.ticks| == |c.modems|
  {
    if SavedAt(st, c, usbPath) then AttemptAt(st, c, cfg, usbPath)
    else if ResetAt(st, c, usbPath) then ResetOnly
    else Absent
  }

  function View(st: Store, usbPath: string): ModemState {
    PriorOf(st.states, usbPath)
  }

  function ActionsOf(actions: seq<ActionResult>, usbPath: string): seq<ActionResult> {
    if actions == [] then []
    else
      ActionsOf(actions[..|actions| - 1], usbPath)
      + (if actions[|actions| - 1].usbPath == usbPath then [actions[|actions| - 1]] else [])
  }

  // ---------------------------------------------------------------- the SIM-swap stage, by path

  lemma {:induction false} CurrentByPath(modems: seq<Descriptor>, snaps: seq<ModemSnapshot>, usbPath: string)
    requires |modems| == |snaps|
    requires forall i, j | 0 <= i < j < |modems| :: modems[i].usbPath != modems[j].usbPath
    ensures var cur, ix := CurrentIdentities(modems, snaps), IndexOf(modems, usbPath);
            && (usbPath in cur <==> ix.Some? && Surfaced(snaps[ix.value]))
            && (usbPath in cur ==> cur[usbPath] == Identity(snaps[ix.value].iccid.value, snaps[ix.value].imsi.value))
  {
    if modems != [] {
      var n := |modems| - 1;
      CurrentByPath(modems[..n], snaps[..n], usbPath);
      if modems[n].usbPath == usbPath {
        assert forall m <- modems[..n] :: m.usbPath != usbPath;
      }
    }
  }

  lemma {:induction false} SwapEventsByPath(prior: map<string, Identity>, modems: seq<Descriptor>,
                                            snaps: seq<ModemSnapshot>, e: SimSwapped)
    requires |modems| == |snaps|
    requires forall i, j | 0 <= i < j < |modems| :: modems[i].usbPath != modems[j].usbPath
    ensures var ix := IndexOf(modems, e.usbPath);
            e in SwapEvents(prior, modems, snaps) <==>
              && ix.Some? && SwappedAt(prior, e.usbPath, snaps[ix.value])
              && e == SimSwapped(e.usbPath, prior[e.usbPath].iccid, snaps[ix.value].iccid.value)
  {
    if modems != [] {
      var n := |modems| - 1;
      SwapEventsByPath(prior, modems[..n], snaps[..n], e);
      if modems[n].usbPath == e.usbPath {
        assert forall m <- modems[..n] :: m.usbPath != e.usbPath;
      }
    }
  }

  lemma {:induction false} ResetAllByPath(states: map<string, ModemState>, events: seq<SimSwapped>, usbPath: string)
    ensures var after := ResetAll(states, events);
            && (!Mentions(events, usbPath) ==>
                  (usbPath in after <==> usbPath in states) && PriorOf(after, usbPath) == PriorOf(states, usbPath))
            && (Mentions(events, usbPath) ==>
                  usbPath in after && after[usbPath] == AfterSwap(PriorOf(states, usbPath), true))
  {
    if events != [] {
      var n := |events| - 1;
      ResetAllByPath(states, events[..n], usbPath);
      assert events == events[..n] + [events[n]];
      assert Mentions(events, usbPath) <==> Mentions(events[..n], usbPath) || events[n].usbPath == usbPath;
    }
  }

  /** After the stage, or as much of it as was run, each path's record is the reset one exactly
      when its swap was handled; a stage that completes handles every changed ICCID. */
  lemma StageOneByPath(st: Store, c: CycleInput, usbPath: string)
    requires c.WellFormed() && |c.snapshots| == |c.modems|
    ensures View(AfterStage(st, c), usbPath) == AfterSwap(View(st, usbPath), ResetAt(st, c, usbPath))
    ensures var ix := IndexOf(c.modems, usbPath);
            StageCompletes(st, c) ==>
              (ResetAt(st, c, usbPath) <==> ix.Some? && SwappedAt(st.identities, usbPath, c.snapshots[ix.value]))
  {
    hide SwapEvents, ResetAll;
    ResetAllByPath(st.states, HandledSwaps(st, c), usbPath);
    SwapMentioned(st, c, usbPath);
  }

  lemma SwapMentioned(st: Store, c: CycleInput, usbPath: string)
    requires c.WellFormed() && |c.snapshots| == |c.modems|
    ensures var ix := IndexOf(c.modems, usbPath);
            Mentions(SwapEvents(st.identities, c.modems, c.snapshots), usbPath) <==>
            ix.Some? && SwappedAt(st.identities, usbPath, c.snapshots[ix.value])
  {
    var events := SwapEvents(st.identities, c.modems, c.snapshots);
    var ix := IndexOf(c.modems, usbPath);
    if Mentions(events, usbPath) {
      var e :| e in events && e.usbPath == usbPath;
      SwapEventsByPath(st.identities, c.modems, c.snapshots, e);
    } else if ix.Some? && SwappedAt(st.identities, usbPath, c.snapshots[ix.value]) {
      var e := SimSwapped(usbPath, st.identities[usbPath].iccid, c.snapshots[ix.value].iccid.value);
      SwapEventsByPath(st.identities, c.modems, c.snapshots, e);
      assert false;
    }
  }

  /** Identities the file already holds are no swaps. */
  lemma KnownSimsAreNoSwaps(known: map<string, Identity>, c: CycleInput)
    requires c.WellFormed() && |c.snapshots| == |c.modems|
    requires var cur := CurrentIdentities(c.modems, c.snapshots); forall p <- cur :: p in known && known[p] == cur[p]
    ensures SwapEvents(known, c.modems, c.snapshots) == []
  {
    var events := SwapEvents(known, c.modems, c.snapshots);
    if events != [] {
      var e := events[0];
      SwapEventsByPath(known, c.modems, c.snapshots, e);
      CurrentByPath(c.modems, c.snapshots, e.usbPath);
      assert false;
    }
  }

  // ---------------------------------------------------------------- dispatch, by path

  lemma DispatchOne(plans: seq<PlannedAction>, plan: PlannedAction, modems: seq<Descriptor>,
                    outcomes: map<string, bool>)
    ensures Dispatch(plans + [plan], modems, outcomes) ==
            Dispatch(plans, modems, outcomes) + Dispatch([plan], modems, outcomes)
    ensures Dispatched(plan, modems) ==>
              |Dispatch([plan], modems, outcomes)| == 1
              && Dispatch([plan], modems, outcomes)[0].usbPath == plan.who.usbPath
              && Dispatch([plan], modems, outcomes)[0].kind == plan.kind
    ensures !Dispatched(plan, modems) ==> Dispatch([plan], modems, outcomes) == []
  {
    assert (plans + [plan])[..|plans|] == plans && [plan][..0] == [];
  }

  lemma ActionsOfOne(actions: seq<ActionResult>, more: seq<ActionResult>, usbPath: string)
    requires |more| <= 1
    ensures ActionsOf(actions + more, usbPath) ==
            ActionsOf(actions, usbPath) + (if more != [] && more[0].usbPath == usbPath then more else [])
  {
    if more == [] {
      assert actions + more == actions;
    } else {
      assert (actions + more)[..|actions|] == actions;
    }
  }

  predicate PlannedFor(plan: PlannedAction, usbPath: string) {
    plan.who.WhoModem? && plan.who.usbPath == usbPath
  }

  lemma PlansOfOne(plans: seq<PlannedAction>, plan: PlannedAction, usbPath: string)
    ensures PlansOf(plans + [plan], usbPath) ==
            if PlannedFor(plan, usbPath) then PlansOf(plans, usbPath) + [plan] else PlansOf(plans, usbPath)
  {
    assert (plans + [plan])[..|plans|] == plans;
  }

  lemma EmptyDispatch(modems: seq<Descriptor>, outcomes: map<string, bool>, usbPath: string)
    ensures PlansOf([], usbPath) == [] && Dispatch([], modems, outcomes) == [] && ActionsOf([], usbPath) == []
  {
  }

  lemma {:induction false} DispatchByPath(plans: seq<PlannedAction>, modems: seq<Descriptor>,
                                          outcomes: map<string, bool>, usbPath: string)
    ensures ActionsOf(Dispatch(plans, modems, outcomes), usbPath) == Dispatch(PlansOf(plans, usbPath), modems, outcomes)
  {
    hide Dispatch, PlansOf, ActionsOf;
    if plans == [] {
      EmptyDispatch(modems, outcomes, usbPath);
    } else {
      var n := |plans| - 1;
      var init, plan := plans[..n], plans[n];
      assert plans == init + [plan];
      DispatchByPath(init, modems, outcomes, usbPath);
      PlansOfOne(init, plan, usbPath);
      DispatchOne(init, plan, modems, outcomes);
      DispatchOne(PlansOf(init, usbPath), plan, modems, outcomes);
      ActionsOfOne(Dispatch(init, modems, outcomes), Dispatch([plan], modems, outcomes), usbPath);
    }
  }

  /** The filter accepts a per-modem plan of a known modem exactly when the engine bumped that
      kind's counter and timestamp. */
  lemma DispatchedExactlyWhenBumped(prior: ModemState, snap: ModemSnapshot, ctx: Context, t: Ticks,
                                    modems: seq<Descriptor>, outcomes: map<string, bool>)
    ensures var s := StepModem(prior, snap, ctx, t);
            && (forall p <- s.plans :: Dispatched(p, modems) <==> s.bump.Some? && Known(modems, snap.usbPath))
            && (Known(modems, snap.usbPath) ==>
                  Dispatch(s.plans, modems, outcomes) ==
                  if s.bump.Some?
                  then [ActionResult(s.bump.value, snap.usbPath, snap.usbPath in outcomes && outcomes[snap.usbPath])]
                  else [])
  {
    PlanEventAndBumpAgree(prior, snap, ctx, t);
    hide StepModem, Decide, Transition, Decays, MayExecute;
    var s := StepModem(prior, snap, ctx, t);
    if s.plans != [] {
      assert s.plans[0] in s.plans && s.plans[..0] == [] && s.plans == [s.plans[0]];
      assert Dispatch([], modems, outcomes) == [];
    }
  }

  lemma HydrateByPath(states: map<string, ModemState>, modems: seq<Descriptor>, usbPath: string)
    ensures var h := Hydrate(states, modems);
            && (usbPath in h <==> IndexOf(modems, usbPath).Some?)
            && (usbPath in h ==> h[usbPath] == PriorOf(states, usbPath))
  {
    if modems != [] {
      HydrateByPath(states, modems[..|modems| - 1], usbPath);
    }
  }

  lemma DiagShape(c: CycleInput)
    requires c.WellFormed() && |c.snapshots| == |c.modems|
    ensures var es := DiagOf(c).perModem;
            && |es| == |c.modems| && DiagOf(c).DistinctPaths()
            && (forall i | 0 <= i < |es| :: es[i] == Entry(c.modems[i].usbPath, c.snapshots[i], c.ticks[i]))
            && (forall e <- es :: e.snap.usbPath == e.usbPath)
  {
  }

  /** What the engine plans for one path and leaves in its record. */
  lemma EngineByPath(st: Store, c: CycleInput, cfg: Settings, usbPath: string)
    requires c.WellFormed() && |c.snapshots| == |c.modems|
    ensures var r := Engine.CycleSpec(DiagOf(c), Hydrate(st.states, c.modems), st.globals, ContextOf(c, cfg));
            var ix := IndexOf(c.modems, usbPath);
            && (usbPath in r.newStates <==> ix.Some?)
            && (ShortCircuits(st, c, cfg) ==> r.plans == [DriverResetPlan()])
            && (ix.Some? && ShortCircuits(st, c, cfg) ==>
                  r.newStates[usbPath] == Transition(View(st, usbPath), c.snapshots[ix.value], cfg))
            && (ix.Some? && !ShortCircuits(st, c, cfg) ==>
                  var s := StepModem(View(st, usbPath), c.snapshots[ix.value], ContextOf(c, cfg), c.ticks[ix.value]);
                  r.newStates[usbPath] == s.next && PlansOf(r.plans, usbPath) == s.plans)
  {
    hide StepModem, Transition, GlobalDriverResetEligible;
    DiagShape(c);
    var es, priors, ctx := DiagOf(c).perModem, Hydrate(st.states, c.modems), ContextOf(c, cfg);
    var ix := IndexOf(c.modems, usbPath);
    assert usbPath in Paths(es) <==> ix.Some? by {
      if usbPath in Paths(es) {
        var i :| 0 <= i < |es| && es[i].usbPath == usbPath;
        assert c.modems[i] in c.modems;
      }
      if ix.Some? { assert es[ix.value].usbPath == usbPath; }
    }
    HydrateByPath(st.states, c.modems, usbPath);
    if ShortCircuits(st, c, cfg) {
      DriverResetCycleIsPointwise(es, priors, st.globals, ctx);
    } else {
      PerModemCycleIsPointwise(es, priors, st.globals, ctx);
      if ix.Some? {
        NonInterference(es, ix.value, priors, st.globals, ctx);
      }
    }
  }

  lemma StageKeepsGlobals(st: Store, c: CycleInput)
    requires |c.snapshots| == |c.modems|
    ensures AfterStage(st, c).globals == st.globals
  {
  }

  function EngineResult(st: Store, c: CycleInput, cfg: Settings): CycleResult
    requires |c.snapshots| == |c.modems| == |c.ticks|
  {
    EngineOn(AfterStage(st, c), c, cfg)
  }

  lemma CycleShape(st: Store, c: CycleInput, cfg: Settings)
    requires |c.modems| == |c.ticks| && ReachesEngine(st, c)
    ensures var one, r := AfterStage(st, c), EngineResult(st, c, cfg);
            && CycleActions(st, c, cfg) == StartedOf(Dispatch(r.plans, c.modems, c.outcomes), c.stop)
            && NextStore(st, c, cfg).states ==
               PersistStates(one.states, r.newStates, c.modems, SavedCount(c), CycleActions(st, c, cfg), c.persistAt)
            && NextStore(st, c, cfg).globals ==
               (if c.stop.AfterActions? || c.stop.AfterSaves? then one.globals else r.newGlobals)
            && NextStore(st, c, cfg).identities == one.identities
  {
    hide Engine.CycleSpec, DiagOf, Dispatch, PersistStates, Hydrate;
  }

  lemma CycleStopsEarly(st: Store, c: CycleInput, cfg: Settings)
    requires |c.modems| == |c.ticks| && !ReachesEngine(st, c)
    ensures CycleActions(st, c, cfg) == []
    ensures NextStore(st, c, cfg) == if |c.snapshots| == |c.modems| then AfterStage(st, c) else st
  {
  }

  /** One path's record after the saves. */
  lemma {:induction false} PersistByPath(states: map<string, ModemState>, written: map<string, ModemState>,
                                         modems: seq<Descriptor>, n: nat, actions: seq<ActionResult>, persistAt: real,
                                         usbPath: string)
    requires n <= |modems| && forall i, j | 0 <= i < j < |modems| :: modems[i].usbPath != modems[j].usbPath
    ensures var ix := IndexOf(modems, usbPath);
            PriorOf(PersistStates(states, written, modems, n, actions, persistAt), usbPath) ==
            if ix.Some? && ix.value < n && usbPath in written
            then Stamped(written[usbPath], usbPath, actions, persistAt)
            else PriorOf(states, usbPath)
  {
    hide Stamped, IndexOf;
    if n > 0 {
      PersistByPath(states, written, modems, n - 1, actions, persistAt, usbPath);
      IndexIs(modems, n - 1, usbPath);
    }
  }

  lemma {:induction false} IndexIs(modems: seq<Descriptor>, i: nat, usbPath: string)
    requires i < |modems| && forall i, j | 0 <= i < j < |modems| :: modems[i].usbPath != modems[j].usbPath
    ensures IndexOf(modems, usbPath) == Some(i) <==> modems[i].usbPath == usbPath
  {
    if i < |modems| - 1 {
      IndexIs(modems[..|modems| - 1], i, usbPath);
    }
  }

  lemma {:induction false} UnknownNeverDispatched(plans: seq<PlannedAction>, modems: seq<Descriptor>,
                                                  outcomes: map<string, bool>, usbPath: string)
    requires !Known(modems, usbPath)
    ensures Dispatch(PlansOf(plans, usbPath), modems, outcomes) == []
  {
    if plans != [] {
      var n := |plans| - 1;
      UnknownNeverDispatched(plans[..n], modems, outcomes, usbPath);
      DispatchOne(PlansOf(plans[..n], usbPath), plans[n], modems, outcomes);
      assert PlansOf(plans[..n], usbPath) + [] == PlansOf(plans[..n], usbPath);
    }
  }

  lemma {:induction false} ActionsOfNonempty(actions: seq<ActionResult>, usbPath: string)
    ensures ActionsOf(actions, usbPath) != [] <==> exists a <- actions :: a.usbPath == usbPath
  {
    hide ActionsOf;
    if actions == [] {
      ActionsOfNone(usbPath);
    } else {
      var n := |actions| - 1;
      ActionsOfNonempty(actions[..n], usbPath);
      assert actions == actions[..n] + [actions[n]];
      ActionsOfOne(actions[..n], [actions[n]], usbPath);
    }
  }

  lemma ActionsOfNone(usbPath: string)
    ensures ActionsOf([], usbPath) == []
  {
  }

  /** Starting only the first actions starts only the first of each path's. */
  lemma {:induction false} ActionsOfPrefix(actions: seq<ActionResult>, n: nat, usbPath: string)
    requires n <= |actions|
    ensures ActionsOf(actions[..n], usbPath) <= ActionsOf(actions, usbPath)
  {
    hide ActionsOf;
    if n == |actions| {
      assert actions[..n] == actions;
    } else {
      var k := |actions| - 1;
      ActionsOfPrefix(actions[..k], n, usbPath);
      assert actions[..k][..n] == actions[..n] && actions == actions[..k] + [actions[k]];
      ActionsOfOne(actions[..k], [actions[k]], usbPath);
    }
  }

  /** The actions the filter lets through at one path, were they all started. */
  lemma ActionsByPath(st: Store, c: CycleInput, cfg: Settings, usbPath: string)
    requires c.WellFormed() && ReachesEngine(st, c)
    ensures var o := PathStep(View(st, usbPath), AttemptAt(st, c, cfg, usbPath));
            var all := Dispatch(EngineResult(st, c, cfg).plans, c.modems, c.outcomes);
            && |ActionsOf(all, usbPath)| == (if o.ran.Some? then 1 else 0)
            && (o.ran.Some? ==> ActionsOf(all, usbPath)[0].kind == o.ran.value)
  {
    hide StepModem, Transition, GlobalDriverResetEligible, DiagOf, Engine.CycleSpec, AfterStage, EngineResult, ResetAt;
    var one, r, ix := AfterStage(st, c), EngineResult(st, c, cfg), IndexOf(c.modems, usbPath);
    EngineResultByPath(st, c, cfg, usbPath);
    StageOneByPath(st, c, usbPath);
    DispatchByPath(r.plans, c.modems, c.outcomes, usbPath);
    if ix.None? {
      UnknownNeverDispatched(r.plans, c.modems, c.outcomes, usbPath);
    } else if ShortCircuits(st, c, cfg) {
      DriverResetPlanHasNoPath(usbPath);
    } else {
      assert c.modems[ix.value] in c.modems;
      DispatchedExactlyWhenBumped(View(one, usbPath), c.snapshots[ix.value], ContextOf(c, cfg), c.ticks[ix.value],
                                  c.modems, c.outcomes);
    }
  }

  lemma DriverResetPlanHasNoPath(usbPath: string)
    ensures PlansOf([DriverResetPlan()], usbPath) == []
  {
  }

  lemma EngineResultByPath(st: Store, c: CycleInput, cfg: Settings, usbPath: string)
    requires c.WellFormed() && |c.snapshots| == |c.modems|
    ensures var r, one := EngineResult(st, c, cfg), AfterStage(st, c);
            var ix := IndexOf(c.modems, usbPath);
            && (usbPath in r.newStates <==> ix.Some?)
            && (ShortCircuits(st, c, cfg) ==> r.plans == [DriverResetPlan()])
            && (ix.Some? && ShortCircuits(st, c, cfg) ==>
                  r.newStates[usbPath] == Transition(View(one, usbPath), c.snapshots[ix.value], cfg))
            && (ix.Some? && !ShortCircuits(st, c, cfg) ==>
                  var s := StepModem(View(one, usbPath), c.snapshots[ix.value], ContextOf(c, cfg), c.ticks[ix.value]);
                  r.newStates[usbPath] == s.next && PlansOf(r.plans, usbPath) == s.plans)
  {
    hide StepModem, Transition, GlobalDriverResetEligible, DiagOf, Engine.CycleSpec, AfterStage;
    StageKeepsGlobals(st, c);
    EngineByPath(AfterStage(st, c), c, cfg, usbPath);
  }

  /** The daemon's cycle at one path. The driver starts there exactly the action the path's own
      machine runs, unless it is cut short before. The stored record makes that machine's step
      exactly when it is saved; otherwise it is left as the SIM-swap stage left it. */
  lemma CycleProjects(st: Store, c: CycleInput, cfg: Settings, usbPath: string)
    requires c.WellFormed()
    ensures var o := PathStep(View(st, usbPath), AttemptAt(st, c, cfg, usbPath));
            var acts := ActionsOf(CycleActions(st, c, cfg), usbPath);
            && |acts| <= 1
            && (acts != [] ==> ReachesEngine(st, c) && IndexOf(c.modems, usbPath).Some? && o.ran == Some(acts[0].kind))
            && (!c.stop.AfterActions? ==> (acts != [] <==> o.ran.Some?))
            && (SavedAt(st, c, usbPath) ==> (acts != [] <==> o.ran.Some?))
    ensures View(NextStore(st, c, cfg), usbPath) == PathStep(View(st, usbPath), SeenFrom(st, c, cfg, usbPath)).next
  {
    hide StepModem, Transition, GlobalDriverResetEligible, DiagOf, Engine.CycleSpec, AfterStage, DaemonCycle,
         EngineResult, CycleActions, NextStore, StageCompletes, Mentions, HandledSwaps, Dispatch, ActionsOf,
         PersistStates;
    if |c.snapshots| == |c.modems| {
      StageOneByPath(st, c, usbPath);
    }
    if ReachesEngine(st, c) {
      CycleShape(st, c, cfg);
      ActionsByPath(st, c, cfg, usbPath);
      var r := EngineResult(st, c, cfg);
      var all := Dispatch(r.plans, c.modems, c.outcomes);
      if c.stop.AfterActions? && c.stop.started < |all| {
        ActionsOfPrefix(all, c.stop.started, usbPath);
      }
      EngineResultByPath(st, c, cfg, usbPath);
      ActionsOfNonempty(CycleActions(st, c, cfg), usbPath);
      PersistByPath(AfterStage(st, c).states, r.newStates, c.modems, SavedCount(c), CycleActions(st, c, cfg),
                    c.persistAt, usbPath);
    } else {
      CycleStopsEarly(st, c, cfg);
      ActionsOfNone(usbPath);
    }
  }

  /** The stored record shows exactly the actions started: a kind's stamp moves when, and only
      when, an action of that kind was started. */
  ghost predicate Accounts(st: Store, c: CycleInput, cfg: Settings, usbPath: string)
    requires c.WellFormed()
  {
    forall k :: Stamp(View(NextStore(st, c, cfg), usbPath), k) != Stamp(View(st, usbPath), k) <==>
                exists a <- ActionsOf(CycleActions(st, c, cfg), usbPath) :: a.kind == k
  }

  /** Counters count dispatches exactly when they are saved: the stored record accounts for the
      actions of the cycle if and only if none was started or the record was saved. */
  lemma AccountedExactlyWhenSaved(st: Store, c: CycleInput, cfg: Settings, usbPath: string)
    requires c.WellFormed() && cfg.Valid() && forall j | 0 <= j < |c.ticks| :: c.ticks[j].Ordered()
    ensures Accounts(st, c, cfg, usbPath) <==>
            ActionsOf(CycleActions(st, c, cfg), usbPath) == [] || SavedAt(st, c, usbPath)
  {
    hide PathStep, CycleActions, NextStore, ActionsOf, ReachesEngine, ResetAt, View, GlobalDriverResetEligible,
         ContextOf;
    var a, s, was := AttemptAt(st, c, cfg, usbPath), SeenFrom(st, c, cfg, usbPath), View(st, usbPath);
    CycleProjects(st, c, cfg, usbPath);
    AttemptIsTimed(st, c, cfg, usbPath);
    PathStepLaw(was, a, cfg);
    PathStepLaw(was, s, cfg);
    if PathStep(was, a).ran.Some? {
      ExecutionLaw(was, a, cfg);
    }
    var acts := ActionsOf(CycleActions(st, c, cfg), usbPath);
    if acts != [] {
      assert acts[0] in acts;
    }
  }

  lemma AttemptIsTimed(st: Store, c: CycleInput, cfg: Settings, usbPath: string)
    requires c.WellFormed() && forall j | 0 <= j < |c.ticks| :: c.ticks[j].Ordered()
    ensures var s := AttemptAt(st, c, cfg, usbPath); s.Seen? ==> s.ctx.cfg == cfg && s.ticks.Ordered()
  {
    hide GlobalDriverResetEligible;
  }

  // ---------------------------------------------------------------- runs, by path

  /** The run as the stored record of one path goes through it. */
  ghost function Trace(st: Store, cs: seq<CycleInput>, cfg: Settings, usbPath: string): seq<PathCycle>
    requires WellFormedRun(cs)
  {
    if cs == [] then []
    else
      Trace(st, cs[..|cs| - 1], cfg, usbPath)
      + [SeenFrom(After(st, cs[..|cs| - 1], cfg), cs[|cs| - 1], cfg, usbPath)]
  }

  /** An action the driver started: the time the engine stamped it with, the time it was started,
      and whether the record that counts and stamps it was saved. */
  datatype Ran = Ran(kind: ActionKind, stamp: real, start: real, saved: bool)

  /** What the driver started at one path in one cycle. */
  ghost function RanIn(st: Store, c: CycleInput, cfg: Settings, usbPath: string): seq<Ran>
    requires c.WellFormed()
  {
    var acts, ix := ActionsOf(CycleActions(st, c, cfg), usbPath), IndexOf(c.modems, usbPath);
    if acts == [] || ix.None? then []
    else [Ran(acts[0].kind, c.ticks[ix.value].bump, c.starts[ix.value], SavedAt(st, c, usbPath))]
  }

  /** Every action the driver started on one path during the run. */
  ghost function RanLog(st: Store, cs: seq<CycleInput>, cfg: Settings, usbPath: string): seq<Ran>
    requires WellFormedRun(cs)
  {
    if cs == [] then []
    else
      RanLog(st, cs[..|cs| - 1], cfg, usbPath)
      + RanIn(After(st, cs[..|cs| - 1], cfg), cs[|cs| - 1], cfg, usbPath)
  }

  /** Those whose record was saved, as the record sees them. */
  function SavedOf(log: seq<Ran>): seq<Exec> {
    if log == [] then []
    else
      var r := log[|log| - 1];
      SavedOf(log[..|log| - 1]) + (if r.saved then [Exec(r.kind, r.stamp)] else [])
  }

  ghost predicate OrderedTicks(cs: seq<CycleInput>) {
    forall i, j | 0 <= i < |cs| && 0 <= j < |cs[i].ticks| :: cs[i].ticks[j].Ordered()
  }

  lemma {:induction false} TraceIsTimed(st: Store, cs: seq<CycleInput>, cfg: Settings, usbPath: string)
    requires WellFormedRun(cs) && OrderedTicks(cs) && cfg.Valid()
    ensures |Trace(st, cs, cfg, usbPath)| == |cs| && WellTimed(Trace(st, cs, cfg, usbPath), cfg)
  {
    hide After, SeenFrom;
    if cs != [] {
      var n := |cs| - 1;
      TraceIsTimed(st, cs[..n], cfg, usbPath);
      SeenIsTimed(After(st, cs[..n], cfg), cs[n], cfg, usbPath);
    }
  }

  lemma SeenIsTimed(st: Store, c: CycleInput, cfg: Settings, usbPath: string)
    requires c.WellFormed() && forall j | 0 <= j < |c.ticks| :: c.ticks[j].Ordered()
    ensures var s := SeenFrom(st, c, cfg, usbPath); s.Seen? ==> s.ctx.cfg == cfg && s.ticks.Ordered()
  {
    AttemptIsTimed(st, c, cfg, usbPath);
  }

  lemma TraceStep(st: Store, cs: seq<CycleInput>, cfg: Settings, usbPath: string)
    requires WellFormedRun(cs) && OrderedTicks(cs) && cfg.Valid() && cs != []
    ensures var n := |cs| - 1;
            var whole := Trace(st, cs, cfg, usbPath);
            && |whole| == |cs| && whole[..n] == Trace(st, cs[..n], cfg, usbPath)
            && whole[n] == SeenFrom(After(st, cs[..n], cfg), cs[n], cfg, usbPath)
  {
    hide After, SeenFrom;
    TraceIsTimed(st, cs, cfg, usbPath);
  }

  lemma {:induction false} StateProjects(st: Store, cs: seq<CycleInput>, cfg: Settings, usbPath: string)
    requires WellFormedRun(cs) && OrderedTicks(cs) && cfg.Valid()
    ensures View(After(st, cs, cfg), usbPath) == EndState(View(st, usbPath), Trace(st, cs, cfg, usbPath))
  {
    hide PathStep, NextStore, SeenFrom, AttemptAt, View, CycleActions;
    if cs != [] {
      var n := |cs| - 1;
      StateProjects(st, cs[..n], cfg, usbPath);
      CycleProjects(After(st, cs[..n], cfg), cs[n], cfg, usbPath);
      TraceStep(st, cs, cfg, usbPath);
    }
  }

  /** What one more cycle adds to the log. */
  lemma RanLaw(st: Store, c: CycleInput, cfg: Settings, usbPath: string)
    requires c.WellFormed() && cfg.Valid() && forall j | 0 <= j < |c.ticks| :: c.ticks[j].Ordered()
    ensures var ran, was := RanIn(st, c, cfg, usbPath), View(st, usbPath);
            var a, s := AttemptAt(st, c, cfg, usbPath), SeenFrom(st, c, cfg, usbPath);
            && |ran| == |ActionsOf(CycleActions(st, c, cfg), usbPath)| <= 1
            && (ran == [] ==> PathStep(was, s).ran.None?)
            && (ran != [] ==>
                  && a.Seen? && PathStep(was, a).ran == Some(ran[0].kind) && ran[0].stamp == a.ticks.bump
                  && ran[0].kind == ActionsOf(CycleActions(st, c, cfg), usbPath)[0].kind
                  && IndexOf(c.modems, usbPath).Some? && ran[0].start == c.starts[IndexOf(c.modems, usbPath).value]
                  && PathStep(was, s).ran == (if ran[0].saved then Some(ran[0].kind) else None)
                  && (ran[0].saved ==> s == a))
  {
    hide PathStep, CycleActions, NextStore, ActionsOf, ReachesEngine, ResetAt, View, GlobalDriverResetEligible,
         ContextOf;
    CycleProjects(st, c, cfg, usbPath);
    AttemptIsTimed(st, c, cfg, usbPath);
    SeenIsTimed(st, c, cfg, usbPath);
    PathStepLaw(View(st, usbPath), SeenFrom(st, c, cfg, usbPath), cfg);
    PathStepLaw(View(st, usbPath), AttemptAt(st, c, cfg, usbPath), cfg);
  }

  lemma SavedOfAppend(log: seq<Ran>, ran: seq<Ran>)
    requires |ran| <= 1
    ensures SavedOf(log + ran) ==
            SavedOf(log) + (if ran != [] && ran[0].saved then [Exec(ran[0].kind, ran[0].stamp)] else [])
  {
    if ran == [] {
      assert log + ran == log;
    } else {
      assert (log + ran)[..|log|] == log;
    }
  }

  /** Over any run, however its cycles are cut short: at every path the stored record is the end
      of that path's own run, and the executions it counts and stamps are, in order, the actions
      the driver started whose record was saved. */
  lemma {:induction false} RunProjects(st: Store, cs: seq<CycleInput>, cfg: Settings, usbPath: string)
    requires WellFormedRun(cs) && OrderedTicks(cs) && cfg.Valid()
    ensures var trace := Trace(st, cs, cfg, usbPath);
            && WellTimed(trace, cfg)
            && View(After(st, cs, cfg), usbPath) == EndState(View(st, usbPath), trace)
            && SavedOf(RanLog(st, cs, cfg, usbPath)) == Execs(View(st, usbPath), trace)
  {
    hide PathStep, NextStore, SeenFrom, AttemptAt, View, CycleActions, After, EndState, Trace, Execs, ActionsOf, RanIn,
         SavedOf;
    TraceIsTimed(st, cs, cfg, usbPath);
    StateProjects(st, cs, cfg, usbPath);
    if cs == [] {
      EmptyLogs(View(st, usbPath), Trace(st, cs, cfg, usbPath));
    } else {
      var n := |cs| - 1;
      RunProjects(st, cs[..n], cfg, usbPath);
      TraceStep(st, cs, cfg, usbPath);
      var before := After(st, cs[..n], cfg);
      RanLaw(before, cs[n], cfg, usbPath);
      SavedOfAppend(RanLog(st, cs[..n], cfg, usbPath), RanIn(before, cs[n], cfg, usbPath));
      LogStep(View(st, usbPath), Trace(st, cs, cfg, usbPath), cfg);
    }
  }

  lemma EmptyLogs(s: ModemState, trace: seq<PathCycle>)
    ensures trace == [] ==> Execs(s, trace) == []
    ensures SavedOf([]) == []
  {
  }

  // ---------------------------------------------------------------- bounds on what is started

  function LadderStarts(log: seq<Ran>): nat {
    if log == [] then 0
    else LadderStarts(log[..|log| - 1]) + (if OnLadder(log[|log| - 1].kind) then 1 else 0)
  }

  /** Ladder resets that were started and whose record was lost. */
  function LostLadderStarts(log: seq<Ran>): nat {
    if log == [] then 0
    else
      LostLadderStarts(log[..|log| - 1])
      + (if OnLadder(log[|log| - 1].kind) && !log[|log| - 1].saved then 1 else 0)
  }

  lemma {:induction false} StartsAreSavedOrLost(log: seq<Ran>)
    ensures LadderStarts(log) == LadderRuns(SavedOf(log)) + LostLadderStarts(log)
  {
    if log != [] {
      var n := |log| - 1;
      StartsAreSavedOrLost(log[..n]);
      if log[n].saved {
        LadderRunsOne(SavedOf(log[..n]), Exec(log[n].kind, log[n].stamp));
      } else {
        assert SavedOf(log[..n]) + [] == SavedOf(log[..n]);
      }
    }
  }

  lemma LadderRunsOne(log: seq<Exec>, e: Exec)
    ensures LadderRuns(log + [e]) == LadderRuns(log) + (if OnLadder(e.kind) then 1 else 0)
  {
    TimesOne(log, e, SoftReset);
    TimesOne(log, e, ModemReset);
    TimesOne(log, e, UsbReset);
  }

  /** End to end: K times the ladder resets the driver starts on a modem, over any daemon run from
      a store within the ceilings, is bounded by the budget, the SIM swaps and the modem's own
      healthy cycles, and by K for each reset of that modem whose record was lost. */
  lemma DispatchedLadderResetsAreBounded(st: Store, cs: seq<CycleInput>, cfg: Settings, usbPath: string)
    requires WellFormedRun(cs) && OrderedTicks(cs) && cfg.Valid()
    requires View(st, usbPath).Valid() && WithinCeilings(View(st, usbPath).counters, cfg)
    ensures var trace, log := Trace(st, cs, cfg, usbPath), RanLog(st, cs, cfg, usbPath);
            cfg.decayK * LadderStarts(log) <=
            Budget(cfg) * (cfg.decayK * (1 + Swaps(trace)) + HealthyCycles(View(st, usbPath), trace)
                           + View(st, usbPath).healthyStreak)
            + cfg.decayK * LostLadderStarts(log)
  {
    hide Trace, RanLog, SavedOf, Execs, HealthyCycles, Swaps, LadderRuns, LadderStarts, LostLadderStarts, View, Budget;
    RunProjects(st, cs, cfg, usbPath);
    AmortisedLadderResets(View(st, usbPath), Trace(st, cs, cfg, usbPath), cfg);
    var log := RanLog(st, cs, cfg, usbPath);
    StartsAreSavedOrLost(log);
    var k, saved, lost := cfg.decayK, LadderRuns(SavedOf(log)), LostLadderStarts(log);
    assert k * (saved + lost) == k * saved + k * lost;
  }

  predicate Apart(a: Ran, b: Ran, gap: real) {
    && b.stamp - a.stamp >= gap
    && b.start - a.start >= gap - (a.start - a.stamp)
  }

  /** The distance due between a started action and a later one, in engine stamps; the starts keep
      it too, less the time by which the earlier start followed its stamp. */
  predicate KeepsDistance(a: Ran, b: Ran, cfg: Settings) {
    && (a.kind == b.kind ==> Apart(a, b, cfg.backoffSeconds as real))
    && (Destructive(a.kind) && Destructive(b.kind) ==> Apart(a, b, cfg.ladderMinIntervalSeconds as real))
  }

  /** Each started action keeps its distance from every earlier one whose record was saved. */
  ghost predicate SpacedFromSaved(log: seq<Ran>, cfg: Settings) {
    forall i, j | 0 <= i < j < |log| && log[i].saved :: KeepsDistance(log[i], log[j], cfg)
  }

  /** The record remembers, per kind, a time no earlier than any saved execution of it. */
  ghost predicate RemembersSaved(log: seq<Ran>, s: ModemState) {
    forall i | 0 <= i < |log| && log[i].saved ::
      Stamp(s, log[i].kind).Some? && Stamp(s, log[i].kind).value >= log[i].stamp
  }

  /** Actions are started after the engine has stamped them. */
  ghost predicate StartsFollowStamps(cs: seq<CycleInput>) {
    forall i, j | 0 <= i < |cs| && 0 <= j < |cs[i].ticks| && j < |cs[i].starts| ::
      cs[i].starts[j] >= cs[i].ticks[j].bump
  }

  lemma AppendStarted(log: seq<Ran>, r: Ran, was: ModemState, next: ModemState, t: Ticks, cfg: Settings)
    requires cfg.Valid() && t.Ordered() && SpacedFromSaved(log, cfg) && RemembersSaved(log, was)
    requires r.stamp == t.bump && r.start >= t.bump
    requires Stamp(was, r.kind).Some? ==> t.same - Stamp(was, r.kind).value >= cfg.backoffSeconds as real
    requires Destructive(r.kind) ==> forall d | Destructive(d) && Stamp(was, d).Some? ::
               t.ladder - Stamp(was, d).value >= cfg.ladderMinIntervalSeconds as real
    requires forall d :: Stamp(next, d) == if r.saved && d == r.kind then Some(t.bump) else Stamp(was, d)
    ensures SpacedFromSaved(log + [r], cfg) && RemembersSaved(log + [r], next)
  {
  }

  /** Spacing of what the driver starts, over any run. */
  lemma {:induction false} DispatchesAreSpaced(st: Store, cs: seq<CycleInput>, cfg: Settings, usbPath: string)
    requires WellFormedRun(cs) && OrderedTicks(cs) && StartsFollowStamps(cs) && cfg.Valid()
    ensures SpacedFromSaved(RanLog(st, cs, cfg, usbPath), cfg)
    ensures RemembersSaved(RanLog(st, cs, cfg, usbPath), View(After(st, cs, cfg), usbPath))
  {
    hide PathStep, NextStore, SeenFrom, AttemptAt, View, CycleActions, ActionsOf, RanIn, SpacedFromSaved,
         RemembersSaved;
    if cs == [] {
      NothingStarted(View(st, usbPath), cfg);
    } else {
      var n := |cs| - 1;
      DispatchesAreSpaced(st, cs[..n], cfg, usbPath);
      StartedStep(After(st, cs[..n], cfg), cs[n], cfg, usbPath, RanLog(st, cs[..n], cfg, usbPath));
    }
  }

  lemma NothingStarted(s: ModemState, cfg: Settings)
    ensures SpacedFromSaved([], cfg) && RemembersSaved([], s)
  {
  }

  lemma StartedStep(st: Store, c: CycleInput, cfg: Settings, usbPath: string, log: seq<Ran>)
    requires c.WellFormed() && cfg.Valid() && forall j | 0 <= j < |c.ticks| :: c.ticks[j].Ordered()
    requires forall j | 0 <= j < |c.ticks| :: c.starts[j] >= c.ticks[j].bump
    requires SpacedFromSaved(log, cfg) && RemembersSaved(log, View(st, usbPath))
    ensures var more := log + RanIn(st, c, cfg, usbPath);
            SpacedFromSaved(more, cfg) && RemembersSaved(more, View(NextStore(st, c, cfg), usbPath))
  {
    hide PathStep, NextStore, View, CycleActions, ActionsOf, RanIn, SpacedFromSaved, Clears, ReachesEngine, ResetAt,
         GlobalDriverResetEligible, ContextOf;
    var ran, was, next := RanIn(st, c, cfg, usbPath), View(st, usbPath), View(NextStore(st, c, cfg), usbPath);
    var a, s := AttemptAt(st, c, cfg, usbPath), SeenFrom(st, c, cfg, usbPath);
    RanLaw(st, c, cfg, usbPath);
    CycleProjects(st, c, cfg, usbPath);
    AttemptIsTimed(st, c, cfg, usbPath);
    SeenIsTimed(st, c, cfg, usbPath);
    PathStepLaw(was, s, cfg);
    if ran == [] {
      assert log + ran == log;
    } else {
      PathStepLaw(was, a, cfg);
      ExecutionLaw(was, a, cfg);
      assert log + ran == log + [ran[0]];
      AppendStarted(log, ran[0], was, next, a.ticks, cfg);
    }
  }

  // ---------------------------------------------------------------- per-modem driver resets

  /** One modem whose proxy has died, in a cycle that runs to its end. */
  function DeadProxy(): CycleInput {
    var snap := ModemSnapshot("2-1", "cdc-wdm0", None, None, Signal(Some(-90), Some(-10.0), Some(5.0)),
                              [Issue(Qmi, QmiProxyDied)]);
    CycleInput([Descriptor("2-1", "cdc-wdm0")], [snap], [Ticks(0.0, 0.0, 0.0)], false, 0.0, 0.0, 0.0, map[], [0.0],
               Never)
  }

  const NEW_STORE := Store(map[], GlobalsState(0, None), map[])

  const LIVE := Settings(300, 90, 10, 0.75, 3600, -110, -15.0, 0.0, 3, 2, 1, false)

  lemma DeadProxyStage()
    ensures var c := DeadProxy();
            && AfterStage(NEW_STORE, c) == NEW_STORE && ReachesEngine(NEW_STORE, c)
            && !ResetAt(NEW_STORE, c, "2-1") && IndexOf(c.modems, "2-1") == Some(0)
  {
    var c := DeadProxy();
    assert c.modems[..0] == [] && c.snapshots[..0] == [];
    assert CurrentIdentities(c.modems, c.snapshots) == map[];
    assert SwapEvents(map[], c.modems, c.snapshots) == [];
  }

  lemma DeadProxyIsNotShort()
    ensures !ShortCircuits(NEW_STORE, DeadProxy(), LIVE)
  {
    hide GlobalDriverResetEligible;
    var c := DeadProxy();
    var e := DiagOf(c).perModem[0];
    assert DiagOf(c).perModem == [e] && !Hung(e.snap);
    NoneHungIsNotShort(DiagOf(c), NEW_STORE.globals, ContextOf(c, LIVE));
  }

  lemma NoneHungIsNotShort(diag: Diag, globals: GlobalsState, ctx: Context)
    requires forall e <- diag.perModem :: !Hung(e.snap)
    ensures !GlobalDriverResetEligible(diag, globals, ctx)
  {
    hide Hung, HungCount, ClearsFloors;
  }

  /** Such a modem, with no record yet, gets a driver reset. */
  lemma DeadProxyRuns()
    ensures var a := AttemptAt(NEW_STORE, DeadProxy(), LIVE, "2-1");
            a.Seen? && PathStep(FreshState(), a).ran == Some(DriverReset)
  {
    hide GlobalDriverResetEligible, CurrentIdentities, SwapEvents, LookupAction, SelectTopPriorityIssue;
    DeadProxyStage();
    DeadProxyIsNotShort();
    var a := AttemptAt(NEW_STORE, DeadProxy(), LIVE, "2-1");
    var issue := Issue(Qmi, QmiProxyDied);
    assert a.snap.issues == [issue];
    TopPriorityIssueIsMostUrgent(a.snap.issues);
    assert SelectTopPriorityIssue(a.snap.issues) == Some(issue);
    DriverResetExactlyForDeadProxy(FreshState(), a.snap, a.ctx, a.ticks);
  }

  /** Outside a short-circuited cycle the driver starts a driver reset on a modem exactly when its
      most urgent issue is a dead proxy and the per-modem gates let it through, however few
      modems of the fleet are hung. */
  lemma PerModemDriverResetIgnoresTheFleet(st: Store, c: CycleInput, cfg: Settings, usbPath: string)
    requires c.WellFormed() && ReachesEngine(st, c) && !c.stop.AfterActions? && IndexOf(c.modems, usbPath).Some?
    requires !ShortCircuits(st, c, cfg)
    ensures var i := IndexOf(c.modems, usbPath).value;
            var base := AfterSwap(View(st, usbPath), ResetAt(st, c, usbPath));
            (exists a <- ActionsOf(CycleActions(st, c, cfg), usbPath) :: a.kind == DriverReset) <==>
              && SelectTopPriorityIssue(c.snapshots[i].issues) == Some(Issue(Qmi, QmiProxyDied))
              && MayExecute(DriverReset, Transition(base, c.snapshots[i], cfg), ContextOf(c, cfg), c.ticks[i])
  {
    hide CycleActions, NextStore, ActionsOf, StageCompletes, ResetAt, View, GlobalDriverResetEligible, StepModem,
         Transition, MayExecute, SelectTopPriorityIssue;
    var i := IndexOf(c.modems, usbPath).value;
    CycleProjects(st, c, cfg, usbPath);
    DriverResetExactlyForDeadProxy(AfterSwap(View(st, usbPath), ResetAt(st, c, usbPath)), c.snapshots[i],
                                   ContextOf(c, cfg), c.ticks[i]);
    var acts := ActionsOf(CycleActions(st, c, cfg), usbPath);
    if acts != [] {
      assert acts[0] in acts;
    }
  }

  /** A cycle in which that happens while the fleet's reset is not eligible, no modem being hung. */
  lemma DeadProxyIsResetBelowTheFraction()
    ensures exists st: Store, c: CycleInput, cfg: Settings ::
              && c.WellFormed() && cfg.Valid() && ReachesEngine(st, c) && !ShortCircuits(st, c, cfg)
              && exists a <- CycleActions(st, c, cfg) :: a.kind == DriverReset && a.usbPath == "2-1"
  {
    hide GlobalDriverResetEligible, CycleActions, PathStep, ActionsOf, Engine.CycleSpec, AfterStage, ReachesEngine;
    var c := DeadProxy();
    DeadProxyStage();
    DeadProxyIsNotShort();
    DeadProxyRuns();
    assert c.WellFormed() && LIVE.Valid();
    CycleProjects(NEW_STORE, c, LIVE, "2-1");
    var acts := ActionsOf(CycleActions(NEW_STORE, c, LIVE), "2-1");
    OfPathAreOfAll(CycleActions(NEW_STORE, c, LIVE), "2-1");
    assert acts[0] in CycleActions(NEW_STORE, c, LIVE);
  }

  lemma {:induction false} OfPathAreOfAll(actions: seq<ActionResult>, usbPath: string)
    ensures forall a | a in ActionsOf(actions, usbPath) :: a in actions && a.usbPath == usbPath
  {
    hide ActionsOf;
    if actions == [] {
      ActionsOfNone(usbPath);
    } else {
      var n := |actions| - 1;
      OfPathAreOfAll(actions[..n], usbPath);
      assert actions == actions[..n] + [actions[n]];
      ActionsOfOne(actions[..n], [actions[n]], usbPath);
    }
  }

  // ---------------------------------------------------------------- driver resets

  /** The cycle short-circuits and gets to saving the globals. */
  predicate CountsDriverReset(st: Store, c: CycleInput, cfg: Settings)
    requires |c.ticks| == |c.modems|
  {
    ReachesEngine(st, c) && !c.stop.AfterActions? && !c.stop.AfterSaves? && ShortCircuits(st, c, cfg)
  }

  /** The times at which the stored reset count was incremented. */
  ghost function DriverResets(st: Store, cs: seq<CycleInput>, cfg: Settings): seq<real>
    requires WellFormedRun(cs)
  {
    if cs == [] then []
    else
      var before, c := After(st, cs[..|cs| - 1], cfg), cs[|cs| - 1];
      DriverResets(st, cs[..|cs| - 1], cfg) + (if CountsDriverReset(before, c, cfg) then [c.stampAt] else [])
  }

  lemma GlobalsStep(st: Store, c: CycleInput, cfg: Settings)
    requires c.WellFormed() && cfg.Valid()
    ensures var fires := CountsDriverReset(st, c, cfg);
            && NextStore(st, c, cfg).globals ==
               (if fires then GlobalsState(st.globals.driverResetCount + 1, Some(c.stampAt)) else st.globals)
            && (fires && st.globals.lastDriverReset.Some? ==>
                  c.cooldownAt >= st.globals.lastDriverReset.value + cfg.driverResetBackoffSeconds as real)
  {
    hide ShortCircuits, NextStore, CycleActions, AfterStage, EngineResult, StageCompletes;
    if |c.snapshots| == |c.modems| {
      StageKeepsGlobals(st, c);
    }
    if ReachesEngine(st, c) {
      CycleShape(st, c, cfg);
      EngineGlobals(st, c, cfg);
    } else {
      CycleStopsEarly(st, c, cfg);
    }
  }

  lemma EngineGlobals(st: Store, c: CycleInput, cfg: Settings)
    requires c.WellFormed() && cfg.Valid() && |c.snapshots| == |c.modems|
    ensures EngineResult(st, c, cfg).newGlobals ==
            if ShortCircuits(st, c, cfg)
            then GlobalsState(st.globals.driverResetCount + 1, Some(c.stampAt)) else st.globals
    ensures ShortCircuits(st, c, cfg) && st.globals.lastDriverReset.Some? ==>
              c.cooldownAt >= st.globals.lastDriverReset.value + cfg.driverResetBackoffSeconds as real
  {
    hide GlobalDriverResetEligible, DiagOf, AfterStage, Hydrate, PerModemCycle, DriverResetCycle;
    DiagShape(c);
    StageKeepsGlobals(st, c);
    EngineGlobalsAre(DiagOf(c), Hydrate(AfterStage(st, c).states, c.modems), st.globals, ContextOf(c, cfg));
    if ShortCircuits(st, c, cfg) && st.globals.lastDriverReset.Some? {
      CooldownPassed(DiagOf(c), st.globals, ContextOf(c, cfg));
    }
  }

  lemma EngineGlobalsAre(diag: Diag, priors: map<string, ModemState>, globals: GlobalsState, ctx: Context)
    requires diag.DistinctPaths()
    ensures Engine.CycleSpec(diag, priors, globals, ctx).newGlobals ==
            if GlobalDriverResetEligible(diag, globals, ctx)
            then GlobalsState(globals.driverResetCount + 1, Some(ctx.stampAt)) else globals
  {
    hide StepModem, Transition, GlobalDriverResetEligible, PerModemCycle, DriverResetCycle;
    var es := diag.perModem;
    assert Diag(es, []).DistinctPaths();
    PerModemCycleIsPointwise(es, priors, globals, ctx);
    DriverResetCycleIsPointwise(es, priors, globals, ctx);
  }

  lemma CooldownPassed(diag: Diag, globals: GlobalsState, ctx: Context)
    requires ctx.cfg.Valid() && GlobalDriverResetEligible(diag, globals, ctx) && globals.lastDriverReset.Some?
    ensures ctx.cooldownAt >= globals.lastDriverReset.value + ctx.cfg.driverResetBackoffSeconds as real
  {
    EligibilityLaw(diag, globals, ctx);
  }

  /** The globals agree with a log of reset times, itself at least `gap` apart. */
  ghost predicate ResetLogAgrees(start: GlobalsState, g: GlobalsState, log: seq<real>, gap: real) {
    && g.driverResetCount == start.driverResetCount + |log|
    && (log != [] ==> g.lastDriverReset == Some(log[|log| - 1]))
    && (log == [] ==> g.lastDriverReset == start.lastDriverReset)
    && (forall i, j | 0 <= i < j < |log| :: log[j] - log[i] >= gap)
  }

  lemma ResetLogStep(start: GlobalsState, g: GlobalsState, log: seq<real>, gap: real, at: real)
    requires ResetLogAgrees(start, g, log, gap) && gap >= 0.0
    requires g.lastDriverReset.Some? ==> at >= g.lastDriverReset.value + gap
    ensures ResetLogAgrees(start, GlobalsState(g.driverResetCount + 1, Some(at)), log + [at], gap)
  {
    forall i | 0 <= i < |log| ensures at - log[i] >= gap {
      if i < |log| - 1 {
        assert log[|log| - 1] - log[i] >= gap;
      }
    }
  }

  /** Increments of the reset count are counted exactly, and are the global cooldown apart. */
  lemma {:induction false} DriverResetsAreSpaced(st: Store, cs: seq<CycleInput>, cfg: Settings)
    requires WellFormedRun(cs) && cfg.Valid()
    requires forall i | 0 <= i < |cs| :: cs[i].cooldownAt <= cs[i].stampAt
    ensures ResetLogAgrees(st.globals, After(st, cs, cfg).globals, DriverResets(st, cs, cfg),
                           cfg.driverResetBackoffSeconds as real)
  {
    hide CountsDriverReset, NextStore, ResetLogAgrees;
    if cs == [] {
      NoResetYet(st, cfg);
    } else {
      var n := |cs| - 1;
      DriverResetsAreSpaced(st, cs[..n], cfg);
      var before := After(st, cs[..n], cfg);
      GlobalsStep(before, cs[n], cfg);
      if CountsDriverReset(before, cs[n], cfg) {
        ResetLogStep(st.globals, before.globals, DriverResets(st, cs[..n], cfg),
                     cfg.driverResetBackoffSeconds as real, cs[n].stampAt);
      } else {
        assert DriverResets(st, cs[..n], cfg) + [] == DriverResets(st, cs[..n], cfg);
      }
    }
  }

  lemma NoResetYet(st: Store, cfg: Settings)
    ensures ResetLogAgrees(st.globals, st.globals, [], cfg.driverResetBackoffSeconds as real)
  {
  }
}
