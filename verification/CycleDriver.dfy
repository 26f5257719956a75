/** One daemon cycle around the engine: SIM-swap stage, hydration, policy, dispatch, persistence.
    The persistent store is three fields here; how it keeps them is modelled in `StateStore`. */
module CycleDriver {
  import opened Wire
  import opened Engine

  datatype Descriptor = Descriptor(usbPath: string, cdcWdm: string)

  datatype Identity = Identity(iccid: string, imsi: string)

  /** The ICCIDs before redaction. */
  datatype SimSwapped = SimSwapped(usbPath: string, oldIccid: string, newIccid: string)

  datatype ActionResult = ActionResult(kind: ActionKind, usbPath: string, succeeded: bool)

  /** Where a cycle is cut short, by an exception of the store, by cancellation or by the death of
      the process: before the identity file is rewritten; after some of the SIM-swap resets;
      while prior records or globals are loaded; after some actions were started and before
      anything is saved; after some records were saved and before the globals are. A save that
      raises after replacing the file counts as made. */
  datatype Stop =
    | Never
    | AtIdentityFile
    | AfterResets(resets: nat)
    | AtLoad
    | AfterActions(started: nat)
    | AfterSaves(saved: nat)

  /** Everything one cycle reads from outside: descriptors and snapshots, clock readings, the
      maintenance window, the outcome of each action should it be run, when the action on each
      modem is started, and how far the cycle gets. */
  datatype CycleInput = CycleInput(
    modems: seq<Descriptor>,
    snapshots: seq<ModemSnapshot>,
    ticks: seq<Ticks>,
    maintenanceActive: bool,
    cooldownAt: real,
    stampAt: real,
    persistAt: real,
    outcomes: map<string, bool>,
    starts: seq<real>,
    stop: Stop)
  {
    /** What the scan and the observer guarantee: distinct paths, and, unless observation
        crashed, one snapshot per descriptor in the same order. */
    ghost predicate WellFormed() {
      && |ticks| == |modems| == |starts|
      && (forall i, j | 0 <= i < j < |modems| :: modems[i].usbPath != modems[j].usbPath)
      && (|snapshots| == |modems| ==>
            forall i | 0 <= i < |modems| :: snapshots[i].usbPath == modems[i].usbPath
                                            && snapshots[i].cdcWdm == modems[i].cdcWdm)
    }
  }

  /** What survives between cycles. */
  datatype Store = Store(
    states: map<string, ModemState>,
    globals: GlobalsState,
    identities: map<string, Identity>)

  datatype Ended = SnapshotCountMismatch | Interrupted | Finished(result: CycleResult)

  /** `actions` are those started, `simEvents` those appended. */
  datatype CycleOutput = CycleOutput(
    store: Store,
    simEvents: seq<SimSwapped>,
    actions: seq<ActionResult>,
    ended: Ended)

  function DiagOf(c: CycleInput): Diag
    requires |c.snapshots| == |c.modems| == |c.ticks|
  {
    Diag(seq(|c.modems|, i requires 0 <= i < |c.modems| =>
               Entry(c.snapshots[i].usbPath, c.snapshots[i], c.ticks[i])), [])
  }

  function ContextOf(c: CycleInput, cfg: Settings): Context {
    Context(cfg, c.maintenanceActive, if |c.modems| == 0 then 4 else |c.modems|, c.cooldownAt, c.stampAt)
  }

  // ---------------------------------------------------------------- stage specifications

  predicate Surfaced(snap: ModemSnapshot) {
    snap.iccid.Some? && snap.imsi.Some?
  }

  /** The identities surfaced this cycle, by path. */
  function CurrentIdentities(modems: seq<Descriptor>, snaps: seq<ModemSnapshot>): map<string, Identity>
    requires |modems| == |snaps|
  {
    if modems == [] then map[]
    else
      var n := |modems| - 1;
      var init := CurrentIdentities(modems[..n], snaps[..n]);
      if !Surfaced(snaps[n]) then init
      else init[modems[n].usbPath := Identity(snaps[n].iccid.value, snaps[n].imsi.value)]
  }

  predicate SwappedAt(prior: map<string, Identity>, usbPath: string, snap: ModemSnapshot) {
    Surfaced(snap) && usbPath in prior && prior[usbPath].iccid != snap.iccid.value
  }

  /** One event per descriptor whose surfaced ICCID differs from the stored one, in order. */
  function SwapEvents(prior: map<string, Identity>, modems: seq<Descriptor>, snaps: seq<ModemSnapshot>): seq<SimSwapped>
    requires |modems| == |snaps|
  {
    if modems == [] then []
    else
      var n := |modems| - 1;
      SwapEvents(prior, modems[..n], snaps[..n])
      + (if SwappedAt(prior, modems[n].usbPath, snaps[n])
         then [SimSwapped(modems[n].usbPath, prior[modems[n].usbPath].iccid, snaps[n].iccid.value)] else [])
  }

  /** The surfaced identities as a list, in the order of the descriptors. */
  function SurfacedItems(modems: seq<Descriptor>, snaps: seq<ModemSnapshot>): seq<(string, Identity)>
    requires |modems| == |snaps|
  {
    if modems == [] then []
    else
      var n := |modems| - 1;
      SurfacedItems(modems[..n], snaps[..n])
      + (if Surfaced(snaps[n]) then [(modems[n].usbPath, Identity(snaps[n].iccid.value, snaps[n].imsi.value))] else [])
  }

  /** How both grow with one more descriptor. */
  lemma IdentityStep(modems: seq<Descriptor>, snaps: seq<ModemSnapshot>, i: nat)
    requires |modems| == |snaps| && i < |modems|
    ensures var one, p, snap := CurrentIdentities(modems[..i], snaps[..i]), modems[i].usbPath, snaps[i];
            CurrentIdentities(modems[..i + 1], snaps[..i + 1]) ==
            if Surfaced(snap) then one[p := Identity(snap.iccid.value, snap.imsi.value)] else one
    ensures var one, p, snap := SurfacedItems(modems[..i], snaps[..i]), modems[i].usbPath, snaps[i];
            SurfacedItems(modems[..i + 1], snaps[..i + 1]) ==
            if Surfaced(snap) then one + [(p, Identity(snap.iccid.value, snap.imsi.value))] else one
  {
    assert modems[..i + 1][..i] == modems[..i] && snaps[..i + 1][..i] == snaps[..i];
    assert SurfacedItems(modems[..i], snaps[..i]) + [] == SurfacedItems(modems[..i], snaps[..i]);
  }

  function SwapsAmong(prior: map<string, Identity>, items: seq<(string, Identity)>): seq<SimSwapped> {
    if items == [] then []
    else
      var (p, id) := items[|items| - 1];
      SwapsAmong(prior, items[..|items| - 1])
      + (if p in prior && prior[p].iccid != id.iccid then [SimSwapped(p, prior[p].iccid, id.iccid)] else [])
  }

  lemma SwapsAmongStep(prior: map<string, Identity>, items: seq<(string, Identity)>, i: nat)
    requires i < |items|
    ensures var one, p, id := SwapsAmong(prior, items[..i]), items[i].0, items[i].1;
            SwapsAmong(prior, items[..i + 1]) ==
            if p in prior && prior[p].iccid != id.iccid then one + [SimSwapped(p, prior[p].iccid, id.iccid)] else one
  {
    assert items[..i + 1][..i] == items[..i];
  }

  lemma {:induction false} SwapsAmongItems(prior: map<string, Identity>, modems: seq<Descriptor>,
                                           snaps: seq<ModemSnapshot>)
    requires |modems| == |snaps|
    ensures SwapsAmong(prior, SurfacedItems(modems, snaps)) == SwapEvents(prior, modems, snaps)
  {
    if modems != [] {
      var n := |modems| - 1;
      SwapsAmongItems(prior, modems[..n], snaps[..n]);
      var init := SurfacedItems(modems[..n], snaps[..n]);
      if Surfaced(snaps[n]) {
        assert SurfacedItems(modems, snaps)[..|init|] == init;
      } else {
        assert SurfacedItems(modems, snaps) == init;
      }
    }
  }

  lemma ResetStep(states: map<string, ModemState>, events: seq<SimSwapped>, i: nat)
    requires i < |events|
    ensures var one, p := ResetAll(states, events[..i]), events[i].usbPath;
            ResetAll(states, events[..i + 1]) == one[p := ResetState(one, p)]
  {
    assert events[..i + 1][..i] == events[..i];
  }

  lemma StageStarts(prior: map<string, Identity>, states: map<string, ModemState>)
    ensures CurrentIdentities([], []) == map[] && SurfacedItems([], []) == [] && SwapsAmong(prior, []) == []
    ensures ResetAll(states, []) == states
  {
  }

  function ResetState(states: map<string, ModemState>, usbPath: string): ModemState {
    if usbPath in states then states[usbPath].(healthyStreak := 0, counters := map[]) else FreshState()
  }

  function ResetAll(states: map<string, ModemState>, events: seq<SimSwapped>): map<string, ModemState> {
    if events == [] then states
    else
      var init := ResetAll(states, events[..|events| - 1]);
      var p := events[|events| - 1].usbPath;
      init[p := ResetState(init, p)]
  }

  /** The identity file after the stage: rewritten with this cycle's map alone if any surfaced
      identity is new or different, otherwise untouched. */
  function SavedIdentities(prior: map<string, Identity>, current: map<string, Identity>): map<string, Identity> {
    if exists p <- current :: p !in prior || prior[p] != current[p] then current else prior
  }

  /** The swaps whose reset and event the stage gets to. */
  function HandledSwaps(store: Store, c: CycleInput): seq<SimSwapped>
    requires |c.snapshots| == |c.modems|
  {
    var events := SwapEvents(store.identities, c.modems, c.snapshots);
    match c.stop
    case AtIdentityFile => []
    case AfterResets(k) => if k < |events| then events[..k] else events
    case _ => events
  }

  predicate StageCompletes(store: Store, c: CycleInput)
    requires |c.snapshots| == |c.modems|
  {
    && !c.stop.AtIdentityFile?
    && (c.stop.AfterResets? ==> c.stop.resets >= |SwapEvents(store.identities, c.modems, c.snapshots)|)
  }

  /** The store after the SIM-swap stage, or after as much of it as was run. */
  function AfterStage(store: Store, c: CycleInput): Store
    requires |c.snapshots| == |c.modems|
  {
    if c.stop.AtIdentityFile? then store
    else store.(identities := SavedIdentities(store.identities, CurrentIdentities(c.modems, c.snapshots)),
                states := ResetAll(store.states, HandledSwaps(store, c)))
  }

  function Hydrate(states: map<string, ModemState>, modems: seq<Descriptor>): map<string, ModemState> {
    if modems == [] then map[]
    else
      var p := modems[|modems| - 1].usbPath;
      Hydrate(states, modems[..|modems| - 1])[p := PriorOf(states, p)]
  }

  predicate Known(modems: seq<Descriptor>, usbPath: string) {
    exists m <- modems :: m.usbPath == usbPath
  }

  predicate Dispatched(plan: PlannedAction, modems: seq<Descriptor>) {
    && !plan.suppressedByBackoff && !plan.suppressedBySignalGate && !plan.suppressedByDryRun
    && plan.reason.ActionPlanned?
    && plan.who.WhoModem?
    && Known(modems, plan.who.usbPath)
  }

  /** The filter, flag by flag: a plan held back by any gate or dry run, given another reason, about the
      host, or about a modem no longer found is not started, whoever planned it; any other is. */
  lemma FilterIsExact(plan: PlannedAction, modems: seq<Descriptor>, outcomes: map<string, bool>)
    ensures var heldBack := plan.suppressedByBackoff || plan.suppressedBySignalGate || plan.suppressedByDryRun;
            var found := plan.who.WhoModem? && exists m <- modems :: m.usbPath == plan.who.usbPath;
            |Dispatch([plan], modems, outcomes)| == if !heldBack && plan.reason.ActionPlanned? && found then 1 else 0
  {
    assert [plan][..0] == [];
  }

  function ResultOf(plan: PlannedAction, outcomes: map<string, bool>): ActionResult
    requires plan.who.WhoModem?
  {
    var p := plan.who.usbPath;
    ActionResult(plan.kind, p, p in outcomes && outcomes[p])
  }

  function Dispatch(plans: seq<PlannedAction>, modems: seq<Descriptor>,
                    outcomes: map<string, bool>): seq<ActionResult>
  {
    if plans == [] then []
    else
      var plan := plans[|plans| - 1];
      Dispatch(plans[..|plans| - 1], modems, outcomes)
      + (if Dispatched(plan, modems) then [ResultOf(plan, outcomes)] else [])
  }

  lemma NothingDispatched(modems: seq<Descriptor>, outcomes: map<string, bool>)
    ensures Dispatch([], modems, outcomes) == []
  {
  }

  lemma DispatchStep(plans: seq<PlannedAction>, modems: seq<Descriptor>, outcomes: map<string, bool>, i: nat)
    requires i < |plans|
    ensures var one, plan := Dispatch(plans[..i], modems, outcomes), plans[i];
            Dispatch(plans[..i + 1], modems, outcomes) ==
            if Dispatched(plan, modems) then one + [ResultOf(plan, outcomes)] else one
  {
    assert plans[..i + 1][..i] == plans[..i];
    assert Dispatch(plans[..i], modems, outcomes) + [] == Dispatch(plans[..i], modems, outcomes);
  }

  lemma {:induction false} DispatchGrows(plans: seq<PlannedAction>, modems: seq<Descriptor>,
                                         outcomes: map<string, bool>, i: nat, j: nat)
    requires i <= j <= |plans|
    ensures Dispatch(plans[..i], modems, outcomes) <= Dispatch(plans[..j], modems, outcomes)
    decreases j - i
  {
    hide Dispatch;
    if i < j {
      DispatchGrows(plans, modems, outcomes, i, j - 1);
      DispatchStep(plans, modems, outcomes, j - 1);
    }
  }

  function Stamped(s: ModemState, usbPath: string, actions: seq<ActionResult>, persistAt: real): ModemState {
    if exists a <- actions :: a.usbPath == usbPath then s.(lastAction := Some(persistAt)) else s
  }

  /** The records after the first `n` modems, in scan order, had theirs saved. */
  function PersistStates(states: map<string, ModemState>, written: map<string, ModemState>, modems: seq<Descriptor>,
                         n: nat, actions: seq<ActionResult>, persistAt: real): map<string, ModemState>
    requires n <= |modems|
  {
    if n == 0 then states
    else
      var init, p := PersistStates(states, written, modems, n - 1, actions, persistAt), modems[n - 1].usbPath;
      if p in written then init[p := Stamped(written[p], p, actions, persistAt)] else init
  }

  /** How many modems' records are saved in a cycle that gets to saving. */
  function SavedCount(c: CycleInput): nat {
    match c.stop
    case AfterActions(_) => 0
    case AfterSaves(saved) => if saved < |c.modems| then saved else |c.modems|
    case _ => |c.modems|
  }

  /** The actions started, of those the filter lets through. */
  function StartedOf(actions: seq<ActionResult>, stop: Stop): seq<ActionResult> {
    if stop.AfterActions? && stop.started < |actions| then actions[..stop.started] else actions
  }

  /** The whole cycle. When observation crashed, the SIM-swap stage raises on the length
      mismatch before anything is written. */
  function DaemonCycle(store: Store, c: CycleInput, cfg: Settings): CycleOutput
    requires |c.ticks| == |c.modems|
  {
    if |c.snapshots| != |c.modems| then CycleOutput(store, [], [], SnapshotCountMismatch)
    else
      var one, events := AfterStage(store, c), HandledSwaps(store, c);
      if !StageCompletes(store, c) || c.stop.AtLoad? then CycleOutput(one, events, [], Interrupted)
      else
        var result := EngineOn(one, c, cfg);
        var actions := StartedOf(Dispatch(result.plans, c.modems, c.outcomes), c.stop);
        var states := PersistStates(one.states, result.newStates, c.modems, SavedCount(c), actions, c.persistAt);
        if c.stop.AfterActions? || c.stop.AfterSaves? then
          CycleOutput(one.(states := states), events, actions, Interrupted)
        else
          CycleOutput(one.(states := states, globals := result.newGlobals), events, actions, Finished(result))
  }

  /** What the engine returns on the records and globals loaded from a store. */
  function EngineOn(one: Store, c: CycleInput, cfg: Settings): CycleResult
    requires |c.snapshots| == |c.modems| == |c.ticks|
  {
    Engine.CycleSpec(DiagOf(c), Hydrate(one.states, c.modems), one.globals, ContextOf(c, cfg))
  }

  // ---------------------------------------------------------------- the driver

  class Driver {
    const cfg: Settings
    var states: map<string, ModemState>
    var globals: GlobalsState
    var identities: map<string, Identity>
    var simEvents: seq<SimSwapped>

    constructor (cfg: Settings, store: Store)
      ensures this.cfg == cfg && Contents() == store && simEvents == []
    {
      this.cfg := cfg;
      states, globals, identities := store.states, store.globals, store.identities;
      simEvents := [];
    }

    function Contents(): Store
      reads this
    {
      Store(states, globals, identities)
    }

    /** One cycle, to its end or to where it is cut short; the store and the event log then
        hold exactly what was written before. */
    method RunOneCycle(c: CycleInput) returns (o: CycleOutput)
      requires c.WellFormed()
      modifies this
      ensures o == DaemonCycle(old(Contents()), c, cfg)
      ensures Contents() == o.store && simEvents == old(simEvents) + o.simEvents
    {
      hide SwapEvents, AfterStage, HandledSwaps, StageCompletes, Hydrate, Dispatch, PersistStates, DiagOf, ContextOf,
           Engine.CycleSpec;
      if |c.snapshots| != |c.modems| {
        return CycleOutput(Contents(), [], [], SnapshotCountMismatch);
      }
      var logged := |simEvents|;
      var completed := DetectAndHandleSimSwaps(c);
      if !completed {
        return CycleOutput(Contents(), simEvents[logged..], [], Interrupted);
      }
      var priors := LoadPriors(c.modems, c.stop);
      if priors.None? {
        return CycleOutput(Contents(), simEvents[logged..], [], Interrupted);
      }
      var result := RunCycle(DiagOf(c), priors.value, globals, ContextOf(c, cfg));
      var actions := DispatchActions(result.plans, c.modems, c.outcomes, c.stop);
      var done := PersistStatesAndGlobals(result, c, actions);
      o := CycleOutput(Contents(), simEvents[logged..], actions, if done then Finished(result) else Interrupted);
    }

    /** Identity file first, then one reset and one event per swapped path. `items` is what the
        map of current identities lists, in insertion order. */
    method DetectAndHandleSimSwaps(c: CycleInput) returns (completed: bool)
      requires c.WellFormed() && |c.snapshots| == |c.modems|
      modifies this
      ensures Contents() == AfterStage(old(Contents()), c)
      ensures simEvents == old(simEvents) + HandledSwaps(old(Contents()), c)
      ensures completed <==> StageCompletes(old(Contents()), c)
    {
      hide CurrentIdentities, SurfacedItems, SwapsAmong, SwapEvents, ResetAll, ResetState, FreshState;
      if c.stop.AtIdentityFile? {
        return false;
      }
      var modems, snaps := c.modems, c.snapshots;
      var prior := identities;
      var current: map<string, Identity> := map[];
      var items: seq<(string, Identity)> := [];
      var targets: seq<SimSwapped> := [];
      StageStarts(prior, states);
      for i := 0 to |modems|
        invariant current == CurrentIdentities(modems[..i], snaps[..i])
        invariant items == SurfacedItems(modems[..i], snaps[..i])
        invariant Contents() == old(Contents()) && simEvents == old(simEvents)
      {
        IdentityStep(modems, snaps, i);
        if snaps[i].iccid.None? || snaps[i].imsi.None? {
          continue;
        }
        var id := Identity(snaps[i].iccid.value, snaps[i].imsi.value);
        current := current[modems[i].usbPath := id];
        items := items + [(modems[i].usbPath, id)];
      }
      assert modems[..|modems|] == modems && snaps[..|snaps|] == snaps;
      for i := 0 to |items|
        invariant targets == SwapsAmong(prior, items[..i])
        invariant Contents() == old(Contents()) && simEvents == old(simEvents)
      {
        SwapsAmongStep(prior, items, i);
        var (p, id) := items[i];
        if p in prior && prior[p].iccid != id.iccid {
          targets := targets + [SimSwapped(p, prior[p].iccid, id.iccid)];
        }
      }
      assert items[..|items|] == items;
      SwapsAmongItems(prior, modems, snaps);
      if exists p <- current :: p !in prior || prior[p] != current[p] {
        identities := current;
      }
      var limit := if c.stop.AfterResets? && c.stop.resets < |targets| then c.stop.resets else |targets|;
      for i := 0 to limit
        invariant states == ResetAll(old(states), targets[..i])
        invariant simEvents == old(simEvents) + targets[..i]
        invariant identities == SavedIdentities(prior, current) && globals == old(globals)
      {
        ResetStep(old(states), targets, i);
        states := states[targets[i].usbPath := ResetState(states, targets[i].usbPath)];
        simEvents := simEvents + [targets[i]];
      }
      assert targets[..|targets|] == targets;
      completed := !(c.stop.AfterResets? && c.stop.resets < |targets|);
    }

    /** The prior record of every modem, unless a load raises. */
    method LoadPriors(modems: seq<Descriptor>, stop: Stop) returns (priors: Option<map<string, ModemState>>)
      ensures priors == if stop.AtLoad? then None else Some(Hydrate(states, modems))
    {
      if stop.AtLoad? {
        return None;
      }
      var loaded: map<string, ModemState> := map[];
      for i := 0 to |modems|
        invariant loaded == Hydrate(states, modems[..i])
      {
        assert modems[..i + 1][..i] == modems[..i];
        loaded := loaded[modems[i].usbPath := PriorOf(states, modems[i].usbPath)];
      }
      assert modems[..|modems|] == modems;
      priors := Some(loaded);
    }

    /** The filter: registered (every kind is), unsuppressed, not a skip, about a modem, and
        that modem still has a descriptor. */
    method DispatchActions(plans: seq<PlannedAction>, modems: seq<Descriptor>, outcomes: map<string, bool>, stop: Stop)
      returns (out: seq<ActionResult>)
      ensures out == StartedOf(Dispatch(plans, modems, outcomes), stop)
    {
      hide Dispatch, Known;
      out := [];
      NothingDispatched(modems, outcomes);
      for i := 0 to |plans|
        invariant out == Dispatch(plans[..i], modems, outcomes)
        invariant stop.AfterActions? ==> |out| <= stop.started
      {
        DispatchStep(plans, modems, outcomes, i);
        DispatchGrows(plans, modems, outcomes, i + 1, |plans|);
        assert plans[..|plans|] == plans;
        var plan := plans[i];
        if plan.suppressedByBackoff || plan.suppressedBySignalGate || plan.suppressedByDryRun {
          continue;
        }
        if !plan.reason.ActionPlanned? {
          continue;
        }
        if plan.who.WhoHost? {
          continue;
        }
        if !Known(modems, plan.who.usbPath) {
          continue;
        }
        if stop.AfterActions? && |out| == stop.started {
          return;
        }
        var succeeded := plan.who.usbPath in outcomes && outcomes[plan.who.usbPath];
        out := out + [ActionResult(plan.kind, plan.who.usbPath, succeeded)];
      }
      assert plans[..|plans|] == plans;
    }

    method StampIfRan(s: ModemState, usbPath: string, actions: seq<ActionResult>, persistAt: real)
      returns (r: ModemState)
      ensures r == Stamped(s, usbPath, actions, persistAt)
    {
      var lastAction := s.lastAction;
      for i := 0 to |actions|
        invariant lastAction ==
                  if exists a <- actions[..i] :: a.usbPath == usbPath then Some(persistAt) else s.lastAction
      {
        assert actions[..i + 1] == actions[..i] + [actions[i]];
        if actions[i].usbPath == usbPath {
          lastAction := Some(persistAt);
        }
      }
      assert actions[..|actions|] == actions;
      r := s.(lastAction := lastAction);
    }

    /** Records first, then globals; whether it got to the end. */
    method PersistStatesAndGlobals(result: CycleResult, c: CycleInput, actions: seq<ActionResult>) returns (done: bool)
      modifies this`states, this`globals
      ensures states == PersistStates(old(states), result.newStates, c.modems, SavedCount(c), actions, c.persistAt)
      ensures done <==> !c.stop.AfterActions? && !c.stop.AfterSaves?
      ensures globals == if done then result.newGlobals else old(globals)
    {
      SaveStates(result.newStates, c.modems, SavedCount(c), actions, c.persistAt);
      if c.stop.AfterActions? || c.stop.AfterSaves? {
        return false;
      }
      if result.newGlobals != globals {
        globals := result.newGlobals;
      }
      done := true;
    }

    /** One save per modem, in the order in which the engine wrote the records; the first
        `count` are made. */
    method SaveStates(written: map<string, ModemState>, modems: seq<Descriptor>, count: nat,
                      actions: seq<ActionResult>, persistAt: real)
      requires count <= |modems|
      modifies this`states
      ensures states == PersistStates(old(states), written, modems, count, actions, persistAt)
    {
      for i := 0 to count
        invariant states == PersistStates(old(states), written, modems, i, actions, persistAt)
      {
        var p := modems[i].usbPath;
        if p in written {
          var s := StampIfRan(written[p], p, actions, persistAt);
          states := states[p := s];
        }
      }
    }
  }
}
