/** What a whole cycle of the daemon starts, said of the cycle's own readings: the issues seen, the
    maintenance window, the size of the fleet and the stored record. */
module DriverLaws {
  import opened Wire
  import opened DecisionTable
  import opened Transitions
  import opened Engine
  import opened EngineLaws
  import opened PolicyLaws
  import opened PathRuns
  import opened CycleDriver
  import opened DaemonRuns
  import opened SimSwaps

  /** The action is called for at the path by the most urgent issue seen there, on the record as the
      SIM-swap stage left it, and no gate holds it back in this cycle's window. */
  ghost predicate CalledForAt(st: Store, c: CycleInput, cfg: Settings, usbPath: string, k: ActionKind)
    requires |c.ticks| == |c.modems|
  {
    var ix := IndexOf(c.modems, usbPath);
    && |c.snapshots| == |c.modems| && ix.Some?
    && var i, was := ix.value, View(st, usbPath);
       var base := if ResetAt(st, c, usbPath) then was.(healthyStreak := 0, counters := map[]) else was;
       var top := SelectTopPriorityIssue(c.snapshots[i].issues);
       var ctx := Context(cfg, c.maintenanceActive, |c.modems|, c.cooldownAt, c.stampAt);
       && top.Some? && CallsFor(k, top.value, base.counters, cfg)
       && MayExecute(k, Transition(base, c.snapshots[i], cfg), ctx, c.ticks[i])
  }

  /** The path's machine runs what is called for, unless the cycle is short-circuited. */
  lemma AttemptsExactlyWhatIsCalledFor(st: Store, c: CycleInput, cfg: Settings, usbPath: string, k: ActionKind)
    requires c.WellFormed() && cfg.Valid() && ReachesEngine(st, c) && IndexOf(c.modems, usbPath).Some?
    ensures PathStep(View(st, usbPath), AttemptAt(st, c, cfg, usbPath)).ran == Some(k) <==>
            !ShortCircuits(st, c, cfg) && CalledForAt(st, c, cfg, usbPath, k)
  {
    hide StageCompletes, ResetAt, View, GlobalDriverResetEligible, StepModem, Transition, MayExecute,
         SelectTopPriorityIssue, CallsFor;
    var ix := IndexOf(c.modems, usbPath);
    RunsExactlyWhatIsCalledFor(AfterSwap(View(st, usbPath), ResetAt(st, c, usbPath)), c.snapshots[ix.value],
                               Context(cfg, c.maintenanceActive, |c.modems|, c.cooldownAt, c.stampAt),
                               c.ticks[ix.value], k);
  }

  /** Exactly what the driver starts on a modem. In any cycle it is only what is called for there; in
      one that reaches the engine, is not short-circuited and is not cut short while it dispatches,
      it is all of that. */
  lemma StartsExactlyWhatIsCalledFor(st: Store, c: CycleInput, cfg: Settings, usbPath: string, k: ActionKind)
    requires c.WellFormed() && cfg.Valid()
    ensures var started := exists a <- ActionsOf(CycleActions(st, c, cfg), usbPath) :: a.kind == k;
            && (started ==> ReachesEngine(st, c) && !ShortCircuits(st, c, cfg) && CalledForAt(st, c, cfg, usbPath, k))
            && (ReachesEngine(st, c) && !ShortCircuits(st, c, cfg) && !c.stop.AfterActions? ==>
                  (started <==> CalledForAt(st, c, cfg, usbPath, k)))
  {
    hide CycleActions, NextStore, ActionsOf, ShortCircuits, StageCompletes, PathStep, AttemptAt, View, CallsFor,
         MayExecute;
    CycleProjects(st, c, cfg, usbPath);
    var acts := ActionsOf(CycleActions(st, c, cfg), usbPath);
    if acts != [] {
      assert acts[0] in acts;
    }
    if ReachesEngine(st, c) && IndexOf(c.modems, usbPath).Some? {
      AttemptsExactlyWhatIsCalledFor(st, c, cfg, usbPath, k);
    }
  }

  /** The issues with which a modem is left alone. */
  predicate LeftAlone(issue: Issue) {
    issue in {Issue(Registration, Denied), Issue(Sim, SimCardAbsent), Issue(Sim, SimCardError),
              Issue(Sim, SimAppPinRequired), Issue(Sim, SimAppPukRequired)}
  }

  /** A modem whose most urgent issue is a carrier denial, a missing or failed card or a locked one, or
      one that no action is listed for, gets no action, whatever else it shows. */
  lemma NothingIsStartedForThese(st: Store, c: CycleInput, cfg: Settings, usbPath: string)
    requires c.WellFormed() && cfg.Valid() && |c.snapshots| == |c.modems| && IndexOf(c.modems, usbPath).Some?
    requires var top := SelectTopPriorityIssue(c.snapshots[IndexOf(c.modems, usbPath).value].issues);
             top.None? || LeftAlone(top.value) || forall k, n :: !CallsFor(k, top.value, n, cfg)
    ensures ActionsOf(CycleActions(st, c, cfg), usbPath) == []
  {
    hide CycleActions, ActionsOf, ReachesEngine, ShortCircuits, View, MayExecute, Transition, SelectTopPriorityIssue,
         ResetAt;
    var acts := ActionsOf(CycleActions(st, c, cfg), usbPath);
    if acts != [] {
      assert acts[0] in acts;
      StartsExactlyWhatIsCalledFor(st, c, cfg, usbPath, acts[0].kind);
    }
  }

  /** Of a modem left alone the cycle's only plan says why. */
  lemma LeftAlonePlan(st: Store, c: CycleInput, cfg: Settings, usbPath: string)
    requires c.WellFormed() && cfg.Valid() && |c.snapshots| == |c.modems| && IndexOf(c.modems, usbPath).Some?
    requires !ShortCircuits(st, c, cfg)
    requires var top := SelectTopPriorityIssue(c.snapshots[IndexOf(c.modems, usbPath).value].issues);
             top.Some? && LeftAlone(top.value)
    ensures var i := IndexOf(c.modems, usbPath).value;
            var detail := SelectTopPriorityIssue(c.snapshots[i].issues).value.detail;
            var why := if detail == Denied then CarrierDenied
                       else if detail == SimCardAbsent then NoCard
                       else if detail == SimCardError then Hardware else RequiresHuman;
            PlansOf(EngineResult(st, c, cfg).plans, usbPath) ==
            [PlannedAction(SoftReset, WhoModem(c.modems[i].usbPath, c.modems[i].cdcWdm), SkipTable(why), false, false,
                           false)]
  {
    hide AfterStage, View, GlobalDriverResetEligible, StepModem, DiagOf, Transition, SelectTopPriorityIssue,
         EngineResult, PlansOf, ContextOf, AllUsedUp, CallsFor, ApplyGatesToAction;
    var i := IndexOf(c.modems, usbPath).value;
    ContextHasSettings(c, cfg);
    EngineResultByPath(st, c, cfg, usbPath);
    ReportsExactlyWhatIsCalledFor(View(AfterStage(st, c), usbPath), c.snapshots[i], ContextOf(c, cfg), c.ticks[i]);
  }

  lemma ContextHasSettings(c: CycleInput, cfg: Settings)
    ensures var ctx := ContextOf(c, cfg);
            && ctx.cfg == cfg && ctx.cooldownAt == c.cooldownAt
            && (c.modems != [] ==> ctx.expectedModemCount == |c.modems|)
  {
  }

  /** Where a cycle is cut short while it dispatches, it has started the first so many of what it would
      have started; anywhere later it has started all; anywhere earlier none. */
  lemma CutDispatchStartsAPrefix(st: Store, c: CycleInput, cfg: Settings)
    requires c.WellFormed()
    ensures var all, some := CycleActions(st, c.(stop := Never), cfg), CycleActions(st, c, cfg);
            && some <= all
            && (ReachesEngine(st, c) ==>
                  |some| == if c.stop.AfterActions? && c.stop.started < |all| then c.stop.started else |all|)
            && (!ReachesEngine(st, c) ==> some == [])
  {
    hide Dispatch, EngineResult, CycleActions, NextStore, HandledSwaps, StageCompletes;
    var whole := c.(stop := Never);
    if ReachesEngine(st, c) {
      SameEngineResult(st, c);
      CycleShape(st, c, cfg);
      CycleShape(st, whole, cfg);
      assert EngineResult(st, whole, cfg) == EngineResult(st, c, cfg);
    } else {
      CycleStopsEarly(st, c, cfg);
    }
  }

  /** Where it is cut short later does not change what the engine decides. */
  lemma SameEngineResult(st: Store, c: CycleInput)
    requires c.WellFormed() && ReachesEngine(st, c)
    ensures var whole := c.(stop := Never);
            ReachesEngine(st, whole) && forall cfg :: EngineResult(st, whole, cfg) == EngineResult(st, c, cfg)
  {
    hide Engine.CycleSpec, Hydrate, SwapEvents, ResetAll, CurrentIdentities, SavedIdentities;
    var whole := c.(stop := Never);
    CompleteHandlesAll(st, c);
    CompleteHandlesAll(st, whole);
    assert AfterStage(st, whole) == AfterStage(st, c) && DiagOf(whole) == DiagOf(c);
    assert forall cfg :: ContextOf(whole, cfg) == ContextOf(c, cfg);
  }

  /** How a cycle ends: by the strict pairing of modems and snapshots when observation failed, cut
      short, or with the engine's result. */
  lemma CycleEndsAs(st: Store, c: CycleInput, cfg: Settings)
    requires c.WellFormed()
    ensures DaemonCycle(st, c, cfg).ended ==
            if |c.snapshots| != |c.modems| then SnapshotCountMismatch
            else if ReachesEngine(st, c) && !c.stop.AfterActions? && !c.stop.AfterSaves?
            then Finished(EngineResult(st, c, cfg)) else Interrupted
  {
    hide Dispatch, Engine.CycleSpec, DiagOf, ContextOf, Hydrate, SwapEvents, ResetAll, PersistStates;
  }

  /** Inside the maintenance window no modem, USB or driver reset is started, whatever the store, the
      fleet and the issues. */
  lemma NothingDestructiveInMaintenance(st: Store, c: CycleInput, cfg: Settings)
    requires c.WellFormed() && cfg.Valid() && c.maintenanceActive
    ensures forall a <- CycleActions(st, c, cfg) :: a.kind !in {ModemReset, UsbReset, DriverReset}
  {
    hide CycleActions, ActionsOf, ReachesEngine, ShortCircuits, Transition, SelectTopPriorityIssue, CallsFor;
    forall a <- CycleActions(st, c, cfg) ensures a.kind !in {ModemReset, UsbReset, DriverReset} {
      OfPathHasIts(CycleActions(st, c, cfg), a);
      StartsExactlyWhatIsCalledFor(st, c, cfg, a.usbPath, a.kind);
    }
  }

  lemma {:induction false} OfPathHasIts(actions: seq<ActionResult>, a: ActionResult)
    requires a in actions
    ensures a in ActionsOf(actions, a.usbPath)
  {
    var n := |actions| - 1;
    if actions[n] != a {
      OfPathHasIts(actions[..n], a);
    }
  }

  predicate HasFloors(sig: Signal, cfg: Settings) {
    && sig.rsrp.Some? && sig.rsrp.value >= cfg.rsrpFloor
    && sig.rsrq.Some? && sig.rsrq.value >= cfg.rsrqFloor
    && sig.snr.Some? && sig.snr.value >= cfg.snrFloor
  }

  predicate Reaches(hung: nat, fraction: real, fleet: int) {
    hung as real >= fraction * fleet as real
  }

  /** The eligibility law with its comparisons named. */
  lemma EligibilityByFloors(diag: Diag, globals: GlobalsState, ctx: Context)
    requires ctx.cfg.Valid() && diag.hostIssues == []
    ensures GlobalDriverResetEligible(diag, globals, ctx) <==>
            && (globals.lastDriverReset.Some? ==>
                  ctx.cooldownAt >= globals.lastDriverReset.value + ctx.cfg.driverResetBackoffSeconds as real)
            && ctx.expectedModemCount > 0
            && Reaches(|set i: nat | i < |diag.perModem| && Issue(Qmi, QmiChannelHung) in diag.perModem[i].snap.issues|,
                       ctx.cfg.thresholdFraction, ctx.expectedModemCount)
            && exists e <- diag.perModem ::
                 Issue(Qmi, QmiChannelHung) in e.snap.issues && HasFloors(e.snap.signal, ctx.cfg)
  {
    hide GlobalDriverResetEligible;
    EligibilityLaw(diag, globals, ctx);
  }

  lemma SnapshotsInDiag(c: CycleInput)
    requires |c.snapshots| == |c.modems| == |c.ticks|
    ensures DiagOf(c).hostIssues == [] && |DiagOf(c).perModem| == |c.modems|
    ensures forall i | 0 <= i < |c.modems| :: DiagOf(c).perModem[i].snap == c.snapshots[i]
  {
  }

  lemma HungInDiag(c: CycleInput)
    requires |c.snapshots| == |c.modems| == |c.ticks|
    ensures var es := DiagOf(c).perModem;
            (set i: nat | i < |es| && Issue(Qmi, QmiChannelHung) in es[i].snap.issues) ==
            set i: nat | i < |c.modems| && Issue(Qmi, QmiChannelHung) in c.snapshots[i].issues
  {
    hide DiagOf;
    SnapshotsInDiag(c);
  }

  lemma WithFloorsInDiag(c: CycleInput, cfg: Settings)
    requires |c.snapshots| == |c.modems| == |c.ticks|
    ensures (exists e <- DiagOf(c).perModem ::
               Issue(Qmi, QmiChannelHung) in e.snap.issues && HasFloors(e.snap.signal, cfg)) <==>
            exists i | 0 <= i < |c.modems| ::
              Issue(Qmi, QmiChannelHung) in c.snapshots[i].issues && HasFloors(c.snapshots[i].signal, cfg)
  {
    hide DiagOf, HasFloors;
    SnapshotsInDiag(c);
    var es := DiagOf(c).perModem;
    if i :| 0 <= i < |c.modems| && Issue(Qmi, QmiChannelHung) in c.snapshots[i].issues
            && HasFloors(c.snapshots[i].signal, cfg) {
      assert es[i] in es;
    }
    if e :| e in es && Issue(Qmi, QmiChannelHung) in e.snap.issues && HasFloors(e.snap.signal, cfg) {
      var j :| 0 <= j < |es| && es[j] == e;
      assert es[j].snap == c.snapshots[j];
    }
  }

  lemma ShortCircuitsByName(st: Store, c: CycleInput, cfg: Settings)
    requires c.WellFormed() && cfg.Valid() && |c.snapshots| == |c.modems|
    ensures ShortCircuits(st, c, cfg) <==>
            && (st.globals.lastDriverReset.Some? ==>
                  c.cooldownAt >= st.globals.lastDriverReset.value + cfg.driverResetBackoffSeconds as real)
            && Reaches(|set i: nat | i < |c.modems| && Issue(Qmi, QmiChannelHung) in c.snapshots[i].issues|,
                       cfg.thresholdFraction, |c.modems|)
            && exists i | 0 <= i < |c.modems| ::
                 && Issue(Qmi, QmiChannelHung) in c.snapshots[i].issues && HasFloors(c.snapshots[i].signal, cfg)
  {
    hide GlobalDriverResetEligible, DiagOf, ContextOf, HasFloors, Reaches;
    ContextHasSettings(c, cfg);
    SnapshotsInDiag(c);
    HungInDiag(c);
    WithFloorsInDiag(c, cfg);
    EligibilityByFloors(DiagOf(c), st.globals, ContextOf(c, cfg));
  }

  /** Exactly when a cycle is short-circuited: the cooldown is over; the modems found that show a hung
      channel reach the fraction of all found; and one of them has all three signal readings at or
      above their floors. */
  lemma ShortCircuitsExactlyWhenFleetIsHung(st: Store, c: CycleInput, cfg: Settings)
    requires c.WellFormed() && cfg.Valid() && |c.snapshots| == |c.modems|
    ensures ShortCircuits(st, c, cfg) <==>
            && (st.globals.lastDriverReset.Some? ==>
                  c.cooldownAt >= st.globals.lastDriverReset.value + cfg.driverResetBackoffSeconds as real)
            && |set i: nat | i < |c.modems| && Issue(Qmi, QmiChannelHung) in c.snapshots[i].issues| as real
               >= cfg.thresholdFraction * |c.modems| as real
            && exists i | 0 <= i < |c.modems| ::
                 && Issue(Qmi, QmiChannelHung) in c.snapshots[i].issues && HasFloors(c.snapshots[i].signal, cfg)
  {
    hide ShortCircuits, HasFloors;
    ShortCircuitsByName(st, c, cfg);
  }

  /** Then no modem's action is started. */
  lemma NothingStartedWhenShort(st: Store, c: CycleInput, cfg: Settings)
    requires c.WellFormed() && cfg.Valid() && |c.snapshots| == |c.modems| && ShortCircuits(st, c, cfg)
    ensures CycleActions(st, c, cfg) == []
  {
    hide CycleActions, ActionsOf, ReachesEngine, ShortCircuits;
    var acts := CycleActions(st, c, cfg);
    if acts != [] {
      OfPathHasIts(acts, acts[0]);
      StartsExactlyWhatIsCalledFor(st, c, cfg, acts[0].usbPath, acts[0].kind);
    }
  }
}
