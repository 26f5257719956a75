/** One policy cycle: from observations, prior states and the clock to plans and new states. */
module Engine {
  import opened Wire
  import opened DecisionTable
  import opened Ladder
  import opened Transitions
  import opened Gates

  datatype Who = WhoModem(usbPath: string, cdcWdm: string) | WhoHost

  /** The canonical reason texts; every one but `ActionPlanned` starts with `skip:`. */
  datatype Reason =
    | ActionPlanned(kind: ActionKind)
    | SkipTable(row: SkipRow)
    | SkipExhausted | SkipDisconnected | SkipMaintenance | SkipDryRun | SkipGateFailed

  datatype PlannedAction = PlannedAction(
    kind: ActionKind,
    who: Who,
    reason: Reason,
    suppressedByBackoff: bool,
    suppressedBySignalGate: bool,
    suppressedByDryRun: bool)

  datatype SkipReason =
    | SignalBelowGate | LadderBackoff | SameActionBackoff | ExhaustedSkip | DisconnectedSkip
    | MaintenanceSkip | DryRunSkip

  datatype ActionSkipped = ActionSkipped(
    usbPath: string,
    suppressedAction: ActionKind,
    reason: SkipReason,
    category: IssueCategory,
    detail: IssueDetail)

  datatype StateTransition = StateTransition(
    usbPath: string,
    fromState: StateName,
    toState: StateName,
    cause: Option<Issue>,
    newState: ModemState)

  /** The monotonic-clock readings taken while one modem is processed, in the order taken: by
      the same-action gate, by the ladder gate, and by the counter bump. */
  datatype Ticks = Ticks(same: real, ladder: real, bump: real) {
    predicate Ordered() { same <= ladder <= bump }
  }

  datatype Entry = Entry(usbPath: string, snap: ModemSnapshot, ticks: Ticks)

  datatype Diag = Diag(perModem: seq<Entry>, hostIssues: seq<Issue>) {
    /** `per_modem` is a dictionary. */
    ghost predicate DistinctPaths() {
      forall i, j | 0 <= i < j < |perModem| :: perModem[i].usbPath != perModem[j].usbPath
    }
  }

  /** `cooldownAt` and `stampAt` are the clock readings of the driver-reset cooldown check and
      of the driver-reset bookkeeping. */
  datatype Context = Context(
    cfg: Settings,
    maintenanceActive: bool,
    expectedModemCount: int,
    cooldownAt: real,
    stampAt: real)

  datatype CycleResult = CycleResult(
    plans: seq<PlannedAction>,
    transitions: seq<StateTransition>,
    newStates: map<string, ModemState>,
    newGlobals: GlobalsState,
    skipped: seq<ActionSkipped>)

  // ---------------------------------------------------------------- driver-reset eligibility

  predicate Hung(snap: ModemSnapshot) {
    exists issue <- snap.issues :: issue.category == Qmi && issue.detail == QmiChannelHung
  }

  function HungCount(entries: seq<Entry>): nat {
    if entries == [] then 0 else HungCount(entries[1..]) + (if Hung(entries[0].snap) then 1 else 0)
  }

  predicate ClearsFloors(sig: Signal, cfg: Settings) {
    && sig.rsrp.Some? && sig.rsrp.value >= cfg.rsrpFloor
    && sig.rsrq.Some? && sig.rsrq.value >= cfg.rsrqFloor
    && sig.snr.Some? && sig.snr.value >= cfg.snrFloor
  }

  predicate GlobalDriverResetEligible(diag: Diag, globals: GlobalsState, ctx: Context) {
    if exists issue <- diag.hostIssues :: issue.detail == ThermalWarn || issue.detail == ThermalCritical then false
    else if globals.lastDriverReset.Some?
            && ctx.cooldownAt - globals.lastDriverReset.value < ctx.cfg.driverResetBackoffSeconds as real then false
    else if ctx.expectedModemCount <= 0 then false
    else if HungCount(diag.perModem) as real / ctx.expectedModemCount as real < ctx.cfg.thresholdFraction then false
    else exists e <- diag.perModem :: Hung(e.snap) && ClearsFloors(e.snap.signal, ctx.cfg)
  }

  function HungIndices(entries: seq<Entry>): set<nat> {
    set i: nat | i < |entries| && Hung(entries[i].snap)
  }

  lemma {:induction false} HungCountIsCardinality(entries: seq<Entry>)
    ensures HungCount(entries) == |HungIndices(entries)|
  {
    if entries == [] {
      assert HungIndices(entries) == {};
    } else {
      HungCountIsCardinality(entries[1..]);
      ShiftCardinality(HungIndices(entries[1..]));
      HungIndicesShift(entries);
    }
  }

  lemma HungIndicesShift(entries: seq<Entry>)
    requires entries != []
    ensures HungIndices(entries) ==
            (if Hung(entries[0].snap) then {0} else {}) + set i: nat | i in HungIndices(entries[1..]) :: i + 1
  {
    hide Hung;
    var shifted := set i: nat | i in HungIndices(entries[1..]) :: i + 1;
    forall i: nat | i in HungIndices(entries) && i > 0 ensures i in shifted {
      assert entries[1..][i - 1] == entries[i];
      assert i - 1 in HungIndices(entries[1..]);
    }
  }

  lemma {:induction false} ShiftCardinality(s: set<nat>)
    ensures |set i: nat | i in s :: i + 1| == |s|
    decreases |s|
  {
    var shifted := set i: nat | i in s :: i + 1;
    if s == {} {
      assert shifted == {};
    } else {
      var x :| x in s;
      ShiftCardinality(s - {x});
      var rest := set i: nat | i in s - {x} :: i + 1;
      assert shifted == rest + {x + 1} by {
        forall y | y in shifted ensures y in rest + {x + 1} {
          var z: nat :| z in s && y == z + 1;
          assert z != x ==> z in s - {x};
        }
      }
      assert x + 1 !in rest;
    }
  }

  lemma HungIsAnIssue(snap: ModemSnapshot)
    ensures Hung(snap) <==> Issue(Qmi, QmiChannelHung) in snap.issues
  {
    assert forall issue <- snap.issues | issue.category == Qmi && issue.detail == QmiChannelHung ::
             issue == Issue(Qmi, QmiChannelHung);
  }

  /** The four eligibility conditions: no thermal issue; the cooldown over; the modems that show a
      hung channel reach the fraction of the expected fleet, written as a product; and one of them
      has all three signal readings at or above their floors. */
  lemma EligibilityLaw(diag: Diag, globals: GlobalsState, ctx: Context)
    requires ctx.cfg.Valid()
    ensures GlobalDriverResetEligible(diag, globals, ctx) <==>
            var es, cfg := diag.perModem, ctx.cfg;
            && (forall issue <- diag.hostIssues :: issue.detail !in {ThermalWarn, ThermalCritical})
            && (globals.lastDriverReset.Some? ==>
                  ctx.cooldownAt >= globals.lastDriverReset.value + cfg.driverResetBackoffSeconds as real)
            && ctx.expectedModemCount > 0
            && |set i: nat | i < |es| && Issue(Qmi, QmiChannelHung) in es[i].snap.issues| as real
               >= cfg.thresholdFraction * ctx.expectedModemCount as real
            && exists e <- es ::
                 && Issue(Qmi, QmiChannelHung) in e.snap.issues
                 && e.snap.signal.rsrp.Some? && e.snap.signal.rsrp.value >= cfg.rsrpFloor
                 && e.snap.signal.rsrq.Some? && e.snap.signal.rsrq.value >= cfg.rsrqFloor
                 && e.snap.signal.snr.Some? && e.snap.signal.snr.value >= cfg.snrFloor
  {
    hide Hung, HungCount;
    HungCountIsCardinality(diag.perModem);
    forall e: Entry { HungIsAnIssue(e.snap); }
    var es := diag.perModem;
    assert HungIndices(es) == set i: nat | i < |es| && Issue(Qmi, QmiChannelHung) in es[i].snap.issues;
    if ctx.expectedModemCount > 0 {
      QuotientBelow(HungCount(es) as real, ctx.expectedModemCount as real, ctx.cfg.thresholdFraction);
    }
  }

  lemma QuotientBelow(h: real, n: real, f: real)
    requires n > 0.0
    ensures h / n < f <==> h < f * n
  {
    assert h == (h / n) * n;
    if h / n < f { assert (h / n) * n < f * n; }
    if h / n >= f { assert (h / n) * n >= f * n; }
  }

  // ---------------------------------------------------------------- the per-modem path

  function SnapWho(snap: ModemSnapshot): Who {
    WhoModem(snap.usbPath, snap.cdcWdm)
  }

  function FirstIssue(snap: ModemSnapshot): Option<Issue> {
    if snap.issues == [] then None else Some(snap.issues[0])
  }

  datatype GateResult = GateResult(plan: PlannedAction, wouldExecute: bool, skipped: seq<ActionSkipped>)

  function HardSkip(action: ActionKind, who: Who, usbPath: string, issue: Issue, why: Reason,
                    reason: SkipReason): GateResult {
    GateResult(PlannedAction(action, who, why, false, false, false), false,
               [ActionSkipped(usbPath, action, reason, issue.category, issue.detail)])
  }

  function ApplyGatesToAction(action: ActionKind, state: ModemState, ctx: Context, snap: ModemSnapshot,
                              issue: Issue, t: Ticks): GateResult
  {
    var who := SnapWho(snap);
    if GateDisconnected(state) then
      HardSkip(action, who, snap.usbPath, issue, SkipDisconnected, DisconnectedSkip)
    else if GateMaintenance(ctx.maintenanceActive, action) then
      HardSkip(action, who, snap.usbPath, issue, SkipMaintenance, MaintenanceSkip)
    else if GateExhausted(state, action) then
      HardSkip(action, who, snap.usbPath, issue, SkipExhausted, ExhaustedSkip)
    else
      var signal := GateSignal(state, action);
      var same := GateSameActionBackoff(state, action, t.same, ctx.cfg);
      var ladder := !same && GateLadderBackoff(state, action, t.ladder, ctx.cfg);
      var backoff := same || ladder;
      var dry := ctx.cfg.dryRun;
      var wouldExecute := !(signal || backoff || dry);
      var reason := if wouldExecute then ActionPlanned(action)
                    else if dry && !(signal || backoff) then SkipDryRun
                    else SkipGateFailed;
      var skippedBy := (r: SkipReason) => ActionSkipped(snap.usbPath, action, r, issue.category, issue.detail);
      GateResult(
        PlannedAction(action, who, reason, backoff, signal, dry),
        wouldExecute,
        (if signal then [skippedBy(SignalBelowGate)] else [])
        + (if same then [skippedBy(SameActionBackoff)] else if ladder then [skippedBy(LadderBackoff)] else [])
        + (if dry && !(signal || backoff) then [skippedBy(DryRunSkip)] else []))
  }

  function FinalizePerModemState(prior: ModemState, newState: ModemState, counters: map<ActionKind, int>,
                                 newStreak: int, bump: Option<ActionKind>, t: Ticks): ModemState
  {
    match bump
    case None =>
      newState.(healthyStreak := newStreak, counters := counters,
                lastAction := prior.lastAction, lastByKind := prior.lastByKind)
    case Some(k) =>
      newState.(healthyStreak := newStreak, counters := counters[k := Count(counters, k) + 1],
                lastAction := Some(t.bump), lastByKind := prior.lastByKind[k := t.bump])
  }

  function SkipPlan(snap: ModemSnapshot, reason: Reason): PlannedAction {
    PlannedAction(SoftReset, SnapWho(snap), reason, false, false, false)
  }

  datatype Decision = Nothing
                    | TableSkip(issue: Issue, row: SkipRow)
                    | LadderSkip(issue: Issue, base: ActionKind)
                    | Attempt(issue: Issue, base: ActionKind, kind: ActionKind)

  /** Steps 4 and 5: the issue, its table row and the ladder rung. */
  function Decide(snap: ModemSnapshot, counters: map<ActionKind, int>, cfg: Settings): Decision {
    match SelectTopPriorityIssue(snap.issues)
    case None => Nothing
    case Some(issue) =>
      match LookupAction(issue.category, issue.detail)
      case NoRow => Nothing
      case Skip(row) => TableSkip(issue, row)
      case Act(base) =>
        match SelectRung(base, counters, cfg)
        case LadderExhausted => LadderSkip(issue, base)
        case Run(kind) => Attempt(issue, base, kind)
  }

  datatype ModemStep = ModemStep(
    plans: seq<PlannedAction>,
    skipped: seq<ActionSkipped>,
    bump: Option<ActionKind>,
    next: ModemState)

  function StreakAfter(prior: ModemState, moved: ModemState): int {
    if moved.state == Healthy then prior.healthyStreak + 1 else 0
  }

  predicate Decays(prior: ModemState, snap: ModemSnapshot, cfg: Settings) {
    StreakAfter(prior, Transition(prior, snap, cfg)) >= cfg.decayK
  }

  function StepModem(prior: ModemState, snap: ModemSnapshot, ctx: Context, t: Ticks): ModemStep {
    var moved := Transition(prior, snap, ctx.cfg);
    var decays := Decays(prior, snap, ctx.cfg);
    var counters := if decays then map[] else prior.counters;
    var streak := if decays then 0 else StreakAfter(prior, moved);
    match Decide(snap, counters, ctx.cfg)
    case Nothing =>
      ModemStep([], [], None, FinalizePerModemState(prior, moved, counters, streak, None, t))
    case TableSkip(issue, row) =>
      ModemStep([SkipPlan(snap, SkipTable(row))], [], None,
                FinalizePerModemState(prior, moved, counters, streak, None, t))
    case LadderSkip(issue, base) =>
      ModemStep([SkipPlan(snap, SkipExhausted)],
                [ActionSkipped(snap.usbPath, base, ExhaustedSkip, issue.category, issue.detail)], None,
                FinalizePerModemState(prior, moved, counters, streak, None, t))
    case Attempt(issue, base, kind) =>
      var g := ApplyGatesToAction(kind, moved, ctx, snap, issue, t);
      var bump := if g.wouldExecute then Some(kind) else None;
      ModemStep([g.plan], g.skipped, bump, FinalizePerModemState(prior, moved, counters, streak, bump, t))
  }

  function PriorOf(priors: map<string, ModemState>, usbPath: string): ModemState {
    if usbPath in priors then priors[usbPath] else FreshState()
  }

  // ---------------------------------------------------------------- one cycle

  function StepEntry(e: Entry, priors: map<string, ModemState>, ctx: Context): ModemStep {
    StepModem(PriorOf(priors, e.usbPath), e.snap, ctx, e.ticks)
  }

  function Transitioned(e: Entry, from: ModemState, to: ModemState): seq<StateTransition> {
    if to.state != from.state then [StateTransition(e.usbPath, from.state, to.state, FirstIssue(e.snap), to)] else []
  }

  /** One modem's step added to the results so far. */
  function Absorb(r: CycleResult, e: Entry, priors: map<string, ModemState>, ctx: Context): CycleResult {
    var s := StepEntry(e, priors, ctx);
    CycleResult(r.plans + s.plans,
                r.transitions + Transitioned(e, PriorOf(priors, e.usbPath), s.next),
                r.newStates[e.usbPath := s.next],
                r.newGlobals,
                r.skipped + s.skipped)
  }

  /** The per-modem cycle as independent steps, one per entry, in order. */
  function PerModemCycle(entries: seq<Entry>, priors: map<string, ModemState>, globals: GlobalsState,
                         ctx: Context): CycleResult
  {
    if entries == [] then CycleResult([], [], map[], globals, [])
    else Absorb(PerModemCycle(entries[..|entries| - 1], priors, globals, ctx), entries[|entries| - 1], priors, ctx)
  }

  lemma CycleStep(entries: seq<Entry>, n: nat, priors: map<string, ModemState>, globals: GlobalsState, ctx: Context)
    requires n < |entries|
    ensures PerModemCycle(entries[..n + 1], priors, globals, ctx)
         == Absorb(PerModemCycle(entries[..n], priors, globals, ctx), entries[n], priors, ctx)
  {
    hide Absorb;
    assert entries[..n + 1][..n] == entries[..n];
  }

  lemma EmptyCycle(priors: map<string, ModemState>, globals: GlobalsState, ctx: Context)
    ensures PerModemCycle([], priors, globals, ctx) == CycleResult([], [], map[], globals, [])
  {
  }

  function DriverResetPlan(): PlannedAction {
    PlannedAction(DriverReset, WhoHost, ActionPlanned(DriverReset), false, false, false)
  }

  /** The short-circuited cycle: transitions only, no streak, counter or action. */
  function DriverResetCycle(entries: seq<Entry>, priors: map<string, ModemState>, globals: GlobalsState,
                            ctx: Context): CycleResult
  {
    if entries == [] then
      CycleResult([DriverResetPlan()], [], map[],
                  GlobalsState(globals.driverResetCount + 1, Some(ctx.stampAt)), [])
    else
      var init := DriverResetCycle(entries[..|entries| - 1], priors, globals, ctx);
      var e := entries[|entries| - 1];
      var prior := PriorOf(priors, e.usbPath);
      var next := Transition(prior, e.snap, ctx.cfg);
      init.(transitions := init.transitions + Transitioned(e, prior, next),
            newStates := init.newStates[e.usbPath := next])
  }

  function CycleSpec(diag: Diag, priors: map<string, ModemState>, globals: GlobalsState, ctx: Context): CycleResult {
    if GlobalDriverResetEligible(diag, globals, ctx) then DriverResetCycle(diag.perModem, priors, globals, ctx)
    else PerModemCycle(diag.perModem, priors, globals, ctx)
  }

  method RunCycle(diag: Diag, priors: map<string, ModemState>, globals: GlobalsState, ctx: Context)
    returns (r: CycleResult)
    ensures r == CycleSpec(diag, priors, globals, ctx)
  {
    var plans: seq<PlannedAction> := [];
    var transitionsOut: seq<StateTransition> := [];
    var newStates: map<string, ModemState> := map[];
    var skippedOut: seq<ActionSkipped> := [];
    if GlobalDriverResetEligible(diag, globals, ctx) {
      plans := plans + [DriverResetPlan()];
      var newGlobals := globals.(driverResetCount := globals.driverResetCount + 1,
                                 lastDriverReset := Some(ctx.stampAt));
      transitionsOut, newStates := TransitionOnly(diag.perModem, priors, newGlobals, globals, ctx);
      return CycleResult(plans, transitionsOut, newStates, newGlobals, skippedOut);
    }
    plans, transitionsOut, newStates, skippedOut := ProcessModems(diag.perModem, priors, globals, ctx);
    r := CycleResult(plans, transitionsOut, newStates, globals, skippedOut);
  }

  /** The loop of the short-circuited path. */
  method TransitionOnly(all: seq<Entry>, priors: map<string, ModemState>, newGlobals: GlobalsState,
                        globals: GlobalsState, ctx: Context)
    returns (transitionsOut: seq<StateTransition>, newStates: map<string, ModemState>)
    requires newGlobals == GlobalsState(globals.driverResetCount + 1, Some(ctx.stampAt))
    ensures CycleResult([DriverResetPlan()], transitionsOut, newStates, newGlobals, [])
         == DriverResetCycle(all, priors, globals, ctx)
  {
    transitionsOut, newStates := [], map[];
    for i := 0 to |all|
      invariant CycleResult([DriverResetPlan()], transitionsOut, newStates, newGlobals, [])
             == DriverResetCycle(all[..i], priors, globals, ctx)
    {
      assert all[..i + 1][..i] == all[..i];
      var prior := PriorOf(priors, all[i].usbPath);
      var newState := Transition(prior, all[i].snap, ctx.cfg);
      newStates := newStates[all[i].usbPath := newState];
      if newState.state != prior.state {
        transitionsOut := transitionsOut
          + [StateTransition(all[i].usbPath, prior.state, newState.state, FirstIssue(all[i].snap), newState)];
      }
    }
    assert all[..|all|] == all;
  }

  /** The loop of the per-modem path. */
  method ProcessModems(all: seq<Entry>, priors: map<string, ModemState>, globals: GlobalsState, ctx: Context)
    returns (plans: seq<PlannedAction>, transitionsOut: seq<StateTransition>,
             newStates: map<string, ModemState>, skippedOut: seq<ActionSkipped>)
    ensures CycleResult(plans, transitionsOut, newStates, globals, skippedOut)
         == PerModemCycle(all, priors, globals, ctx)
  {
    hide PerModemCycle, StepModem;
    plans, transitionsOut, newStates, skippedOut := [], [], map[], [];
    EmptyCycle(priors, globals, ctx);
    for i := 0 to |all|
      invariant CycleResult(plans, transitionsOut, newStates, globals, skippedOut)
             == PerModemCycle(all[..i], priors, globals, ctx)
    {
      CycleStep(all, i, priors, globals, ctx);
      var prior := PriorOf(priors, all[i].usbPath);
      var finalState;
      plans, skippedOut, finalState := ProcessModem(prior, all[i].snap, ctx, all[i].ticks, plans, skippedOut);
      newStates := newStates[all[i].usbPath := finalState];
      if finalState.state != prior.state {
        transitionsOut := transitionsOut
          + [StateTransition(all[i].usbPath, prior.state, finalState.state, FirstIssue(all[i].snap), finalState)];
      }
    }
    assert all[..|all|] == all;
  }

  /** Steps 1 to 8 for one modem, appending to the caller's lists. */
  method ProcessModem(prior: ModemState, snap: ModemSnapshot, ctx: Context, t: Ticks,
                      plansIn: seq<PlannedAction>, skippedIn: seq<ActionSkipped>)
    returns (plans: seq<PlannedAction>, skipped: seq<ActionSkipped>, finalState: ModemState)
    ensures var s := StepModem(prior, snap, ctx, t);
            plans == plansIn + s.plans && skipped == skippedIn + s.skipped && finalState == s.next
  {
    plans, skipped := plansIn, skippedIn;
    var newState := Transition(prior, snap, ctx.cfg);
    var newStreak := if newState.state == Healthy then prior.healthyStreak + 1 else 0;
    var decayedCounters := prior.counters;
    if newStreak >= ctx.cfg.decayK {
      decayedCounters := map[];
      newStreak := 0;
    }
    var bump: Option<ActionKind> := None;
    match Decide(snap, decayedCounters, ctx.cfg) {
      case Nothing =>
      case TableSkip(_, row) =>
        plans := plans + [SkipPlan(snap, SkipTable(row))];
      case LadderSkip(issue, base) =>
        plans := plans + [SkipPlan(snap, SkipExhausted)];
        skipped := skipped + [ActionSkipped(snap.usbPath, base, ExhaustedSkip, issue.category, issue.detail)];
      case Attempt(issue, _, kind) =>
        var g := ApplyGatesToAction(kind, newState, ctx, snap, issue, t);
        plans := plans + [g.plan];
        skipped := skipped + g.skipped;
        if g.wouldExecute {
          bump := Some(kind);
        }
    }
    finalState := FinalizePerModemState(prior, newState, decayedCounters, newStreak, bump, t);
  }
}
