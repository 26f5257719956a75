/** Which issue calls for which action: the table, the ladder and the gates together, said per action
    and not per row, and what a cycle reports of it. */
module PolicyLaws {
  import opened Wire
  import opened DecisionTable
  import opened Ladder
  import opened Transitions
  import opened Gates
  import opened Engine
  import opened EngineLaws

  // ---------------------------------------------------------------- what calls for what

  /** The issues whose first remedy is a soft reset. */
  const SOFT_FIRST: set<Issue> := {
    Issue(Sim, SimAppUnreadable), Issue(Sim, SimAppDetected), Issue(Sim, SimCardUnreadable),
    Issue(Registration, NotRegisteredSearching), Issue(Registration, NotRegisteredIdle), Issue(Qmi, QmiTimeout) }

  const MODEM_FIRST: set<Issue> := {
    Issue(Datapath, SessionDisconnected), Issue(Qmi, OperatingModeOffline), Issue(Qmi, OperatingModeLowPower) }

  const USB_FIRST: set<Issue> := { Issue(Qmi, QmiChannelHung), Issue(Qmi, SierraBootloader) }

  /** A modem reset's turn: asked for first, or soft resets are used up. */
  predicate ModemResetsTurn(issue: Issue, counters: map<ActionKind, int>, cfg: Settings) {
    issue in MODEM_FIRST || (issue in SOFT_FIRST && Count(counters, SoftReset) >= cfg.maxSoft)
  }

  predicate UsbResetsTurn(issue: Issue, counters: map<ActionKind, int>, cfg: Settings) {
    issue in USB_FIRST || (ModemResetsTurn(issue, counters, cfg) && Count(counters, ModemReset) >= cfg.maxModem)
  }

  /** The action an issue calls for, given how often each reset has run. */
  predicate CallsFor(k: ActionKind, issue: Issue, counters: map<ActionKind, int>, cfg: Settings) {
    match k
    case SetApn => issue in {Issue(Config, ApnEmpty), Issue(Config, ApnMismatch)}
    case FixRawIp => issue == Issue(Datapath, RawIpOff)
    case SimPowerOn => issue == Issue(Sim, SimPowerDown)
    case DriverReset => issue == Issue(Qmi, QmiProxyDied)
    case SoftReset => issue in SOFT_FIRST && Count(counters, SoftReset) < cfg.maxSoft
    case ModemReset => ModemResetsTurn(issue, counters, cfg) && Count(counters, ModemReset) < cfg.maxModem
    case UsbReset => UsbResetsTurn(issue, counters, cfg) && Count(counters, UsbReset) < cfg.maxUsb
    case SetOperatingMode => false
    case FixAutosuspend => false
  }

  /** Every reset the issue could lead to is used up. */
  predicate AllUsedUp(issue: Issue, counters: map<ActionKind, int>, cfg: Settings) {
    UsbResetsTurn(issue, counters, cfg) && Count(counters, UsbReset) >= cfg.maxUsb
  }

  /** The issues for which nothing is done, and the reason the plan then gives. */
  function WhyNothing(issue: Issue): Option<SkipRow> {
    if issue in {Issue(Sim, SimAppPinRequired), Issue(Sim, SimAppPukRequired)} then Some(RequiresHuman)
    else if issue == Issue(Sim, SimCardAbsent) then Some(NoCard)
    else if issue == Issue(Sim, SimCardError) then Some(Hardware)
    else if issue == Issue(Registration, Denied) then Some(CarrierDenied)
    else None
  }

  lemma DecideCallsFor(snap: ModemSnapshot, counters: map<ActionKind, int>, cfg: Settings, issue: Issue)
    requires SelectTopPriorityIssue(snap.issues) == Some(issue)
    ensures var d := Decide(snap, counters, cfg);
            && (forall k :: d.Attempt? && d.kind == k <==> CallsFor(k, issue, counters, cfg))
            && (d.LadderSkip? <==> AllUsedUp(issue, counters, cfg))
            && (d.LadderSkip? ==>
                  d.base == (if issue in SOFT_FIRST then SoftReset else if issue in MODEM_FIRST then ModemReset
                             else UsbReset))
            && (d.TableSkip? <==> WhyNothing(issue).Some?) && (d.TableSkip? ==> Some(d.row) == WhyNothing(issue))
            && (!d.Nothing? ==> d.issue == issue)
  {
    hide SelectTopPriorityIssue;
    var l := LookupAction(issue.category, issue.detail);
    if l.Act? && OnLadder(l.kind) {
      assert WalkFrom(3, counters, cfg) == LadderExhausted;
      assert WalkFrom(2, counters, cfg) ==
             if Count(counters, UsbReset) >= cfg.maxUsb then LadderExhausted else Run(UsbReset);
      assert WalkFrom(1, counters, cfg) ==
             if Count(counters, ModemReset) >= cfg.maxModem then WalkFrom(2, counters, cfg) else Run(ModemReset);
    }
  }

  /** With an issue to act on, no healthy cycle: counters are not cleared by decay. */
  lemma IssueMeansNoDecay(prior: ModemState, snap: ModemSnapshot, cfg: Settings)
    requires cfg.Valid() && snap.issues != []
    ensures !Decays(prior, snap, cfg)
  {
    TransitionLaw(prior, snap, cfg);
    hide Transition;
  }

  /** Exactly which action a cycle runs on a modem: the one its most urgent issue calls for, if the
      gates let it through. */
  lemma RunsExactlyWhatIsCalledFor(prior: ModemState, snap: ModemSnapshot, ctx: Context, t: Ticks, k: ActionKind)
    requires ctx.cfg.Valid()
    ensures var top := SelectTopPriorityIssue(snap.issues);
            StepModem(prior, snap, ctx, t).bump == Some(k) <==>
              && top.Some? && CallsFor(k, top.value, prior.counters, ctx.cfg)
              && MayExecute(k, Transition(prior, snap, ctx.cfg), ctx, t)
  {
    PlanEventAndBumpAgree(prior, snap, ctx, t);
    TopPriorityIssueIsMostUrgent(snap.issues);
    hide StepModem, Decide, Decays, MayExecute, Transition, SelectTopPriorityIssue, CallsFor;
    var top := SelectTopPriorityIssue(snap.issues);
    if top.Some? {
      IssueMeansNoDecay(prior, snap, ctx.cfg);
      DecideCallsFor(snap, prior.counters, ctx.cfg, top.value);
    } else {
      NoIssueNoDecision(snap, if Decays(prior, snap, ctx.cfg) then map[] else prior.counters, ctx.cfg);
    }
  }

  lemma NoIssueNoDecision(snap: ModemSnapshot, counters: map<ActionKind, int>, cfg: Settings)
    requires SelectTopPriorityIssue(snap.issues).None?
    ensures Decide(snap, counters, cfg).Nothing?
  {
  }

  /** What it reports. With no issue, or one the table does not list: nothing. For an issue that
      calls for nothing: its reason alone. With every reset used up: a skip that names the first
      remedy. Otherwise the attempt's own plan and events, which `SuppressionFlagsNameTheGates`
      spells out. */
  lemma ReportsExactlyWhatIsCalledFor(prior: ModemState, snap: ModemSnapshot, ctx: Context, t: Ticks)
    requires ctx.cfg.Valid()
    ensures var s, top := StepModem(prior, snap, ctx, t), SelectTopPriorityIssue(snap.issues);
            var who := WhoModem(snap.usbPath, snap.cdcWdm);
            if top.None? then s.plans == [] && s.skipped == []
            else
              var issue, n, cfg := top.value, prior.counters, ctx.cfg;
              if WhyNothing(issue).Some? then
                && s.plans == [PlannedAction(SoftReset, who, SkipTable(WhyNothing(issue).value), false, false, false)]
                && s.skipped == []
              else if AllUsedUp(issue, n, cfg) then
                var first := if issue in SOFT_FIRST then SoftReset else if issue in MODEM_FIRST then ModemReset
                             else UsbReset;
                && s.plans == [PlannedAction(SoftReset, who, SkipExhausted, false, false, false)]
                && s.skipped == [ActionSkipped(snap.usbPath, first, ExhaustedSkip, issue.category, issue.detail)]
              else if exists k :: CallsFor(k, issue, n, cfg) then
                forall k | CallsFor(k, issue, n, cfg) ::
                  var g := ApplyGatesToAction(k, Transition(prior, snap, cfg), ctx, snap, issue, t);
                  s.plans == [g.plan] && s.skipped == g.skipped
              else s.plans == [] && s.skipped == []
  {
    TopPriorityIssueIsMostUrgent(snap.issues);
    hide Decide, Decays, Transition, SelectTopPriorityIssue, CallsFor, AllUsedUp, ApplyGatesToAction;
    var top := SelectTopPriorityIssue(snap.issues);
    if top.Some? {
      IssueMeansNoDecay(prior, snap, ctx.cfg);
      DecideCallsFor(snap, prior.counters, ctx.cfg, top.value);
      var d := Decide(snap, prior.counters, ctx.cfg);
      assert d.Attempt? ==> CallsFor(d.kind, top.value, prior.counters, ctx.cfg);
    } else {
      NoIssueNoDecision(snap, if Decays(prior, snap, ctx.cfg) then map[] else prior.counters, ctx.cfg);
    }
  }

  // ---------------------------------------------------------------- the transitions listed

  function TransitionsOf(ts: seq<StateTransition>, usbPath: string): seq<StateTransition> {
    if ts == [] then []
    else
      var last := ts[|ts| - 1];
      TransitionsOf(ts[..|ts| - 1], usbPath) + (if last.usbPath == usbPath then [last] else [])
  }

  lemma TransitionsGrow(ts: seq<StateTransition>, e: Entry, from: ModemState, to: ModemState, usbPath: string)
    ensures TransitionsOf(ts + Transitioned(e, from, to), usbPath) ==
            TransitionsOf(ts, usbPath) + (if e.usbPath == usbPath then Moved(e, from, to) else [])
  {
    if to.state != from.state {
      assert (ts + Transitioned(e, from, to))[..|ts|] == ts;
    } else {
      assert ts + [] == ts;
    }
  }

  /** The record of one modem's change of state, if it changed. */
  function Moved(e: Entry, from: ModemState, to: ModemState): seq<StateTransition> {
    if from.state == to.state then []
    else
      [StateTransition(e.usbPath, from.state, to.state, if e.snap.issues == [] then None else Some(e.snap.issues[0]),
                       to)]
  }

  lemma NoTransitions(usbPath: string)
    ensures TransitionsOf([], usbPath) == []
  {
  }

  lemma {:induction false} NotListed(entries: seq<Entry>, usbPath: string, priors: map<string, ModemState>,
                                     globals: GlobalsState, ctx: Context)
    requires forall i | 0 <= i < |entries| :: entries[i].usbPath != usbPath
    ensures TransitionsOf(PerModemCycle(entries, priors, globals, ctx).transitions, usbPath) == []
    ensures TransitionsOf(DriverResetCycle(entries, priors, globals, ctx).transitions, usbPath) == []
  {
    hide Transition, StepEntry, Transitioned, DriverResetCycle, PerModemCycle, TransitionsOf;
    if entries == [] {
      EmptyCycle(priors, globals, ctx);
      EmptyDriverReset(priors, globals, ctx);
      NoTransitions(usbPath);
    } else {
      var n := |entries| - 1;
      var e, prior := entries[n], PriorOf(priors, entries[n].usbPath);
      assert entries[..n + 1] == entries;
      NotListed(entries[..n], usbPath, priors, globals, ctx);
      CycleStep(entries, n, priors, globals, ctx);
      DriverResetStep(entries, priors, globals, ctx);
      TransitionsGrow(PerModemCycle(entries[..n], priors, globals, ctx).transitions, e, prior,
                      StepEntry(e, priors, ctx).next, usbPath);
      TransitionsGrow(DriverResetCycle(entries[..n], priors, globals, ctx).transitions, e, prior,
                      DriverResetCycle(entries, priors, globals, ctx).newStates[e.usbPath], usbPath);
    }
  }

  lemma {:induction false} ListedOnce(entries: seq<Entry>, j: nat, priors: map<string, ModemState>,
                                      globals: GlobalsState, ctx: Context)
    requires j < |entries| && Diag(entries, []).DistinctPaths()
    ensures var e := entries[j];
            var from, one := PriorOf(priors, e.usbPath), PerModemCycle(entries, priors, globals, ctx);
            var short := DriverResetCycle(entries, priors, globals, ctx);
            && e.usbPath in one.newStates && e.usbPath in short.newStates
            && TransitionsOf(one.transitions, e.usbPath) == Moved(e, from, one.newStates[e.usbPath])
            && TransitionsOf(short.transitions, e.usbPath) == Moved(e, from, short.newStates[e.usbPath])
  {
    hide Transition, StepEntry, Transitioned, DriverResetCycle, PerModemCycle, TransitionsOf, Moved;
    var n := |entries| - 1;
    var e, prior := entries[n], PriorOf(priors, entries[n].usbPath);
    assert entries[..n + 1] == entries;
    CycleStep(entries, n, priors, globals, ctx);
    DriverResetStep(entries, priors, globals, ctx);
    TransitionsGrow(PerModemCycle(entries[..n], priors, globals, ctx).transitions, e, prior,
                    StepEntry(e, priors, ctx).next, entries[j].usbPath);
    TransitionsGrow(DriverResetCycle(entries[..n], priors, globals, ctx).transitions, e, prior,
                    DriverResetCycle(entries, priors, globals, ctx).newStates[e.usbPath], entries[j].usbPath);
    if j < n {
      ListedOnce(entries[..n], j, priors, globals, ctx);
      assert entries[j].usbPath != entries[n].usbPath;
    } else {
      NotListed(entries[..n], entries[j].usbPath, priors, globals, ctx);
    }
  }

  /** A cycle, short-circuited or not, lists one transition for each modem whose state it changed,
      from the state it had to the one written, caused by the first issue seen, and no other. */
  lemma TransitionsAreTheChanges(diag: Diag, priors: map<string, ModemState>, globals: GlobalsState, ctx: Context,
                                 usbPath: string)
    requires diag.DistinctPaths()
    ensures var r := Engine.CycleSpec(diag, priors, globals, ctx);
            && (forall e <- diag.perModem | e.usbPath == usbPath ::
                  e.usbPath in r.newStates
                  && TransitionsOf(r.transitions, usbPath) ==
                     var from := if usbPath in priors then priors[usbPath] else FreshState();
                     Moved(e, from, r.newStates[usbPath]))
            && ((forall e <- diag.perModem :: e.usbPath != usbPath) ==> TransitionsOf(r.transitions, usbPath) == [])
  {
    hide DriverResetCycle, PerModemCycle, TransitionsOf, Moved, GlobalDriverResetEligible, FreshState;
    var es := diag.perModem;
    assert Diag(es, []).DistinctPaths();
    forall e <- es | e.usbPath == usbPath
      ensures var r := Engine.CycleSpec(diag, priors, globals, ctx);
              && usbPath in r.newStates
              && TransitionsOf(r.transitions, usbPath) == Moved(e, PriorOf(priors, usbPath), r.newStates[usbPath])
    {
      var j :| 0 <= j < |es| && es[j] == e;
      ListedOnce(es, j, priors, globals, ctx);
    }
    if forall e <- es :: e.usbPath != usbPath {
      NotListed(es, usbPath, priors, globals, ctx);
    }
  }
}
