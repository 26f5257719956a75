/** What one policy cycle guarantees, stated without repeating how it computes it. */
module EngineLaws {
  import opened Wire
  import opened DecisionTable
  import opened Ladder
  import opened Transitions
  import opened Gates
  import opened Engine

  // ---------------------------------------------------------------- one modem

  /** A healthy result means there was nothing to act on: no plan, no event, no bump. */
  lemma HealthyMeansQuiet(prior: ModemState, snap: ModemSnapshot, ctx: Context, t: Ticks)
    requires StepModem(prior, snap, ctx, t).next.state == Healthy
    ensures var s := StepModem(prior, snap, ctx, t); s.plans == [] && s.skipped == [] && s.bump.None?
  {
    hide Transition, SelectTopPriorityIssue, ApplyGatesToAction, Decays, LookupAction, SelectRung;
    TransitionLaw(prior, snap, ctx.cfg);
    TopPriorityIssueIsMostUrgent(snap.issues);
  }

  /** When exactly an attempted action executes: nothing hard-blocks it, the signal and both
      backoffs have cleared against the recorded timestamps, and the daemon is live. */
  predicate MayExecute(k: ActionKind, moved: ModemState, ctx: Context, t: Ticks) {
    var destructive := k in {ModemReset, UsbReset, DriverReset};
    && moved.present
    && !(ctx.maintenanceActive && destructive)
    && (moved.state == Exhausted ==> k in {SetApn, FixRawIp})
    && !(destructive && moved.rfBlocked)
    && (k in moved.lastByKind ==> t.same - moved.lastByKind[k] >= ctx.cfg.backoffSeconds as real)
    && (destructive ==> forall d <- moved.lastByKind | d in {ModemReset, UsbReset, DriverReset} ::
                          t.ladder - moved.lastByKind[d] >= ctx.cfg.ladderMinIntervalSeconds as real)
    && !ctx.cfg.dryRun
  }

  /** At most one plan per modem and cycle. A bump happens exactly for an attempt that may
      execute; that plan is unsuppressed and carries no skip event. Every other plan is marked
      as skipped; gated and ladder-exhausted ones carry one or two events, table skips none. */
  lemma PlanEventAndBumpAgree(prior: ModemState, snap: ModemSnapshot, ctx: Context, t: Ticks)
    ensures var s := StepModem(prior, snap, ctx, t);
            var moved := Transition(prior, snap, ctx.cfg);
            var counters := if Decays(prior, snap, ctx.cfg) then map[] else prior.counters;
            var d := Decide(snap, counters, ctx.cfg);
            && |s.plans| <= 1
            && (d.Nothing? <==> s.plans == [])
            && (s.bump.Some? <==> d.Attempt? && MayExecute(d.kind, moved, ctx, t))
            && (s.bump.Some? ==> s.bump.value == d.kind && s.skipped == []
                                 && s.plans == [PlannedAction(d.kind, SnapWho(snap), ActionPlanned(d.kind),
                                                              false, false, false)])
            && (s.bump.None? && s.plans != [] ==> !s.plans[0].reason.ActionPlanned?)
            && (d.TableSkip? ==> s.skipped == [])
            && (s.bump.None? && (d.Attempt? || d.LadderSkip?) ==> 1 <= |s.skipped| <= 2)
            && (forall x <- s.skipped :: x.usbPath == snap.usbPath)
            && (forall p <- s.plans :: p.who == SnapWho(snap))
            && (d.Attempt? ==> s.plans[0].kind == d.kind)
  {
    var moved := Transition(prior, snap, ctx.cfg);
    var counters := if Decays(prior, snap, ctx.cfg) then map[] else prior.counters;
    var d := Decide(snap, counters, ctx.cfg);
    if d.Attempt? {
      LadderGateSeesEveryDestructiveKind(moved, d.kind, t.ladder, ctx.cfg);
    }
  }

  /** A modem's own driver reset: executed exactly when its most urgent issue is a dead proxy and
      the gates let it through, which do not look at the rest of the fleet. */
  lemma DriverResetExactlyForDeadProxy(prior: ModemState, snap: ModemSnapshot, ctx: Context, t: Ticks)
    ensures var moved := Transition(prior, snap, ctx.cfg);
            && (StepModem(prior, snap, ctx, t).bump == Some(DriverReset) <==>
                  && SelectTopPriorityIssue(snap.issues) == Some(Issue(Qmi, QmiProxyDied))
                  && MayExecute(DriverReset, moved, ctx, t))
            && forall n :: MayExecute(DriverReset, moved, ctx.(expectedModemCount := n), t) ==
                           MayExecute(DriverReset, moved, ctx, t)
  {
    PlanEventAndBumpAgree(prior, snap, ctx, t);
    hide StepModem, Transition, Decays, SelectTopPriorityIssue, MayExecute;
    var counters := if Decays(prior, snap, ctx.cfg) then map[] else prior.counters;
    OnlyDeadProxyChoosesDriverReset(snap, counters, ctx.cfg);
    FleetIsNotAsked(Transition(prior, snap, ctx.cfg), ctx, t);
  }

  lemma OnlyDeadProxyChoosesDriverReset(snap: ModemSnapshot, counters: map<ActionKind, int>, cfg: Settings)
    ensures var d := Decide(snap, counters, cfg);
            d.Attempt? && d.kind == DriverReset <==>
            SelectTopPriorityIssue(snap.issues) == Some(Issue(Qmi, QmiProxyDied))
  {
    hide SelectTopPriorityIssue;
    match SelectTopPriorityIssue(snap.issues) {
      case None =>
      case Some(issue) =>
        var l := LookupAction(issue.category, issue.detail);
        if l.Act? && OnLadder(l.kind) {
          SelectRungFindsFirstOpenRung(l.kind, counters, cfg);
        }
    }
  }

  lemma FleetIsNotAsked(moved: ModemState, ctx: Context, t: Ticks)
    ensures forall n :: MayExecute(DriverReset, moved, ctx.(expectedModemCount := n), t) ==
                        MayExecute(DriverReset, moved, ctx, t)
  {
  }

  /** Whether some destructive kind ran less than the ladder interval ago. */
  ghost predicate NearDestructive(moved: ModemState, ctx: Context, t: Ticks) {
    exists o <- moved.lastByKind ::
      o in {ModemReset, UsbReset, DriverReset}
      && t.ladder - moved.lastByKind[o] < ctx.cfg.ladderMinIntervalSeconds as real
  }

  /** What an attempt reports, gate by gate. The three hard gates are asked in order, and the first
      that fires gives the reason and the one event. Otherwise each flag and each event is there
      exactly when its own gate fired, the dry-run event only when no other did, and the reason
      says which of the three happened: held back by a gate, by dry run alone, or by nothing. */
  lemma SuppressionFlagsNameTheGates(k: ActionKind, moved: ModemState, ctx: Context, snap: ModemSnapshot,
                                     issue: Issue, t: Ticks)
    ensures var g := ApplyGatesToAction(k, moved, ctx, snap, issue, t);
            var destructive := k in {ModemReset, UsbReset, DriverReset};
            var sig := destructive && moved.rfBlocked;
            var same := k in moved.lastByKind && t.same - moved.lastByKind[k] < ctx.cfg.backoffSeconds as real;
            var near := destructive && NearDestructive(moved, ctx, t);
            var (reason, events) :=
              if !moved.present then (SkipDisconnected, [DisconnectedSkip])
              else if ctx.maintenanceActive && destructive then (SkipMaintenance, [MaintenanceSkip])
              else if moved.state == Exhausted && k !in {SetApn, FixRawIp} then (SkipExhausted, [ExhaustedSkip])
              else if sig || same || near then
                (SkipGateFailed,
                 (if sig then [SignalBelowGate] else [])
                 + (if same then [SameActionBackoff] else if near then [LadderBackoff] else []))
              else if ctx.cfg.dryRun then (SkipDryRun, [DryRunSkip])
              else (ActionPlanned(k), []);
            && g.plan.kind == k && g.plan.who == WhoModem(snap.usbPath, snap.cdcWdm) && g.plan.reason == reason
            && (g.wouldExecute <==> MayExecute(k, moved, ctx, t))
            && |g.skipped| == |events|
            && (forall i | 0 <= i < |events| ::
                  g.skipped[i] == ActionSkipped(snap.usbPath, k, events[i], issue.category, issue.detail))
            && (if g.plan.reason in {SkipDisconnected, SkipMaintenance, SkipExhausted}
                then !g.plan.suppressedBySignalGate && !g.plan.suppressedByBackoff && !g.plan.suppressedByDryRun
                else && g.plan.suppressedBySignalGate == sig && g.plan.suppressedByBackoff == (same || near)
                     && g.plan.suppressedByDryRun == ctx.cfg.dryRun)
  {
    LadderGateSeesEveryDestructiveKind(moved, k, t.ladder, ctx.cfg);
  }

  /** What finalizing writes: the given counters plus one for the executed kind; both timestamp
      fields move together, and only on execution. */
  lemma FinalizeWritesOneRecord(prior: ModemState, moved: ModemState, counters: map<ActionKind, int>,
                                streak: int, bump: Option<ActionKind>, t: Ticks)
    ensures var next := FinalizePerModemState(prior, moved, counters, streak, bump, t);
            && (forall k :: Count(next.counters, k) == Count(counters, k) + (if bump == Some(k) then 1 else 0))
            && (forall k :: Stamp(next, k) == if bump == Some(k) then Some(t.bump) else Stamp(prior, k))
            && next.lastAction == (if bump.Some? then Some(t.bump) else prior.lastAction)
            && (bump.None? ==> next.counters == counters && next.lastByKind == prior.lastByKind)
            && next.healthyStreak == streak && next.state == moved.state
            && next.recoveringLevel == moved.recoveringLevel
            && next.present == moved.present && next.rfBlocked == moved.rfBlocked
  {
  }

  /** The counters a step starts from. */
  function BaseCounters(prior: ModemState, snap: ModemSnapshot, cfg: Settings): map<ActionKind, int> {
    if Decays(prior, snap, cfg) then map[] else prior.counters
  }

  lemma StepIsFinalize(prior: ModemState, snap: ModemSnapshot, ctx: Context, t: Ticks)
    ensures var s := StepModem(prior, snap, ctx, t);
            var moved := Transition(prior, snap, ctx.cfg);
            s.next == FinalizePerModemState(prior, moved, BaseCounters(prior, snap, ctx.cfg),
                        if Decays(prior, snap, ctx.cfg) then 0 else StreakAfter(prior, moved), s.bump, t)
  {
    hide FinalizePerModemState, Transition, Decide, ApplyGatesToAction, Decays, StreakAfter;
  }

  /** The record a step writes. Counters are the prior ones, or none on decay, plus one for the
      executed kind; timestamps move only on execution; the streak counts healthy results and
      decay happens exactly when it reaches K. */
  lemma StepWritesOneAtomicRecord(prior: ModemState, snap: ModemSnapshot, ctx: Context, t: Ticks)
    requires ctx.cfg.Valid()
    ensures var s := StepModem(prior, snap, ctx, t);
            var decays := s.next.state == Healthy && prior.healthyStreak + 1 >= ctx.cfg.decayK;
            && s.next.state == Transition(prior, snap, ctx.cfg).state
            && (forall k :: Count(s.next.counters, k) ==
                            (if decays then 0 else Count(prior.counters, k)) + (if s.bump == Some(k) then 1 else 0))
            && (s.bump.None? ==> s.next.counters == if decays then map[] else prior.counters)
            && (forall k :: Stamp(s.next, k) == if s.bump == Some(k) then Some(t.bump) else Stamp(prior, k))
            && s.next.lastAction == (if s.bump.Some? then Some(t.bump) else prior.lastAction)
            && s.next.healthyStreak ==
               (if s.next.state != Healthy || decays then 0 else prior.healthyStreak + 1)
            && (s.next.state == Healthy ==> s.bump.None?)
            && decays == Decays(prior, snap, ctx.cfg)
  {
    StepIsFinalize(prior, snap, ctx, t);
    hide StepModem, Transition;
    var s, moved := StepModem(prior, snap, ctx, t), Transition(prior, snap, ctx.cfg);
    FinalizeWritesOneRecord(prior, moved, BaseCounters(prior, snap, ctx.cfg),
                            if Decays(prior, snap, ctx.cfg) then 0 else StreakAfter(prior, moved), s.bump, t);
    if s.next.state == Healthy {
      HealthyMeansQuiet(prior, snap, ctx, t);
    }
  }

  /** Every state a step returns from a valid one is valid, with its streak below K. */
  lemma StepKeepsValid(prior: ModemState, snap: ModemSnapshot, ctx: Context, t: Ticks)
    requires prior.Valid() && ctx.cfg.Valid()
    ensures StepModem(prior, snap, ctx, t).next.Valid()
    ensures StepModem(prior, snap, ctx, t).next.healthyStreak < ctx.cfg.decayK
  {
    TransitionLaw(prior, snap, ctx.cfg);
    StepIsFinalize(prior, snap, ctx, t);
    StepWritesOneAtomicRecord(prior, snap, ctx, t);
    hide StepModem, Transition;
    var s := StepModem(prior, snap, ctx, t);
    forall k | k in s.next.counters ensures s.next.counters[k] >= 0 {
      assert Count(s.next.counters, k) == s.next.counters[k];
      if k in prior.counters { assert prior.counters[k] >= 0; }
    }
  }

  // ---------------------------------------------------------------- the fleet

  /** The observed paths. */
  function Paths(entries: seq<Entry>): (ps: set<string>)
    ensures forall i | 0 <= i < |entries| :: entries[i].usbPath in ps
    ensures forall p <- ps :: exists i | 0 <= i < |entries| :: entries[i].usbPath == p
  {
    if entries == [] then {} else Paths(entries[..|entries| - 1]) + {entries[|entries| - 1].usbPath}
  }

  lemma DistinctPrefix(entries: seq<Entry>, n: nat)
    requires Diag(entries, []).DistinctPaths() && n < |entries|
    ensures Diag(entries[..n], []).DistinctPaths()
    ensures Paths(entries[..n + 1]) == Paths(entries[..n]) + {entries[n].usbPath}
    ensures forall i | 0 <= i < n ::
              entries[i].usbPath in Paths(entries[..n]) && entries[i].usbPath != entries[n].usbPath
  {
    assert entries[..n + 1][..n] == entries[..n];
    assert forall i | 0 <= i < n :: entries[..n][i] == entries[i];
  }

  /** The per-modem cycle writes exactly the observed paths, each with that modem's own step,
      and leaves the globals alone. */
  lemma {:induction false} PerModemCycleIsPointwise(entries: seq<Entry>, priors: map<string, ModemState>,
                                                   globals: GlobalsState, ctx: Context)
    requires Diag(entries, []).DistinctPaths()
    ensures var r := PerModemCycle(entries, priors, globals, ctx);
            && r.newStates.Keys == Paths(entries)
            && r.newGlobals == globals
            && (forall i | 0 <= i < |entries| ::
                  r.newStates[entries[i].usbPath] == StepEntry(entries[i], priors, ctx).next)
  {
    hide StepEntry, Transitioned, PerModemCycle, Paths;
    if entries == [] {
      EmptyCycle(priors, globals, ctx);
    } else {
      var n := |entries| - 1;
      assert entries[..n + 1] == entries;
      DistinctPrefix(entries, n);
      CycleStep(entries, n, priors, globals, ctx);
      PerModemCycleIsPointwise(entries[..n], priors, globals, ctx);
      var states := PerModemCycle(entries[..n], priors, globals, ctx).newStates;
      forall i | 0 <= i < n ensures states[entries[i].usbPath] == StepEntry(entries[i], priors, ctx).next {
        assert entries[..n][i] == entries[i];
      }
    }
  }

  lemma {:induction false} DriverResetShape(entries: seq<Entry>, priors: map<string, ModemState>,
                                            globals: GlobalsState, ctx: Context)
    ensures var r := DriverResetCycle(entries, priors, globals, ctx);
            && r.plans == [PlannedAction(DriverReset, WhoHost, ActionPlanned(DriverReset), false, false, false)]
            && r.skipped == [] && r.newGlobals == GlobalsState(globals.driverResetCount + 1, Some(ctx.stampAt))
  {
    hide DriverResetCycle;
    if entries == [] {
      EmptyDriverReset(priors, globals, ctx);
    } else {
      DriverResetShape(entries[..|entries| - 1], priors, globals, ctx);
      DriverResetStep(entries, priors, globals, ctx);
    }
  }

  /** The short-circuited cycle writes exactly the observed paths, each with its bare
      transition; it plans one host-level reset and stamps the globals. */
  lemma {:induction false} DriverResetCycleIsPointwise(entries: seq<Entry>, priors: map<string, ModemState>,
                                                      globals: GlobalsState, ctx: Context)
    requires Diag(entries, []).DistinctPaths()
    ensures var r := DriverResetCycle(entries, priors, globals, ctx);
            && r.plans == [PlannedAction(DriverReset, WhoHost, ActionPlanned(DriverReset), false, false, false)]
            && r.skipped == [] && r.newGlobals == GlobalsState(globals.driverResetCount + 1, Some(ctx.stampAt))
            && r.newStates.Keys == Paths(entries)
            && (forall i | 0 <= i < |entries| ::
                  r.newStates[entries[i].usbPath]
                  == Transition(PriorOf(priors, entries[i].usbPath), entries[i].snap, ctx.cfg))
  {
    hide Transition, PriorOf, Paths, DriverResetCycle;
    DriverResetShape(entries, priors, globals, ctx);
    DriverResetPaths(entries, priors, globals, ctx);
    forall i: nat | i < |entries|
      ensures DriverResetCycle(entries, priors, globals, ctx).newStates[entries[i].usbPath]
           == Transition(PriorOf(priors, entries[i].usbPath), entries[i].snap, ctx.cfg)
    {
      DriverResetAt(entries, i, priors, globals, ctx);
    }
  }

  lemma {:induction false} DriverResetPaths(entries: seq<Entry>, priors: map<string, ModemState>,
                                            globals: GlobalsState, ctx: Context)
    ensures DriverResetCycle(entries, priors, globals, ctx).newStates.Keys == Paths(entries)
  {
    hide DriverResetCycle;
    if entries == [] {
      EmptyDriverReset(priors, globals, ctx);
    } else {
      DriverResetPaths(entries[..|entries| - 1], priors, globals, ctx);
      DriverResetStep(entries, priors, globals, ctx);
    }
  }

  lemma {:induction false} DriverResetAt(entries: seq<Entry>, i: nat, priors: map<string, ModemState>,
                                         globals: GlobalsState, ctx: Context)
    requires i < |entries| && Diag(entries, []).DistinctPaths()
    ensures var states := DriverResetCycle(entries, priors, globals, ctx).newStates;
            entries[i].usbPath in states
            && states[entries[i].usbPath]
               == Transition(PriorOf(priors, entries[i].usbPath), entries[i].snap, ctx.cfg)
  {
    hide Transition, PriorOf, DriverResetCycle;
    var n := |entries| - 1;
    DriverResetStep(entries, priors, globals, ctx);
    if i < n {
      DriverResetAt(entries[..n], i, priors, globals, ctx);
      assert entries[i].usbPath != entries[n].usbPath;
    }
  }

  lemma EmptyDriverReset(priors: map<string, ModemState>, globals: GlobalsState, ctx: Context)
    ensures DriverResetCycle([], priors, globals, ctx) ==
            CycleResult([PlannedAction(DriverReset, WhoHost, ActionPlanned(DriverReset), false, false, false)], [],
                        map[], GlobalsState(globals.driverResetCount + 1, Some(ctx.stampAt)), [])
    ensures Paths([]) == {}
  {
  }

  lemma DriverResetStep(entries: seq<Entry>, priors: map<string, ModemState>, globals: GlobalsState, ctx: Context)
    requires entries != []
    ensures var n := |entries| - 1;
            var e := entries[n];
            var one := DriverResetCycle(entries[..n], priors, globals, ctx);
            var two := DriverResetCycle(entries, priors, globals, ctx);
            && two.newStates == one.newStates[e.usbPath := Transition(PriorOf(priors, e.usbPath), e.snap, ctx.cfg)]
            && two.plans == one.plans && two.skipped == one.skipped && two.newGlobals == one.newGlobals
            && two.transitions ==
               one.transitions + Transitioned(e, PriorOf(priors, e.usbPath), two.newStates[e.usbPath])
  {
    hide Transition, Transitioned, PriorOf;
  }

  function SideBySide(l: CycleResult, r: CycleResult): CycleResult {
    CycleResult(l.plans + r.plans, l.transitions + r.transitions, l.newStates + r.newStates,
                l.newGlobals, l.skipped + r.skipped)
  }

  lemma AbsorbBeside(l: CycleResult, r: CycleResult, e: Entry, priors: map<string, ModemState>, ctx: Context)
    ensures Absorb(SideBySide(l, r), e, priors, ctx) == SideBySide(l, Absorb(r, e, priors, ctx))
  {
    hide StepEntry, Transitioned;
    var s := StepEntry(e, priors, ctx);
    assert l.newStates + r.newStates[e.usbPath := s.next] == (l.newStates + r.newStates)[e.usbPath := s.next];
  }

  /** Splitting the fleet commutes with the cycle: the whole is the two halves side by side. */
  lemma {:induction false} SplittingCommutes(a: seq<Entry>, b: seq<Entry>, priors: map<string, ModemState>,
                                            globals: GlobalsState, ctx: Context)
    ensures PerModemCycle(a + b, priors, globals, ctx) ==
            SideBySide(PerModemCycle(a, priors, globals, ctx), PerModemCycle(b, priors, globals, ctx))
    ensures PerModemCycle(a + b, priors, globals, ctx).newGlobals == globals
  {
    hide Absorb, PerModemCycle;
    if b == [] {
      assert a + b == a;
      EmptyCycle(priors, globals, ctx);
      CycleKeepsGlobals(a, priors, globals, ctx);
    } else {
      var n := |b| - 1;
      var all := a + b;
      assert all[..|a| + n] == a + b[..n] && all[..|a| + n + 1] == all && b[..n + 1] == b;
      assert all[|a| + n] == b[n];
      CycleStep(all, |a| + n, priors, globals, ctx);
      CycleStep(b, n, priors, globals, ctx);
      SplittingCommutes(a, b[..n], priors, globals, ctx);
      AbsorbBeside(PerModemCycle(a, priors, globals, ctx), PerModemCycle(b[..n], priors, globals, ctx), b[n], priors,
                   ctx);
      CycleKeepsGlobals(all, priors, globals, ctx);
    }
  }

  lemma {:induction false} CycleKeepsGlobals(es: seq<Entry>, priors: map<string, ModemState>, globals: GlobalsState,
                                             ctx: Context)
    ensures PerModemCycle(es, priors, globals, ctx).newGlobals == globals
  {
    hide StepEntry, Transitioned;
    if es != [] {
      CycleKeepsGlobals(es[..|es| - 1], priors, globals, ctx);
    }
  }

  ghost predicate SameUpToOrder(one: CycleResult, two: CycleResult) {
    && one.newStates == two.newStates
    && one.newGlobals == two.newGlobals
    && multiset(one.plans) == multiset(two.plans)
    && multiset(one.skipped) == multiset(two.skipped)
    && multiset(one.transitions) == multiset(two.transitions)
  }

  /** Listing the modems in another order changes neither the states written nor the collection
      of plans, events and transitions. */
  lemma {:induction false} PermutingCommutes(es: seq<Entry>, fs: seq<Entry>, priors: map<string, ModemState>,
                                            globals: GlobalsState, ctx: Context)
    requires Diag(es, []).DistinctPaths() && multiset(es) == multiset(fs)
    ensures SameUpToOrder(PerModemCycle(es, priors, globals, ctx), PerModemCycle(fs, priors, globals, ctx))
  {
    hide PerModemCycle, SameUpToOrder;
    if es == [] {
      assert |multiset(es)| == |es| && |multiset(fs)| == |fs|;
      SameAsItself(PerModemCycle(es, priors, globals, ctx));
    } else {
      var n := |es| - 1;
      assert es == es[..n] + [es[n]];
      var left, right := TakeOut(es, fs);
      DistinctPrefix(es, n);
      PermutingCommutes(es[..n], left + right, priors, globals, ctx);
      PullToEnd(left, es[n], right, priors, globals, ctx);
      AppendKeepsSame(es[..n], left + right, es[n], priors, globals, ctx);
      SameIsTransitive(PerModemCycle(es, priors, globals, ctx),
                       PerModemCycle(left + right + [es[n]], priors, globals, ctx),
                       PerModemCycle(fs, priors, globals, ctx));
    }
  }

  lemma SameAsItself(r: CycleResult)
    ensures SameUpToOrder(r, r)
  {
  }

  lemma SameIsTransitive(a: CycleResult, b: CycleResult, c: CycleResult)
    requires SameUpToOrder(a, b) && SameUpToOrder(c, b)
    ensures SameUpToOrder(a, c)
  {
  }

  /** Finds the last entry of `es` in `fs`; the entries after it there are on other paths. */
  lemma TakeOut(es: seq<Entry>, fs: seq<Entry>) returns (left: seq<Entry>, right: seq<Entry>)
    requires es != [] && Diag(es, []).DistinctPaths() && multiset(es) == multiset(fs)
    ensures fs == left + [es[|es| - 1]] + right
    ensures multiset(es[..|es| - 1]) == multiset(left + right)
    ensures forall e | e in right :: e.usbPath != es[|es| - 1].usbPath
  {
    var init, x := es[..|es| - 1], es[|es| - 1];
    assert es == init + [x];
    assert x in multiset(fs);
    var j :| 0 <= j < |fs| && fs[j] == x;
    left, right := fs[..j], fs[j + 1..];
    assert fs == left + [x] + right;
    CancelOne(init, x, left, right);
    forall e | e in right ensures e.usbPath != x.usbPath {
      assert e in left + right;
      assert e in multiset(left + right);
      var i :| 0 <= i < |init| && init[i] == e;
      assert es[i].usbPath != es[|es| - 1].usbPath;
    }
  }

  lemma AppendKeepsSame(es: seq<Entry>, fs: seq<Entry>, x: Entry, priors: map<string, ModemState>,
                        globals: GlobalsState, ctx: Context)
    requires SameUpToOrder(PerModemCycle(es, priors, globals, ctx), PerModemCycle(fs, priors, globals, ctx))
    ensures SameUpToOrder(PerModemCycle(es + [x], priors, globals, ctx), PerModemCycle(fs + [x], priors, globals, ctx))
  {
    hide PerModemCycle;
    SplittingCommutes(es, [x], priors, globals, ctx);
    SplittingCommutes(fs, [x], priors, globals, ctx);
  }

  /** Moving one modem to the end of the list. */
  lemma PullToEnd(left: seq<Entry>, x: Entry, right: seq<Entry>, priors: map<string, ModemState>,
                  globals: GlobalsState, ctx: Context)
    requires forall e <- right :: e.usbPath != x.usbPath
    ensures SameUpToOrder(PerModemCycle(left + right + [x], priors, globals, ctx),
                          PerModemCycle(left + [x] + right, priors, globals, ctx))
    ensures SameUpToOrder(PerModemCycle(left + [x] + right, priors, globals, ctx),
                          PerModemCycle(left + right + [x], priors, globals, ctx))
  {
    hide PerModemCycle, Paths;
    var l, m, r := PerModemCycle(left, priors, globals, ctx), PerModemCycle([x], priors, globals, ctx),
                   PerModemCycle(right, priors, globals, ctx);
    SplittingCommutes(left + [x], right, priors, globals, ctx);
    SplittingCommutes(left, [x], priors, globals, ctx);
    SplittingCommutes(left + right, [x], priors, globals, ctx);
    SplittingCommutes(left, right, priors, globals, ctx);
    WritesOnlyListedPaths(right, priors, globals, ctx);
    WritesOnlyListedPaths([x], priors, globals, ctx);
    assert x.usbPath !in Paths(right);
    forall p | p in m.newStates ensures p !in r.newStates {
      assert p == [x][0].usbPath;
    }
    DisjointSwap(l.newStates, m.newStates, r.newStates);
    SwapTail(l.plans, m.plans, r.plans);
    SwapTail(l.skipped, m.skipped, r.skipped);
    SwapTail(l.transitions, m.transitions, r.transitions);
  }

  lemma DisjointSwap<K, V>(a: map<K, V>, b: map<K, V>, c: map<K, V>)
    requires forall k | k in b :: k !in c
    ensures a + b + c == a + c + b
  {
  }

  lemma CancelOne<T>(init: seq<T>, x: T, left: seq<T>, right: seq<T>)
    requires multiset(init + [x]) == multiset(left + [x] + right)
    ensures multiset(init) == multiset(left + right)
  {
    var m := multiset([x]);
    assert multiset(init + [x]) == multiset(init) + m;
    assert multiset(left + [x] + right) == multiset(left) + m + multiset(right);
    assert multiset(left + right) == multiset(left) + multiset(right);
    assert multiset(init) == multiset(init) + m - m;
    assert multiset(left) + multiset(right) == multiset(left) + m + multiset(right) - m;
  }

  lemma SwapTail<T>(a: seq<T>, b: seq<T>, c: seq<T>)
    ensures multiset(a + b + c) == multiset(a + c + b)
  {
    assert multiset(a + b + c) == multiset(a) + multiset(b) + multiset(c);
  }

  lemma {:induction false} WritesOnlyListedPaths(entries: seq<Entry>, priors: map<string, ModemState>,
                                                globals: GlobalsState, ctx: Context)
    ensures PerModemCycle(entries, priors, globals, ctx).newStates.Keys == Paths(entries)
  {
    hide StepEntry, Transitioned;
    if entries != [] {
      WritesOnlyListedPaths(entries[..|entries| - 1], priors, globals, ctx);
    }
  }

  /** The plans and events of one modem. */
  function PlansOf(plans: seq<PlannedAction>, usbPath: string): seq<PlannedAction> {
    if plans == [] then []
    else
      var last := plans[|plans| - 1];
      PlansOf(plans[..|plans| - 1], usbPath)
      + (if last.who.WhoModem? && last.who.usbPath == usbPath then [last] else [])
  }

  function EventsOf(events: seq<ActionSkipped>, usbPath: string): seq<ActionSkipped> {
    if events == [] then []
    else
      var last := events[|events| - 1];
      EventsOf(events[..|events| - 1], usbPath) + (if last.usbPath == usbPath then [last] else [])
  }

  lemma {:induction false} PlansOfAppend(a: seq<PlannedAction>, b: seq<PlannedAction>, usbPath: string)
    ensures PlansOf(a + b, usbPath) == PlansOf(a, usbPath) + PlansOf(b, usbPath)
  {
    if b == [] {
      assert a + b == a;
    } else {
      PlansOfAppend(a, b[..|b| - 1], usbPath);
      assert (a + b)[..|a + b| - 1] == a + b[..|b| - 1];
    }
  }

  lemma {:induction false} EventsOfAppend(a: seq<ActionSkipped>, b: seq<ActionSkipped>, usbPath: string)
    ensures EventsOf(a + b, usbPath) == EventsOf(a, usbPath) + EventsOf(b, usbPath)
  {
    if b == [] {
      assert a + b == a;
    } else {
      EventsOfAppend(a, b[..|b| - 1], usbPath);
      assert (a + b)[..|a + b| - 1] == a + b[..|b| - 1];
    }
  }

  lemma {:induction false} OwnOrForeign(s: ModemStep, snapPath: string, usbPath: string)
    requires |s.plans| <= 1 && |s.skipped| <= 2
    requires forall p <- s.plans :: p.who.WhoModem? && p.who.usbPath == snapPath
    requires forall x <- s.skipped :: x.usbPath == snapPath
    ensures PlansOf(s.plans, usbPath) == if snapPath == usbPath then s.plans else []
    ensures EventsOf(s.skipped, usbPath) == if snapPath == usbPath then s.skipped else []
  {
    if s.plans != [] {
      assert s.plans[0] in s.plans && s.plans == [s.plans[0]] && s.plans[..0] == [];
    }
    if |s.skipped| >= 1 {
      assert s.skipped[0] in s.skipped && s.skipped[|s.skipped| - 1] in s.skipped;
      assert s.skipped[..1] == [s.skipped[0]] && s.skipped[..1][..0] == [];
      assert |s.skipped| == 2 ==> s.skipped == [s.skipped[0], s.skipped[1]];
      assert EventsOf([s.skipped[0]], usbPath) == if snapPath == usbPath then [s.skipped[0]] else [];
    }
  }

  /** Non-interference. Whatever the rest of the fleet looks like, a modem's plans, events and
      new state are those of its own step, which reads only its snapshot, its prior state, its
      clock readings and the context. */
  lemma {:induction false} NonInterference(entries: seq<Entry>, j: nat, priors: map<string, ModemState>,
                                           globals: GlobalsState, ctx: Context)
    requires j < |entries| && Diag(entries, []).DistinctPaths()
    requires forall e <- entries :: e.snap.usbPath == e.usbPath
    ensures var r := PerModemCycle(entries, priors, globals, ctx);
            var s := StepModem(PriorOf(priors, entries[j].usbPath), entries[j].snap, ctx, entries[j].ticks);
            && entries[j].usbPath in r.newStates && r.newStates[entries[j].usbPath] == s.next
            && PlansOf(r.plans, entries[j].usbPath) == s.plans
            && EventsOf(r.skipped, entries[j].usbPath) == s.skipped
  {
    PerModemCycleIsPointwise(entries, priors, globals, ctx);
    FleetProjection(entries, entries[j].usbPath, priors, globals, ctx);
    OnlyOwnEntry(entries, j, priors, ctx);
  }

  function OwnPlans(entries: seq<Entry>, usbPath: string, priors: map<string, ModemState>,
                    ctx: Context): seq<PlannedAction> {
    if entries == [] then []
    else
      var last := entries[|entries| - 1];
      OwnPlans(entries[..|entries| - 1], usbPath, priors, ctx)
      + (if last.usbPath == usbPath then StepEntry(last, priors, ctx).plans else [])
  }

  function OwnEvents(entries: seq<Entry>, usbPath: string, priors: map<string, ModemState>,
                     ctx: Context): seq<ActionSkipped> {
    if entries == [] then []
    else
      var last := entries[|entries| - 1];
      OwnEvents(entries[..|entries| - 1], usbPath, priors, ctx)
      + (if last.usbPath == usbPath then StepEntry(last, priors, ctx).skipped else [])
  }

  lemma {:induction false} FleetProjection(entries: seq<Entry>, usbPath: string, priors: map<string, ModemState>,
                                           globals: GlobalsState, ctx: Context)
    requires forall e <- entries :: e.snap.usbPath == e.usbPath
    ensures var r := PerModemCycle(entries, priors, globals, ctx);
            && PlansOf(r.plans, usbPath) == OwnPlans(entries, usbPath, priors, ctx)
            && EventsOf(r.skipped, usbPath) == OwnEvents(entries, usbPath, priors, ctx)
  {
    if entries != [] {
      var n := |entries| - 1;
      var init, e := PerModemCycle(entries[..n], priors, globals, ctx), entries[n];
      FleetProjection(entries[..n], usbPath, priors, globals, ctx);
      var s := StepEntry(e, priors, ctx);
      PlanEventAndBumpAgree(PriorOf(priors, e.usbPath), e.snap, ctx, e.ticks);
      assert e in entries;
      PlansOfAppend(init.plans, s.plans, usbPath);
      EventsOfAppend(init.skipped, s.skipped, usbPath);
      OwnOrForeign(s, e.snap.usbPath, usbPath);
    }
  }

  lemma {:induction false} OnlyOwnEntry(entries: seq<Entry>, j: nat, priors: map<string, ModemState>, ctx: Context)
    requires j < |entries| && Diag(entries, []).DistinctPaths()
    ensures OwnPlans(entries, entries[j].usbPath, priors, ctx) == StepEntry(entries[j], priors, ctx).plans
    ensures OwnEvents(entries, entries[j].usbPath, priors, ctx) == StepEntry(entries[j], priors, ctx).skipped
  {
    hide StepEntry;
    var n := |entries| - 1;
    if j < n {
      OnlyOwnEntry(entries[..n], j, priors, ctx);
    } else {
      NoOwnEntry(entries[..n], entries[j].usbPath, priors, ctx);
    }
  }

  lemma {:induction false} NoOwnEntry(entries: seq<Entry>, usbPath: string, priors: map<string, ModemState>,
                                      ctx: Context)
    requires forall i | 0 <= i < |entries| :: entries[i].usbPath != usbPath
    ensures OwnPlans(entries, usbPath, priors, ctx) == [] && OwnEvents(entries, usbPath, priors, ctx) == []
  {
    if entries != [] {
      NoOwnEntry(entries[..|entries| - 1], usbPath, priors, ctx);
    }
  }
}
