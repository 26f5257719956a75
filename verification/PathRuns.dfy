/** Unbounded runs as the stored record of one USB path goes through them: what budgets, spacing,
    escalation and decay hold however the cycles, SIM swaps, driver resets and absences are mixed.
    A cycle of which the record was not saved is an absence here, or a bare reset; `DaemonRuns`
    adds what was started in it. */
module PathRuns {
  import opened Wire
  import opened DecisionTable
  import opened Ladder
  import opened Transitions
  import opened Gates
  import opened Engine
  import opened EngineLaws

  /** What one daemon cycle does to the record of one path. `ResetOnly` is a cycle of which only
      the SIM-swap reset was saved. `swapped` says that that stage reset the stored record before
      the engine ran; `driverReset` that the engine short-circuited;
      `persistAt` is the clock reading the driver stamps on a record whose action it ran. */
  datatype PathCycle =
    | Absent
    | ResetOnly
    | Seen(snap: ModemSnapshot, ticks: Ticks, ctx: Context, swapped: bool, driverReset: bool, persistAt: real)

  datatype Exec = Exec(kind: ActionKind, at: real)

  function AfterSwap(s: ModemState, swapped: bool): ModemState {
    if swapped then s.(healthyStreak := 0, counters := map[]) else s
  }

  datatype PathOutcome = PathOutcome(next: ModemState, ran: Option<ActionKind>)

  function PathStep(s: ModemState, c: PathCycle): PathOutcome {
    match c
    case Absent => PathOutcome(s, None)
    case ResetOnly => PathOutcome(AfterSwap(s, true), None)
    case Seen(snap, ticks, ctx, swapped, driverReset, persistAt) =>
      var base := AfterSwap(s, swapped);
      if driverReset then PathOutcome(Transition(base, snap, ctx.cfg), None)
      else
        var step := StepModem(base, snap, ctx, ticks);
        PathOutcome(if step.bump.Some? then step.next.(lastAction := Some(persistAt)) else step.next, step.bump)
  }

  function EndState(s: ModemState, cs: seq<PathCycle>): ModemState {
    if cs == [] then s else PathStep(EndState(s, cs[..|cs| - 1]), cs[|cs| - 1]).next
  }

  /** The actions run on the path, in order, each with the timestamp recorded for it. */
  function Execs(s: ModemState, cs: seq<PathCycle>): seq<Exec> {
    if cs == [] then []
    else
      var c := cs[|cs| - 1];
      var ran := PathStep(EndState(s, cs[..|cs| - 1]), c).ran;
      Execs(s, cs[..|cs| - 1]) + (if c.Seen? && ran.Some? then [Exec(ran.value, c.ticks.bump)] else [])
  }

  /** Fixed settings, and clock readings taken in order within a cycle. */
  ghost predicate WellTimed(cs: seq<PathCycle>, cfg: Settings) {
    cfg.Valid() && forall i | 0 <= i < |cs| && cs[i].Seen? :: cs[i].ctx.cfg == cfg && cs[i].ticks.Ordered()
  }

  /** The cycle resets the record for a swapped SIM. */
  predicate SwapHandled(c: PathCycle) {
    c.ResetOnly? || (c.Seen? && c.swapped)
  }

  /** The cycle is one on the engine's per-modem path. */
  predicate PerModem(c: PathCycle) {
    c.Seen? && !c.driverReset
  }

  predicate HealthyStep(s: ModemState, c: PathCycle) {
    PerModem(c) && PathStep(s, c).next.state == Healthy
  }

  predicate DecayStep(s: ModemState, c: PathCycle) {
    HealthyStep(s, c) && AfterSwap(s, c.swapped).healthyStreak + 1 >= c.ctx.cfg.decayK
  }

  /** The counters are cleared in this cycle, by decay or by a SIM swap. */
  predicate Clears(s: ModemState, c: PathCycle) {
    SwapHandled(c) || DecayStep(s, c)
  }

  /** One cycle, without its internals. */
  lemma PathStepLaw(s: ModemState, c: PathCycle, cfg: Settings)
    requires cfg.Valid() && (c.Seen? ==> c.ctx.cfg == cfg)
    ensures var o := PathStep(s, c);
            && (!PerModem(c) ==> o.ran.None?)
            && (forall k :: Count(o.next.counters, k) ==
                            (if Clears(s, c) then 0 else Count(s.counters, k)) + (if o.ran == Some(k) then 1 else 0))
            && (o.ran.None? ==> o.next.counters == if Clears(s, c) then map[] else s.counters)
            && (forall k :: Stamp(o.next, k) == if o.ran == Some(k) then Some(c.ticks.bump) else Stamp(s, k))
            && (HealthyStep(s, c) ==> PerModem(c) && o.ran.None?)
            && o.next.healthyStreak ==
               (if c.Absent? then s.healthyStreak
                else if c.ResetOnly? then 0
                else if c.driverReset then AfterSwap(s, c.swapped).healthyStreak
                else if !HealthyStep(s, c) || DecayStep(s, c) then 0
                else AfterSwap(s, c.swapped).healthyStreak + 1)
  {
    hide StepModem, Transition;
    if PerModem(c) {
      StepWritesOneAtomicRecord(AfterSwap(s, c.swapped), c.snap, c.ctx, c.ticks);
    } else if c.Seen? {
      TransitionLaw(AfterSwap(s, c.swapped), c.snap, cfg);
    }
  }

  /** What an executed action says about the record it was decided on. */
  lemma ExecutionLaw(s: ModemState, c: PathCycle, cfg: Settings)
    requires cfg.Valid() && PerModem(c) && c.ctx.cfg == cfg && PathStep(s, c).ran.Some?
    ensures var k := PathStep(s, c).ran.value;
            && (Stamp(s, k).Some? ==> c.ticks.same - Stamp(s, k).value >= cfg.backoffSeconds as real)
            && (Destructive(k) ==> forall d | Destructive(d) && Stamp(s, d).Some? ::
                  c.ticks.ladder - Stamp(s, d).value >= cfg.ladderMinIntervalSeconds as real)
            && (OnLadder(k) ==> (if Clears(s, c) then 0 else Count(s.counters, k)) < Ceiling(cfg, k))
            && (OnLadder(k) ==>
                  exists issue | SelectTopPriorityIssue(c.snap.issues) == Some(issue) ::
                    && LookupAction(issue.category, issue.detail).Act?
                    && OnLadder(LookupAction(issue.category, issue.detail).kind)
                    && SelectRung(LookupAction(issue.category, issue.detail).kind,
                                  if Clears(s, c) then map[] else s.counters, cfg) == Run(k))
  {
    hide PathStep, Clears, Transition, StepModem, Decide, SelectRung;
    var base := AfterSwap(s, c.swapped);
    var moved := Transition(base, c.snap, cfg);
    TransitionLaw(base, c.snap, cfg);
    AttemptBehindExecution(s, c, cfg);
    var counters := if Clears(s, c) then map[] else s.counters;
    var d := Decide(c.snap, counters, cfg);
    DecideLaw(c.snap, counters, cfg);
    if OnLadder(d.base) {
      SelectRungFindsFirstOpenRung(d.base, counters, cfg);
    } else {
      OffLadderPassesThrough(d.base, counters, cfg);
    }
  }

  lemma OffLadderPassesThrough(base: ActionKind, counters: map<ActionKind, int>, cfg: Settings)
    requires !OnLadder(base)
    ensures SelectRung(base, counters, cfg) == Run(base)
  {
  }

  lemma DecideLaw(snap: ModemSnapshot, counters: map<ActionKind, int>, cfg: Settings)
    ensures var d := Decide(snap, counters, cfg);
            d.Attempt? ==>
              && SelectTopPriorityIssue(snap.issues) == Some(d.issue)
              && LookupAction(d.issue.category, d.issue.detail) == Act(d.base)
              && SelectRung(d.base, counters, cfg) == Run(d.kind)
  {
  }

  lemma AttemptBehindExecution(s: ModemState, c: PathCycle, cfg: Settings)
    requires cfg.Valid() && PerModem(c) && c.ctx.cfg == cfg && PathStep(s, c).ran.Some?
    ensures var d := Decide(c.snap, if Clears(s, c) then map[] else s.counters, cfg);
            && d.Attempt? && PathStep(s, c).ran == Some(d.kind)
            && MayExecute(d.kind, Transition(AfterSwap(s, c.swapped), c.snap, cfg), c.ctx, c.ticks)
  {
    hide Decide, MayExecute, Transition, StepModem;
    var base := AfterSwap(s, c.swapped);
    PlanEventAndBumpAgree(base, c.snap, c.ctx, c.ticks);
    StepWritesOneAtomicRecord(base, c.snap, c.ctx, c.ticks);
    assert (if Decays(base, c.snap, cfg) then map[] else base.counters) ==
           if Clears(s, c) then map[] else s.counters;
  }

  // ---------------------------------------------------------------- spacing

  ghost predicate Spaced(log: seq<Exec>, cfg: Settings) {
    forall i, j | 0 <= i < j < |log| ::
      && (log[i].kind == log[j].kind ==> log[j].at - log[i].at >= cfg.backoffSeconds as real)
      && (Destructive(log[i].kind) && Destructive(log[j].kind) ==>
            log[j].at - log[i].at >= cfg.ladderMinIntervalSeconds as real)
  }

  /** The record remembers, per kind, a time no earlier than any logged execution of it. */
  ghost predicate Remembered(log: seq<Exec>, s: ModemState) {
    forall i | 0 <= i < |log| :: Stamp(s, log[i].kind).Some? && Stamp(s, log[i].kind).value >= log[i].at
  }

  /** Action spacing over every run, in engine stamps, through decays, SIM swaps and absences: two
      executions of one kind are a backoff apart, two destructive ones the ladder interval apart. */
  lemma {:induction false} ExecutionsAreSpaced(s: ModemState, cs: seq<PathCycle>, cfg: Settings)
    requires WellTimed(cs, cfg)
    ensures Spaced(Execs(s, cs), cfg) && Remembered(Execs(s, cs), EndState(s, cs))
  {
    hide PathStep, Clears;
    if cs != [] {
      var n := |cs| - 1;
      ExecutionsAreSpaced(s, cs[..n], cfg);
      LogStep(s, cs, cfg);
      var before := EndState(s, cs[..n]);
      PathStepLaw(before, cs[n], cfg);
      if PathStep(before, cs[n]).ran.Some? {
        ExecutionLaw(before, cs[n], cfg);
        AppendSpaced(Execs(s, cs[..n]), before, EndState(s, cs), PathStep(before, cs[n]).ran.value, cs[n].ticks, cfg);
      }
    }
  }

  /** A log stays spaced when the new execution keeps its distance from every remembered stamp. */
  lemma AppendSpaced(log: seq<Exec>, before: ModemState, after: ModemState, k: ActionKind, t: Ticks, cfg: Settings)
    requires cfg.Valid() && t.Ordered() && Spaced(log, cfg) && Remembered(log, before)
    requires Stamp(before, k).Some? ==> t.same - Stamp(before, k).value >= cfg.backoffSeconds as real
    requires Destructive(k) ==> forall d | Destructive(d) && Stamp(before, d).Some? ::
               t.ladder - Stamp(before, d).value >= cfg.ladderMinIntervalSeconds as real
    requires forall d :: Stamp(after, d) == if d == k then Some(t.bump) else Stamp(before, d)
    ensures Spaced(log + [Exec(k, t.bump)], cfg) && Remembered(log + [Exec(k, t.bump)], after)
  {
  }

  // ---------------------------------------------------------------- conservation and budget

  function Times(log: seq<Exec>, k: ActionKind): nat {
    if log == [] then 0 else Times(log[..|log| - 1], k) + (if log[|log| - 1].kind == k then 1 else 0)
  }

  function LadderRuns(log: seq<Exec>): nat {
    Times(log, SoftReset) + Times(log, ModemReset) + Times(log, UsbReset)
  }

  function LadderSum(counters: map<ActionKind, int>): int {
    Count(counters, SoftReset) + Count(counters, ModemReset) + Count(counters, UsbReset)
  }

  function Budget(cfg: Settings): int {
    cfg.maxSoft + cfg.maxModem + cfg.maxUsb
  }

  /** No cycle of the run clears the counters. */
  predicate NoClears(s: ModemState, cs: seq<PathCycle>) {
    cs == [] || (NoClears(s, cs[..|cs| - 1]) && !Clears(EndState(s, cs[..|cs| - 1]), cs[|cs| - 1]))
  }

  lemma TimesOne(log: seq<Exec>, e: Exec, k: ActionKind)
    ensures Times(log + [e], k) == Times(log, k) + (if e.kind == k then 1 else 0)
  {
    assert (log + [e])[..|log|] == log;
  }

  /** How the log grows in one cycle. */
  lemma LogStep(s: ModemState, cs: seq<PathCycle>, cfg: Settings)
    requires WellTimed(cs, cfg) && cs != []
    ensures var n := |cs| - 1;
            var o := PathStep(EndState(s, cs[..n]), cs[n]);
            && EndState(s, cs) == o.next
            && (o.ran.Some? ==> cs[n].Seen?)
            && (o.ran.None? ==> Execs(s, cs) == Execs(s, cs[..n]))
            && (o.ran.Some? ==> Execs(s, cs) == Execs(s, cs[..n]) + [Exec(o.ran.value, cs[n].ticks.bump)])
  {
    hide PathStep, Clears, HealthyStep, DecayStep;
    var n := |cs| - 1;
    PathStepLaw(EndState(s, cs[..n]), cs[n], cfg);
  }

  lemma TimesStep(s: ModemState, cs: seq<PathCycle>, cfg: Settings, k: ActionKind)
    requires WellTimed(cs, cfg) && cs != []
    ensures var o := PathStep(EndState(s, cs[..|cs| - 1]), cs[|cs| - 1]);
            Times(Execs(s, cs), k) == Times(Execs(s, cs[..|cs| - 1]), k) + (if o.ran == Some(k) then 1 else 0)
  {
    hide PathStep, Execs;
    var n := |cs| - 1;
    LogStep(s, cs, cfg);
    var o := PathStep(EndState(s, cs[..n]), cs[n]);
    if o.ran.Some? {
      TimesOne(Execs(s, cs[..n]), Exec(o.ran.value, cs[n].ticks.bump), k);
    }
  }

  /** Counters count executions: between clears, each counter grows by exactly the number of
      executions of its kind. */
  lemma {:induction false} CountersCountExecutions(s: ModemState, cs: seq<PathCycle>, cfg: Settings, k: ActionKind)
    requires WellTimed(cs, cfg) && NoClears(s, cs)
    ensures Count(EndState(s, cs).counters, k) == Count(s.counters, k) + Times(Execs(s, cs), k)
  {
    hide PathStep, Clears;
    if cs != [] {
      var n := |cs| - 1;
      CountersCountExecutions(s, cs[..n], cfg, k);
      TimesStep(s, cs, cfg, k);
      PathStepLaw(EndState(s, cs[..n]), cs[n], cfg);
    }
  }

  /** No ladder counter ever exceeds its ceiling, in any run. */
  lemma {:induction false} CeilingsHold(s: ModemState, cs: seq<PathCycle>, cfg: Settings)
    requires WellTimed(cs, cfg) && WithinCeilings(s.counters, cfg)
    ensures WithinCeilings(EndState(s, cs).counters, cfg)
  {
    hide PathStep, Clears;
    if cs != [] {
      var n := |cs| - 1;
      CeilingsHold(s, cs[..n], cfg);
      var before := EndState(s, cs[..n]);
      PathStepLaw(before, cs[n], cfg);
      if PathStep(before, cs[n]).ran.Some? {
        ExecutionLaw(before, cs[n], cfg);
      }
    }
  }

  /** Between two clears at most maxSoft + maxModem + maxUsb ladder resets run on a modem. */
  lemma LadderBudget(s: ModemState, cs: seq<PathCycle>, cfg: Settings)
    requires WellTimed(cs, cfg) && NoClears(s, cs) && WithinCeilings(s.counters, cfg)
    ensures LadderRuns(Execs(s, cs)) <= Budget(cfg) - LadderSum(s.counters)
  {
    CeilingsHold(s, cs, cfg);
    CountersCountExecutions(s, cs, cfg, SoftReset);
    CountersCountExecutions(s, cs, cfg, ModemReset);
    CountersCountExecutions(s, cs, cfg, UsbReset);
    assert OnLadder(SoftReset) && OnLadder(ModemReset) && OnLadder(UsbReset);
  }

  function HealthyCycles(s: ModemState, cs: seq<PathCycle>): nat {
    if cs == [] then 0
    else HealthyCycles(s, cs[..|cs| - 1]) + (if HealthyStep(EndState(s, cs[..|cs| - 1]), cs[|cs| - 1]) then 1 else 0)
  }

  function Decayings(s: ModemState, cs: seq<PathCycle>): nat {
    if cs == [] then 0
    else Decayings(s, cs[..|cs| - 1]) + (if DecayStep(EndState(s, cs[..|cs| - 1]), cs[|cs| - 1]) then 1 else 0)
  }

  function Swaps(cs: seq<PathCycle>): nat {
    if cs == [] then 0
    else Swaps(cs[..|cs| - 1]) + (if SwapHandled(cs[|cs| - 1]) then 1 else 0)
  }

  /** Each decay is paid for by K healthy cycles. */
  lemma {:induction false} DecaysCostHealthyCycles(s: ModemState, cs: seq<PathCycle>, cfg: Settings)
    requires WellTimed(cs, cfg) && s.healthyStreak >= 0
    ensures EndState(s, cs).healthyStreak >= 0
    ensures cfg.decayK * Decayings(s, cs) + EndState(s, cs).healthyStreak <= HealthyCycles(s, cs) + s.healthyStreak
  {
    hide PathStep, HealthyStep, Clears;
    if cs != [] {
      var n := |cs| - 1;
      DecaysCostHealthyCycles(s, cs[..n], cfg);
      var before := EndState(s, cs[..n]);
      PathStepLaw(before, cs[n], cfg);
      var d := Decayings(s, cs[..n]);
      assert cfg.decayK * (d + 1) == cfg.decayK * d + cfg.decayK;
    }
  }

  ghost predicate NoneNegative(counters: map<ActionKind, int>) {
    forall k :: Count(counters, k) >= 0
  }

  function RunsOne(ran: Option<ActionKind>): nat {
    if ran.Some? && OnLadder(ran.value) then 1 else 0
  }

  lemma LadderRunsStep(s: ModemState, cs: seq<PathCycle>, cfg: Settings)
    requires WellTimed(cs, cfg) && cs != []
    ensures LadderRuns(Execs(s, cs)) ==
            LadderRuns(Execs(s, cs[..|cs| - 1]))
            + RunsOne(PathStep(EndState(s, cs[..|cs| - 1]), cs[|cs| - 1]).ran)
  {
    hide PathStep, Execs, EndState, Times;
    TimesStep(s, cs, cfg, SoftReset);
    TimesStep(s, cs, cfg, ModemReset);
    TimesStep(s, cs, cfg, UsbReset);
  }

  lemma LadderSumStep(a: map<ActionKind, int>, b: map<ActionKind, int>, clears: bool, ran: Option<ActionKind>,
                      cfg: Settings)
    requires NoneNegative(a) && WithinCeilings(a, cfg)
    requires forall k :: Count(b, k) == (if clears then 0 else Count(a, k)) + (if ran == Some(k) then 1 else 0)
    ensures NoneNegative(b) && 0 <= LadderSum(a) <= Budget(cfg)
    ensures LadderSum(b) == (if clears then 0 else LadderSum(a)) + RunsOne(ran)
  {
    assert OnLadder(SoftReset) && OnLadder(ModemReset) && OnLadder(UsbReset);
  }

  lemma {:induction false} RunsPaidByClears(s: ModemState, cs: seq<PathCycle>, cfg: Settings)
    requires WellTimed(cs, cfg) && WithinCeilings(s.counters, cfg) && NoneNegative(s.counters)
    ensures NoneNegative(EndState(s, cs).counters)
    ensures LadderRuns(Execs(s, cs)) <=
            LadderSum(EndState(s, cs).counters) + Budget(cfg) * (Decayings(s, cs) + Swaps(cs))
  {
    hide PathStep, HealthyStep, DecayStep, LadderRuns, WithinCeilings, LadderSum, Budget, Execs, NoneNegative;
    if cs == [] {
      NothingPaidYet(s);
    } else {
      var n := |cs| - 1;
      RunsPaidByClears(s, cs[..n], cfg);
      CeilingsHold(s, cs[..n], cfg);
      LadderRunsStep(s, cs, cfg);
      var before := EndState(s, cs[..n]);
      PathStepLaw(before, cs[n], cfg);
      var o := PathStep(before, cs[n]);
      LadderSumStep(before.counters, o.next.counters, Clears(before, cs[n]), o.ran, cfg);
      BudgetIsPositive(cfg);
      var b, d, w := Budget(cfg), Decayings(s, cs[..n]), Swaps(cs[..n]);
      assert b * (d + w + 1) == b * (d + w) + b;
      assert b * (d + w + 2) == b * (d + w) + 2 * b;
    }
  }

  lemma BudgetIsPositive(cfg: Settings)
    requires cfg.Valid()
    ensures Budget(cfg) >= 0
  {
  }

  lemma NothingPaidYet(s: ModemState)
    requires NoneNegative(s.counters)
    ensures LadderRuns(Execs(s, [])) <= LadderSum(s.counters)
  {
  }

  /** Over any run at all, K times the number of ladder resets is at most the budget times
      K for the start and for every SIM swap, plus one for every healthy cycle: a modem that is
      never healthy and keeps its SIM is reset at most `Budget` times, ever. */
  lemma AmortisedLadderResets(s: ModemState, cs: seq<PathCycle>, cfg: Settings)
    requires WellTimed(cs, cfg) && WithinCeilings(s.counters, cfg)
    requires s.Valid()
    ensures cfg.decayK * LadderRuns(Execs(s, cs)) <=
            Budget(cfg) * (cfg.decayK * (1 + Swaps(cs)) + HealthyCycles(s, cs) + s.healthyStreak)
  {
    hide PathStep, EndState, Execs, HealthyCycles, Decayings, Swaps, Times;
    assert NoneNegative(s.counters);
    RunsPaidByClears(s, cs, cfg);
    DecaysCostHealthyCycles(s, cs, cfg);
    CeilingsHold(s, cs, cfg);
    assert OnLadder(SoftReset) && OnLadder(ModemReset) && OnLadder(UsbReset);
    AmortisedArithmetic(LadderRuns(Execs(s, cs)), Budget(cfg), Decayings(s, cs), Swaps(cs), cfg.decayK,
                        HealthyCycles(s, cs) + s.healthyStreak);
  }

  lemma AmortisedArithmetic(runs: int, b: int, d: int, w: int, k: int, h: int)
    requires runs <= b + b * (d + w) && k * d <= h && b >= 0 && k >= 1
    ensures k * runs <= b * (k * (1 + w) + h)
  {
    assert b + b * (d + w) == b * (1 + d + w);
    assert k * runs <= k * (b * (1 + d + w)) by { MulLe(runs, b * (1 + d + w), k); }
    assert k * (b * (1 + d + w)) == b * (k * (1 + d + w));
    assert k * (1 + d + w) == k * (1 + w) + k * d;
    MulLe(k * (1 + d + w), k * (1 + w) + h, b);
  }

  lemma MulLe(x: int, y: int, z: int)
    requires x <= y && z >= 0
    ensures z * x <= z * y
  {
  }

  // ---------------------------------------------------------------- escalation

  /** Executed ladder resets whose rung is at index `i` or above. */
  function RunsFrom(i: nat, log: seq<Exec>): nat {
    (if i == 0 then Times(log, SoftReset) else 0)
    + (if i <= 1 then Times(log, ModemReset) else 0)
    + (if i <= 2 then Times(log, UsbReset) else 0)
  }

  /** Whether running this, if anything, uses headroom counted from rung `i`. */
  predicate UsesHeadroom(i: nat, ran: Option<ActionKind>) {
    ran.Some? && OnLadder(ran.value) && i <= RungIndex(ran.value)
  }

  lemma RunsFromStep(s: ModemState, cs: seq<PathCycle>, cfg: Settings, i: nat)
    requires WellTimed(cs, cfg) && cs != []
    ensures var o := PathStep(EndState(s, cs[..|cs| - 1]), cs[|cs| - 1]);
            RunsFrom(i, Execs(s, cs)) ==
            RunsFrom(i, Execs(s, cs[..|cs| - 1])) + (if UsesHeadroom(i, o.ran) then 1 else 0)
  {
    hide PathStep, Execs, EndState, Times;
    TimesStep(s, cs, cfg, SoftReset);
    TimesStep(s, cs, cfg, ModemReset);
    TimesStep(s, cs, cfg, UsbReset);
  }

  lemma HeadroomStep(i: nat, a: map<ActionKind, int>, b: map<ActionKind, int>, ran: Option<ActionKind>, cfg: Settings)
    requires i <= 3 && forall k :: Count(b, k) == Count(a, k) + (if ran == Some(k) then 1 else 0)
    requires ran.Some? && OnLadder(ran.value) ==> Count(a, ran.value) < Ceiling(cfg, ran.value)
    ensures Headroom(i, b, cfg) == Headroom(i, a, cfg) - (if UsesHeadroom(i, ran) then 1 else 0)
  {
    hide Headroom;
    if ran.None? {
      SameCountsSameHeadroom(i, a, b, cfg);
    } else {
      var k := ran.value;
      SameCountsSameHeadroom(i, b, a[k := Count(a, k) + 1], cfg);
      if OnLadder(k) {
        BumpUsesOneHeadroom(i, k, a, cfg);
      } else {
        HeadroomFrame(i, k, Count(a, k) + 1, a, cfg);
      }
    }
  }

  /** From the given base, each ladder run at or above it uses exactly one unit of headroom. */
  lemma {:induction false} HeadroomCountsDown(s: ModemState, cs: seq<PathCycle>, cfg: Settings, i: nat)
    requires WellTimed(cs, cfg) && NoClears(s, cs) && i <= 3
    ensures Headroom(i, EndState(s, cs).counters, cfg) ==
            Headroom(i, s.counters, cfg) - RunsFrom(i, Execs(s, cs))
  {
    hide PathStep, Clears, Headroom, RunsFrom, OnLadder, UsesHeadroom, Execs;
    if cs == [] {
      NothingRunYet(s, i);
    } else {
      var n := |cs| - 1;
      HeadroomCountsDown(s, cs[..n], cfg, i);
      var before := EndState(s, cs[..n]);
      RunsFromStep(s, cs, cfg, i);
      PathStepLaw(before, cs[n], cfg);
      var o := PathStep(before, cs[n]);
      if o.ran.Some? {
        ExecutionLaw(before, cs[n], cfg);
      }
      HeadroomStep(i, before.counters, o.next.counters, o.ran, cfg);
    }
  }

  lemma NothingRunYet(s: ModemState, i: nat)
    ensures RunsFrom(i, Execs(s, [])) == 0
  {
  }

  lemma {:induction false} SameCountsSameHeadroom(i: nat, a: map<ActionKind, int>, b: map<ActionKind, int>,
                                                  cfg: Settings)
    requires i <= 3 && forall k :: Count(a, k) == Count(b, k)
    ensures Headroom(i, a, cfg) == Headroom(i, b, cfg)
    decreases 3 - i
  {
    if i < 3 {
      SameCountsSameHeadroom(i + 1, a, b, cfg);
    }
  }

  /** Between clears, for a fixed base, a later choice is never on a lower rung than an earlier
      one, and the ladder is exhausted exactly when the base's headroom has all been run. */
  lemma EscalationProgress(s: ModemState, cs: seq<PathCycle>, cfg: Settings, base: ActionKind)
    requires WellTimed(cs, cfg) && NoClears(s, cs) && OnLadder(base)
    ensures var first, last := SelectRung(base, s.counters, cfg), SelectRung(base, EndState(s, cs).counters, cfg);
            && (first.LadderExhausted? ==> last.LadderExhausted?)
            && (first.Run? && last.Run? ==>
                  OnLadder(first.kind) && OnLadder(last.kind) && RungIndex(first.kind) <= RungIndex(last.kind))
            && (last.LadderExhausted? <==>
                  RunsFrom(RungIndex(base), Execs(s, cs)) == Headroom(RungIndex(base), s.counters, cfg))
  {
    forall k ensures Count(s.counters, k) <= Count(EndState(s, cs).counters, k) {
      CountersCountExecutions(s, cs, cfg, k);
    }
    SelectRungNeverStepsDown(base, s.counters, EndState(s, cs).counters, cfg);
    SelectRungFindsFirstOpenRung(base, EndState(s, cs).counters, cfg);
    HeadroomCountsDown(s, cs, cfg, RungIndex(base));
  }

  function Repeat(k: ActionKind, n: int): (r: seq<ActionKind>)
    ensures |r| == if n > 0 then n else 0
    ensures forall i | 0 <= i < |r| :: r[i] == k
  {
    if n <= 0 then [] else Repeat(k, n - 1) + [k]
  }

  /** The full escalation. */
  function Escalation(cfg: Settings): seq<ActionKind> {
    Repeat(SoftReset, cfg.maxSoft) + Repeat(ModemReset, cfg.maxModem) + Repeat(UsbReset, cfg.maxUsb)
  }

  function LadderKinds(log: seq<Exec>): seq<ActionKind> {
    if log == [] then []
    else LadderKinds(log[..|log| - 1]) + (if OnLadder(log[|log| - 1].kind) then [log[|log| - 1].kind] else [])
  }

  /** The issue acted on does not start the ladder above its bottom rung. */
  predicate SoftBasedAt(c: PathCycle) {
    PerModem(c) ==>
      match SelectTopPriorityIssue(c.snap.issues)
      case None => true
      case Some(issue) => LookupAction(issue.category, issue.detail) !in {Act(ModemReset), Act(UsbReset)}
  }

  ghost predicate SoftBased(cs: seq<PathCycle>) {
    forall i | 0 <= i < |cs| :: SoftBasedAt(cs[i])
  }

  function Clamp(n: int, hi: int): int {
    if n < 0 then 0 else if n > hi then hi else n
  }

  ghost predicate AtPosition(n: nat, counters: map<ActionKind, int>, cfg: Settings) {
    && n <= |Escalation(cfg)|
    && Count(counters, SoftReset) == Clamp(n, cfg.maxSoft)
    && Count(counters, ModemReset) == Clamp(n - cfg.maxSoft, cfg.maxModem)
    && Count(counters, UsbReset) == Clamp(n - cfg.maxSoft - cfg.maxModem, cfg.maxUsb)
  }

  lemma NextRungIsNextInEscalation(n: nat, k: ActionKind, counters: map<ActionKind, int>, cfg: Settings)
    requires cfg.Valid() && AtPosition(n, counters, cfg) && SelectRung(SoftReset, counters, cfg) == Run(k)
    ensures n < |Escalation(cfg)| && Escalation(cfg)[n] == k && OnLadder(k)
    ensures AtPosition(n + 1, counters[k := Count(counters, k) + 1], cfg)
  {
    SelectRungFindsFirstOpenRung(SoftReset, counters, cfg);
    assert forall j | 0 <= j < RungIndex(k) :: Count(counters, RUNGS[j]) >= Ceiling(cfg, RUNGS[j]);
    assert RungIndex(k) > 0 ==> Count(counters, RUNGS[0]) >= Ceiling(cfg, RUNGS[0]);
    assert RungIndex(k) > 1 ==> Count(counters, RUNGS[1]) >= Ceiling(cfg, RUNGS[1]);
  }

  /** The next ladder reset is the next one of the escalation. */
  lemma EscalationStep(kinds: seq<ActionKind>, k: ActionKind, s: ModemState, c: PathCycle, cfg: Settings)
    requires cfg.Valid() && PerModem(c) && c.ctx.cfg == cfg && SoftBasedAt(c) && !Clears(s, c)
    requires PathStep(s, c).ran == Some(k) && OnLadder(k)
    requires kinds <= Escalation(cfg) && AtPosition(|kinds|, s.counters, cfg)
    ensures kinds + [k] <= Escalation(cfg) && AtPosition(|kinds| + 1, PathStep(s, c).next.counters, cfg)
  {
    hide PathStep, Clears, SelectRung, Escalation, AtPosition, LookupAction, SelectTopPriorityIssue;
    ExecutionLaw(s, c, cfg);
    PathStepLaw(s, c, cfg);
    var issue :| SelectTopPriorityIssue(c.snap.issues) == Some(issue)
                 && LookupAction(issue.category, issue.detail).Act?
                 && OnLadder(LookupAction(issue.category, issue.detail).kind)
                 && SelectRung(LookupAction(issue.category, issue.detail).kind, s.counters, cfg) == Run(k);
    assert LookupAction(issue.category, issue.detail).kind == SoftReset;
    NextRungIsNextInEscalation(|kinds|, k, s.counters, cfg);
    PositionByCounts(|kinds| + 1, s.counters[k := Count(s.counters, k) + 1], PathStep(s, c).next.counters, cfg);
  }

  /** From empty counters, with only bottom-based issues and no clear, the ladder resets that
      run are a prefix of maxSoft soft resets, then maxModem modem resets, then maxUsb USB
      resets. */
  lemma {:induction false} EscalationIsAPrefix(s: ModemState, cs: seq<PathCycle>, cfg: Settings)
    requires WellTimed(cs, cfg) && NoClears(s, cs) && SoftBased(cs)
    requires forall k | OnLadder(k) :: Count(s.counters, k) == 0
    ensures LadderKinds(Execs(s, cs)) <= Escalation(cfg)
    ensures AtPosition(|LadderKinds(Execs(s, cs))|, EndState(s, cs).counters, cfg)
  {
    hide PathStep, Clears, Escalation, AtPosition, SoftBasedAt, Execs, LadderKinds, PerModem;
    if cs == [] {
      StartPosition(s, cfg);
    } else {
      var n := |cs| - 1;
      EscalationIsAPrefix(s, cs[..n], cfg);
      var before := EndState(s, cs[..n]);
      LogStep(s, cs, cfg);
      PathStepLaw(before, cs[n], cfg);
      var o, log := PathStep(before, cs[n]), Execs(s, cs[..n]);
      if o.ran.Some? {
        LadderKindsAppend(log, Exec(o.ran.value, cs[n].ticks.bump));
      }
      if o.ran.Some? && OnLadder(o.ran.value) {
        EscalationStep(LadderKinds(log), o.ran.value, before, cs[n], cfg);
      } else {
        PositionByCounts(|LadderKinds(log)|, before.counters, o.next.counters, cfg);
        assert LadderKinds(log) + [] == LadderKinds(log);
      }
    }
  }

  lemma StartPosition(s: ModemState, cfg: Settings)
    requires cfg.Valid() && forall k | OnLadder(k) :: Count(s.counters, k) == 0
    ensures LadderKinds(Execs(s, [])) == [] && AtPosition(0, s.counters, cfg)
  {
    assert OnLadder(SoftReset) && OnLadder(ModemReset) && OnLadder(UsbReset);
  }

  lemma PositionByCounts(n: nat, a: map<ActionKind, int>, b: map<ActionKind, int>, cfg: Settings)
    requires AtPosition(n, a, cfg) && forall k | OnLadder(k) :: Count(a, k) == Count(b, k)
    ensures AtPosition(n, b, cfg)
  {
    assert OnLadder(SoftReset) && OnLadder(ModemReset) && OnLadder(UsbReset);
  }

  lemma LadderKindsAppend(log: seq<Exec>, e: Exec)
    ensures LadderKinds(log + [e]) == LadderKinds(log) + (if OnLadder(e.kind) then [e.kind] else [])
  {
    assert (log + [e])[..|log|] == log;
  }

  // ---------------------------------------------------------------- decay

  /** Healthy per-modem cycles since the last non-healthy one or SIM swap; driver-reset cycles
      and absences are transparent. */
  function HealthySince(s: ModemState, cs: seq<PathCycle>): nat {
    if cs == [] then 0
    else
      var c, before := cs[|cs| - 1], EndState(s, cs[..|cs| - 1]);
      var start := if SwapHandled(c) then 0 else HealthySince(s, cs[..|cs| - 1]);
      if !PerModem(c) then start else if HealthyStep(before, c) then start + 1 else 0
  }

  lemma ModStep(n: nat, k: int)
    requires k >= 1
    ensures (n + 1) % k == if n % k + 1 >= k then 0 else n % k + 1
  {
    var q, r := n / k, n % k;
    assert n == q * k + r;
    if r + 1 >= k {
      assert n + 1 == (q + 1) * k;
      UniqueRemainder(n + 1, k, q + 1, 0);
    } else {
      assert n + 1 == q * k + (r + 1);
      UniqueRemainder(n + 1, k, q, r + 1);
    }
  }

  lemma UniqueRemainder(n: int, k: int, q: int, r: int)
    requires k >= 1 && n == q * k + r && 0 <= r < k
    ensures n % k == r
  {
    var d := n / k - q;
    assert n == (n / k) * k + n % k;
    assert (n / k) * k - q * k == d * k;
    assert r - n % k == d * k;
    assert d == 0 by {
      assert d >= 1 ==> d * k >= k;
      assert d <= -1 ==> d * k <= -k;
    }
  }

  /** Decay law: starting at streak zero, the persisted streak is the number of healthy cycles
      since the last bad one, modulo K. */
  lemma {:induction false} StreakIsHealthySinceModK(s: ModemState, cs: seq<PathCycle>, cfg: Settings)
    requires WellTimed(cs, cfg) && s.healthyStreak == 0
    ensures EndState(s, cs).healthyStreak == HealthySince(s, cs) % cfg.decayK
  {
    hide PathStep, HealthyStep, Clears;
    if cs != [] {
      var n := |cs| - 1;
      StreakIsHealthySinceModK(s, cs[..n], cfg);
      var before := EndState(s, cs[..n]);
      PathStepLaw(before, cs[n], cfg);
      ModStep(HealthySince(s, cs[..n]), cfg.decayK);
      ModStep(0, cfg.decayK);
    }
  }

  /** Every per-modem cycle of the run ends healthy. */
  predicate AllHealthy(s: ModemState, cs: seq<PathCycle>) {
    cs == [] || (var c, before := cs[|cs| - 1], EndState(s, cs[..|cs| - 1]);
                 AllHealthy(s, cs[..|cs| - 1]) && (PerModem(c) ==> HealthyStep(before, c)))
  }

  lemma {:induction false} ClearOrCounting(s: ModemState, cs: seq<PathCycle>, cfg: Settings)
    requires WellTimed(cs, cfg) && AllHealthy(s, cs) && 0 <= s.healthyStreak < cfg.decayK
    ensures 0 <= EndState(s, cs).healthyStreak < cfg.decayK
    ensures EndState(s, cs).counters == map[] || EndState(s, cs).healthyStreak >= HealthyCycles(s, cs)
  {
    hide PathStep, HealthyStep;
    if cs != [] {
      var n := |cs| - 1;
      ClearOrCounting(s, cs[..n], cfg);
      PathStepLaw(EndState(s, cs[..n]), cs[n], cfg);
    }
  }

  /** From any record with its streak below K, K healthy cycles with no bad one between them,
      driver resets, swaps and absences allowed anywhere, leave the counters empty. */
  lemma KHealthyCyclesClear(s: ModemState, cs: seq<PathCycle>, cfg: Settings)
    requires WellTimed(cs, cfg) && AllHealthy(s, cs) && 0 <= s.healthyStreak < cfg.decayK
    requires HealthyCycles(s, cs) >= cfg.decayK
    ensures EndState(s, cs).counters == map[]
  {
    ClearOrCounting(s, cs, cfg);
  }

  /** The promise that a bad cycle restarts the count holds exactly outside driver resets: a
      modem that ends a cycle in another state than healthy has streak zero if and only if the
      cycle took the per-modem path, or there was nothing to carry over. */
  lemma BadCycleRestartsCountUnlessDriverReset(s: ModemState, c: PathCycle, cfg: Settings)
    requires cfg.Valid() && c.Seen? && c.ctx.cfg == cfg && PathStep(s, c).next.state != Healthy
    ensures PathStep(s, c).next.healthyStreak == 0 <==>
            !c.driverReset || c.swapped || s.healthyStreak == 0
  {
    PathStepLaw(s, c, cfg);
  }

  /** A concrete cycle in which it fails: the engine short-circuits on a healthy modem with
      streak one whose channel hangs; the modem degrades and the streak is still one. */
  lemma DriverResetCarriesStreakThroughDegradation()
    ensures exists s: ModemState, c: PathCycle :: c.Seen? && c.ctx.cfg.Valid() && c.driverReset
              && GlobalDriverResetEligible(Diag([Entry(c.snap.usbPath, c.snap, c.ticks)], []), GlobalsState(0, None),
                                           c.ctx)
              && PathStep(s, c).next.state == Degraded && PathStep(s, c).next.healthyStreak == 1
  {
    hide GlobalDriverResetEligible;
    var cfg := Settings(300, 90, 10, 0.75, 3600, -110, -15.0, 0.0, 3, 2, 1, false);
    var hung := ModemSnapshot("2-3.1.1", "cdc-wdm0", None, None, Signal(Some(-90), Some(-10.0), Some(5.0)),
                              [Issue(Qmi, QmiChannelHung)]);
    var s := FreshState().(state := Healthy, healthyStreak := 1);
    var c := Seen(hung, Ticks(0.0, 0.0, 0.0), Context(cfg, false, 1, 0.0, 0.0), false, true, 0.0);
    HungAloneIsEligible(Entry(hung.usbPath, hung, c.ticks), c.ctx);
    assert PathStep(s, c).next.state == Degraded && PathStep(s, c).next.healthyStreak == 1;
  }

  /** A hung modem with good signal that is the whole fleet makes the host reset eligible. */
  lemma HungAloneIsEligible(e: Entry, ctx: Context)
    requires e.snap.issues == [Issue(Qmi, QmiChannelHung)] && ctx.cfg.Valid() && ctx.expectedModemCount == 1
    requires ClearsFloors(e.snap.signal, ctx.cfg)
    ensures GlobalDriverResetEligible(Diag([e], []), GlobalsState(0, None), ctx)
  {
    assert e.snap.issues[0] in e.snap.issues && Hung(e.snap);
    assert HungCount([e][1..]) == 0 && HungCount([e]) == 1;
    assert e in [e];
  }

  // ---------------------------------------------------------------- reachable states

  /** Every record of a run from a valid one passes the validators, with its streak below K. */
  lemma {:induction false} RecordsStayValid(s: ModemState, cs: seq<PathCycle>, cfg: Settings)
    requires WellTimed(cs, cfg) && s.Valid() && s.healthyStreak < cfg.decayK
    ensures EndState(s, cs).Valid() && EndState(s, cs).healthyStreak < cfg.decayK
  {
    hide StepModem, Transition;
    if cs != [] {
      var n := |cs| - 1;
      RecordsStayValid(s, cs[..n], cfg);
      var c := cs[n];
      if c.Seen? {
        var base := AfterSwap(EndState(s, cs[..n]), c.swapped);
        TransitionLaw(base, c.snap, cfg);
        StepKeepsValid(base, c.snap, c.ctx, c.ticks);
      }
    }
  }

  /** A run from a fresh record is in {healthy, degraded} from the first time the modem is seen,
      so `recovering` and `exhausted` are never reached. */
  lemma {:induction false} OnlyHealthyOrDegradedReached(cs: seq<PathCycle>, cfg: Settings)
    requires WellTimed(cs, cfg)
    ensures var s := EndState(FreshState(), cs).state;
            if exists i | 0 <= i < |cs| :: cs[i].Seen? then s in {Healthy, Degraded} else s == Unknown
  {
    hide StepModem, Transition;
    if cs != [] {
      var n := |cs| - 1;
      OnlyHealthyOrDegradedReached(cs[..n], cfg);
      var c := cs[n];
      if c.Seen? {
        var base := AfterSwap(EndState(FreshState(), cs[..n]), c.swapped);
        TransitionLaw(base, c.snap, cfg);
        StepWritesOneAtomicRecord(base, c.snap, c.ctx, c.ticks);
        assert cs[n].Seen?;
      } else {
        assert forall i | 0 <= i < n :: cs[..n][i] == cs[i];
      }
    }
  }
}
