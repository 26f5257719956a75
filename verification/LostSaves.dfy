/** What the driver starts in a cycle whose record is lost: it can be started again at once, so the
    backoffs hold of exactly the actions whose record was saved. */
module LostSaves {
  import opened Wire
  import opened Transitions
  import opened Engine
  import opened PathRuns
  import opened CycleDriver
  import opened DaemonRuns

  /** Run again on the same readings, the SIM-swap stage finds nothing to do. */
  lemma StageSettles(st: Store, c: CycleInput)
    requires c.WellFormed() && |c.snapshots| == |c.modems| && !c.stop.AtIdentityFile?
    ensures var ids := AfterStage(st, c).identities;
            && SwapEvents(ids, c.modems, c.snapshots) == []
            && SavedIdentities(ids, CurrentIdentities(c.modems, c.snapshots)) == ids
  {
    KnownSimsAreNoSwaps(AfterStage(st, c).identities, c);
  }

  /** A cycle that reaches the engine and loses a path's record leaves that record as the SIM-swap
      stage left it, and the globals as they were. */
  lemma LostRecord(st: Store, c: CycleInput, cfg: Settings, usbPath: string)
    requires c.WellFormed() && ReachesEngine(st, c) && IndexOf(c.modems, usbPath).Some? && !SavedAt(st, c, usbPath)
    ensures var next := NextStore(st, c, cfg);
            && View(next, usbPath) == AfterSwap(View(st, usbPath), ResetAt(st, c, usbPath))
            && next.globals == st.globals && next.identities == AfterStage(st, c).identities
  {
    hide AttemptAt, ResetAt, CycleActions, NextStore, ActionsOf, AfterStage, EngineResult, StageCompletes, View,
         Dispatch;
    CycleProjects(st, c, cfg, usbPath);
    CycleShape(st, c, cfg);
    StageKeepsGlobals(st, c);
  }

  /** What the path's machine does in the same cycle run again, nothing stopping it. */
  lemma SameAttempt(st: Store, c: CycleInput, cfg: Settings, usbPath: string, next: Store)
    requires c.WellFormed() && ReachesEngine(st, c) && IndexOf(c.modems, usbPath).Some?
    requires View(next, usbPath) == AfterSwap(View(st, usbPath), ResetAt(st, c, usbPath))
    requires next.globals == st.globals && next.identities == AfterStage(st, c).identities
    ensures var again := c.(stop := Never);
            && again.WellFormed() && ReachesEngine(next, again) && SavedAt(next, again, usbPath)
            && AttemptAt(next, again, cfg, usbPath) == AttemptAt(st, c, cfg, usbPath).(swapped := false)
            && PathStep(View(next, usbPath), AttemptAt(next, again, cfg, usbPath)).ran ==
               PathStep(View(st, usbPath), AttemptAt(st, c, cfg, usbPath)).ran
  {
    hide StepModem, Transition, GlobalDriverResetEligible, AfterStage, View, SwapEvents;
    StageSettles(st, c);
    var again := c.(stop := Never);
    assert !ResetAt(next, again, usbPath);
    assert DiagOf(again) == DiagOf(c) && ContextOf(again, cfg) == ContextOf(c, cfg);
  }

  /** An action whose record was lost is started again, with the same stamp, when the cycle is run
      again on the same readings. */
  lemma LostIsStartedAgain(st: Store, c: CycleInput, cfg: Settings, usbPath: string)
    requires cfg.Valid() && c.WellFormed() && forall j | 0 <= j < |c.ticks| :: c.ticks[j].Ordered()
    requires var ran := RanIn(st, c, cfg, usbPath); ran != [] && !ran[0].saved
    ensures var again := c.(stop := Never);
            again.WellFormed()
            && RanIn(NextStore(st, c, cfg), again, cfg, usbPath) == [RanIn(st, c, cfg, usbPath)[0].(saved := true)]
  {
    hide PathStep, NextStore, CycleActions, ActionsOf, ReachesEngine, ResetAt, View, AfterStage, ShortCircuits,
         ContextOf;
    var next, again := NextStore(st, c, cfg), c.(stop := Never);
    RanLaw(st, c, cfg, usbPath);
    CycleProjects(st, c, cfg, usbPath);
    LostRecord(st, c, cfg, usbPath);
    SameAttempt(st, c, cfg, usbPath, next);
    RanLaw(next, again, cfg, usbPath);
    CycleProjects(next, again, cfg, usbPath);
  }

  // ---------------------------------------------------------------- exactly which starts are spaced

  /** The clock readings of a cycle are taken in order. */
  ghost predicate InOrder(c: CycleInput) {
    && c.WellFormed()
    && forall j | 0 <= j < |c.ticks| :: c.ticks[j].Ordered() && c.starts[j] >= c.ticks[j].bump
  }

  /** What may follow: any such cycles, however each is cut short. */
  ghost predicate Continues(more: seq<CycleInput>) {
    WellFormedRun(more) && forall i | 0 <= i < |more| :: InOrder(more[i])
  }

  /** Every action started on the path in `more` keeps its distance from `r`. */
  ghost predicate AllKeepDistance(r: Ran, next: Store, more: seq<CycleInput>, cfg: Settings, usbPath: string)
    requires WellFormedRun(more)
  {
    forall q <- RanLog(next, more, cfg, usbPath) :: KeepsDistance(r, q, cfg)
  }

  lemma {:induction false} LaterStartsAreSpaced(r: Ran, next: Store, more: seq<CycleInput>, cfg: Settings,
                                                usbPath: string)
    requires cfg.Valid() && Continues(more)
    requires RemembersSaved([r], View(next, usbPath))
    ensures var log := [r] + RanLog(next, more, cfg, usbPath);
            SpacedFromSaved(log, cfg) && RemembersSaved(log, View(After(next, more, cfg), usbPath))
  {
    hide View, NextStore, RanIn, SpacedFromSaved, RemembersSaved;
    if more == [] {
      OneStart(r, cfg);
      assert [r] + RanLog(next, more, cfg, usbPath) == [r];
    } else {
      var n := |more| - 1;
      LaterStartsAreSpaced(r, next, more[..n], cfg, usbPath);
      var log, before := RanLog(next, more[..n], cfg, usbPath), After(next, more[..n], cfg);
      StartedStep(before, more[n], cfg, usbPath, [r] + log);
      var ran := RanIn(before, more[n], cfg, usbPath);
      assert [r] + log + ran == [r] + (log + ran);
    }
  }

  lemma OneStart(r: Ran, cfg: Settings)
    ensures SpacedFromSaved([r], cfg)
  {
  }

  lemma SavedIsRemembered(st: Store, c: CycleInput, cfg: Settings, usbPath: string)
    requires cfg.Valid() && InOrder(c)
    ensures RemembersSaved(RanIn(st, c, cfg, usbPath), View(NextStore(st, c, cfg), usbPath))
  {
    hide View, NextStore, RanIn;
    NothingStarted(View(st, usbPath), cfg);
    StartedStep(st, c, cfg, usbPath, []);
    assert [] + RanIn(st, c, cfg, usbPath) == RanIn(st, c, cfg, usbPath);
  }

  lemma SavedKeepsDistance(r: Ran, next: Store, more: seq<CycleInput>, cfg: Settings, usbPath: string)
    requires cfg.Valid() && Continues(more) && r.saved && RemembersSaved([r], View(next, usbPath))
    ensures AllKeepDistance(r, next, more, cfg, usbPath)
  {
    hide View, NextStore, RanLog, KeepsDistance, RemembersSaved;
    LaterStartsAreSpaced(r, next, more, cfg, usbPath);
    var log := RanLog(next, more, cfg, usbPath);
    forall q <- log ensures KeepsDistance(r, q, cfg) {
      var j :| 0 <= j < |log| && log[j] == q;
      assert ([r] + log)[0] == r && ([r] + log)[j + 1] == q;
    }
  }

  /** The counterexample to a lost record's spacing: the same cycle again. */
  lemma StartedAtOnce(st: Store, c: CycleInput, cfg: Settings, usbPath: string)
    requires cfg.Valid() && InOrder(c)
    requires var ran := RanIn(st, c, cfg, usbPath); ran != [] && !ran[0].saved
    ensures Continues([c.(stop := Never)])
    ensures !AllKeepDistance(RanIn(st, c, cfg, usbPath)[0], NextStore(st, c, cfg), [c.(stop := Never)], cfg, usbPath)
  {
    hide View, NextStore, RanIn;
    var again, next := c.(stop := Never), NextStore(st, c, cfg);
    LostIsStartedAgain(st, c, cfg, usbPath);
    OneCycleLog(next, again, cfg, usbPath);
    assert RanIn(next, again, cfg, usbPath)[0] in RanLog(next, [again], cfg, usbPath);
  }

  lemma OneCycleLog(st: Store, c: CycleInput, cfg: Settings, usbPath: string)
    requires c.WellFormed()
    ensures RanLog(st, [c], cfg, usbPath) == RanIn(st, c, cfg, usbPath)
  {
    hide NextStore, RanIn;
    assert [c][..0] == [];
    assert RanLog(st, [], cfg, usbPath) == [];
  }

  /** Exactly which starts the backoffs bind: whatever the fleet does and wherever later cycles are
      cut short, everything started later on the path keeps its distance from an action if and only
      if the record of that action's cycle was saved. */
  lemma SpacedExactlyWhenSaved(st: Store, c: CycleInput, cfg: Settings, usbPath: string)
    requires cfg.Valid() && InOrder(c) && RanIn(st, c, cfg, usbPath) != []
    ensures var r, next := RanIn(st, c, cfg, usbPath)[0], NextStore(st, c, cfg);
            SavedAt(st, c, usbPath) <==>
            forall more | Continues(more) :: AllKeepDistance(r, next, more, cfg, usbPath)
  {
    hide View, NextStore, AllKeepDistance, SavedAt, ActionsOf, CycleActions, RemembersSaved;
    var ran, next := RanIn(st, c, cfg, usbPath), NextStore(st, c, cfg);
    SavedIsRemembered(st, c, cfg, usbPath);
    assert ran == [ran[0]] && ran[0].saved == SavedAt(st, c, usbPath);
    if ran[0].saved {
      forall more | Continues(more) ensures AllKeepDistance(ran[0], next, more, cfg, usbPath) {
        SavedKeepsDistance(ran[0], next, more, cfg, usbPath);
      }
    } else {
      StartedAtOnce(st, c, cfg, usbPath);
    }
  }

  // ---------------------------------------------------------------- without bound

  function EveryTime(c: CycleInput, n: nat): (cs: seq<CycleInput>)
    ensures |cs| == n && forall i | 0 <= i < n :: cs[i] == c
  {
    seq(n, _ => c)
  }

  /** The cycle on a disk on which no record can be saved. */
  function Unsaved(c: CycleInput): CycleInput {
    c.(stop := AfterSaves(0))
  }

  /** It starts the same, and leaves the store as the SIM-swap stage left it. */
  lemma UnsavedCycle(st: Store, c: CycleInput, cfg: Settings, usbPath: string)
    requires c.WellFormed() && ReachesEngine(st, c)
    ensures Unsaved(c).WellFormed() && ReachesEngine(st, Unsaved(c))
    ensures NextStore(st, Unsaved(c), cfg) == AfterStage(st, c)
    ensures AttemptAt(st, Unsaved(c), cfg, usbPath) == AttemptAt(st, c, cfg, usbPath)
  {
    hide EngineResult, GlobalDriverResetEligible, SwapEvents, ResetAll;
    var d := Unsaved(c);
    assert HandledSwaps(st, d) == HandledSwaps(st, c) && AfterStage(st, d) == AfterStage(st, c);
    assert DiagOf(d) == DiagOf(c) && ContextOf(d, cfg) == ContextOf(c, cfg);
    CycleShape(st, d, cfg);
  }

  /** Run again, it does so again. */
  lemma UnsavedAgain(st: Store, c: CycleInput, cfg: Settings, usbPath: string)
    requires c.WellFormed() && ReachesEngine(st, c)
    ensures var d, one := Unsaved(c), AfterStage(st, c);
            && ReachesEngine(one, d) && AfterStage(one, d) == one && !ResetAt(one, d, usbPath)
            && CycleActions(one, d, cfg) == CycleActions(st, d, cfg)
  {
    hide SwapEvents, CurrentIdentities, SavedIdentities, Engine.CycleSpec, Dispatch, DiagOf;
    StageSettles(st, c);
  }

  /** What it starts at a path, and what that path's record goes through. */
  lemma UnsavedStarts(st: Store, c: CycleInput, cfg: Settings, usbPath: string)
    requires cfg.Valid() && InOrder(c) && RanIn(st, c, cfg, usbPath) != []
    ensures ReachesEngine(st, c) && Unsaved(c).WellFormed()
    ensures RanIn(st, Unsaved(c), cfg, usbPath) == [RanIn(st, c, cfg, usbPath)[0].(saved := false)]
    ensures SeenFrom(st, Unsaved(c), cfg, usbPath) == if ResetAt(st, c, usbPath) then ResetOnly else Absent
  {
    hide NextStore, CycleActions, ActionsOf, PathStep, View, StageCompletes, SwapEvents, AfterStage;
    var d := Unsaved(c);
    CycleProjects(st, c, cfg, usbPath);
    UnsavedCycle(st, c, cfg, usbPath);
    CycleProjects(st, d, cfg, usbPath);
    RanLaw(st, c, cfg, usbPath);
    RanLaw(st, d, cfg, usbPath);
  }

  /** Each repetition, the first and every later one. */
  lemma UnsavedRepeats(st: Store, c: CycleInput, cfg: Settings, usbPath: string, before: Store)
    requires cfg.Valid() && InOrder(c) && RanIn(st, c, cfg, usbPath) != [] && ReachesEngine(st, c)
    requires before in {st, AfterStage(st, c)}
    ensures var d := Unsaved(c);
            && d.WellFormed() && NextStore(before, d, cfg) == AfterStage(st, c)
            && RanIn(before, d, cfg, usbPath) == [RanIn(st, c, cfg, usbPath)[0].(saved := false)]
            && SeenFrom(before, d, cfg, usbPath) in {Absent, ResetOnly}
            && (before == AfterStage(st, c) ==> SeenFrom(before, d, cfg, usbPath) == Absent)
  {
    hide NextStore, CycleActions, ActionsOf, StageCompletes, ResetAt, AfterStage;
    var d, one := Unsaved(c), AfterStage(st, c);
    UnsavedStarts(st, c, cfg, usbPath);
    UnsavedCycle(st, c, cfg, usbPath);
    if before == one {
      UnsavedAgain(st, c, cfg, usbPath);
      UnsavedCycle(one, d, cfg, usbPath);
      assert Unsaved(d) == d;
    }
  }

  /** One more cycle that saves nothing. */
  lemma LogsGrow(st: Store, cs: seq<CycleInput>, cfg: Settings, usbPath: string, d: CycleInput)
    requires WellFormedRun(cs) && d.WellFormed()
    ensures var more, before := cs + [d], After(st, cs, cfg);
            && WellFormedRun(more) && After(st, more, cfg) == NextStore(before, d, cfg)
            && RanLog(st, more, cfg, usbPath) == RanLog(st, cs, cfg, usbPath) + RanIn(before, d, cfg, usbPath)
            && Trace(st, more, cfg, usbPath) == Trace(st, cs, cfg, usbPath) + [SeenFrom(before, d, cfg, usbPath)]
  {
    hide NextStore, RanIn, SeenFrom;
    assert (cs + [d])[..|cs|] == cs;
  }

  lemma UnseenCostsNothing(s: ModemState, trace: seq<PathCycle>, c: PathCycle)
    requires !c.Seen?
    ensures HealthyCycles(s, trace + [c]) == HealthyCycles(s, trace)
    ensures Swaps(trace + [c]) == Swaps(trace) + (if c.ResetOnly? then 1 else 0)
  {
    assert (trace + [c])[..|trace|] == trace;
  }

  /** On a disk on which no record can be saved the bound has no end: any action the driver starts on
      any modem is started in each of any number of repetitions of that cycle, every time with the
      same stamp, without a healthy cycle and with at most one SIM swap. */
  lemma {:induction false} LostSavesResetWithoutBound(st: Store, c: CycleInput, cfg: Settings, usbPath: string, n: nat)
    requires cfg.Valid() && InOrder(c) && RanIn(st, c, cfg, usbPath) != []
    ensures var cs := EveryTime(Unsaved(c), n);
            && Unsaved(c).WellFormed() && WellFormedRun(cs)
            && ReachesEngine(st, c) && After(st, cs, cfg) == (if n == 0 then st else AfterStage(st, c))
            && |RanLog(st, cs, cfg, usbPath)| == n
            && (forall r <- RanLog(st, cs, cfg, usbPath) :: r == RanIn(st, c, cfg, usbPath)[0].(saved := false))
            && HealthyCycles(View(st, usbPath), Trace(st, cs, cfg, usbPath)) == 0
            && Swaps(Trace(st, cs, cfg, usbPath)) <= (if n == 0 then 0 else 1)
  {
    hide NextStore, RanIn, SeenFrom, View, AfterStage, StageCompletes, HealthyCycles, Swaps, After, RanLog, Trace,
         Unsaved;
    UnsavedStarts(st, c, cfg, usbPath);
    var d := Unsaved(c);
    if n == 0 {
      NothingYet(st, cfg, usbPath, EveryTime(d, n));
    } else {
      LostSavesResetWithoutBound(st, c, cfg, usbPath, n - 1);
      var cs := EveryTime(d, n - 1);
      assert EveryTime(d, n) == cs + [d];
      LogsGrow(st, cs, cfg, usbPath, d);
      var before := After(st, cs, cfg);
      UnsavedRepeats(st, c, cfg, usbPath, before);
      UnseenCostsNothing(View(st, usbPath), Trace(st, cs, cfg, usbPath), SeenFrom(before, d, cfg, usbPath));
    }
  }

  lemma NothingYet(st: Store, cfg: Settings, usbPath: string, cs: seq<CycleInput>)
    requires cs == []
    ensures After(st, cs, cfg) == st && RanLog(st, cs, cfg, usbPath) == [] && Trace(st, cs, cfg, usbPath) == []
    ensures HealthyCycles(View(st, usbPath), []) == 0 && Swaps([]) == 0
  {
  }
}
