/** SIM identity over whole runs: what the stored map means, which swaps are reported, and which
    are missed. */
module SimSwaps {
  import opened Wire
  import opened Engine
  import opened PathRuns
  import opened CycleDriver
  import opened DaemonRuns

  /** The identity surfaced at a path in one cycle, if any. A cycle cut short before it gets to
      the identity file has surfaced nothing. */
  function SurfacedAt(c: CycleInput, usbPath: string): Option<Identity> {
    if |c.snapshots| != |c.modems| || c.stop.AtIdentityFile? then None
    else
      match IndexOf(c.modems, usbPath)
      case None => None
      case Some(i) =>
        var snap := c.snapshots[i];
        if snap.iccid.Some? && snap.imsi.Some? then Some(Identity(snap.iccid.value, snap.imsi.value)) else None
  }

  /** The last identity surfaced at a path; before the run, the one stored. */
  ghost function LastSurfaced(st: Store, cs: seq<CycleInput>, usbPath: string): Option<Identity> {
    if cs == [] then if usbPath in st.identities then Some(st.identities[usbPath]) else None
    else
      var now := SurfacedAt(cs[|cs| - 1], usbPath);
      if now.Some? then now else LastSurfaced(st, cs[..|cs| - 1], usbPath)
  }

  /** The cycle rewrites the identity file: some surfaced identity is new or different. */
  ghost predicate Rewrites(st: Store, c: CycleInput) {
    exists p :: SurfacedAt(c, p).Some? && !(p in st.identities && st.identities[p] == SurfacedAt(c, p).value)
  }

  /** A path drops out of the identity file when a rewriting cycle does not see its SIM. */
  ghost function Forgotten(st: Store, cs: seq<CycleInput>, cfg: Settings, usbPath: string): bool
    requires WellFormedRun(cs)
  {
    if cs == [] then usbPath !in st.identities
    else
      var n := |cs| - 1;
      if SurfacedAt(cs[n], usbPath).Some? then false
      else if Rewrites(After(st, cs[..n], cfg), cs[n]) then true
      else Forgotten(st, cs[..n], cfg, usbPath)
  }

  /** The swaps whose reset and event the cycle gets to. */
  ghost function SimEvents(st: Store, c: CycleInput): seq<SimSwapped> {
    if |c.snapshots| != |c.modems| then [] else HandledSwaps(st, c)
  }

  lemma CurrentIsSurfaced(c: CycleInput, usbPath: string)
    requires c.WellFormed() && |c.snapshots| == |c.modems| && !c.stop.AtIdentityFile?
    ensures var cur := CurrentIdentities(c.modems, c.snapshots);
            && (usbPath in cur <==> SurfacedAt(c, usbPath).Some?)
            && (usbPath in cur ==> SurfacedAt(c, usbPath) == Some(cur[usbPath]))
  {
    CurrentByPath(c.modems, c.snapshots, usbPath);
  }

  /** The identity file after one cycle, by path. */
  lemma IdentitiesStep(st: Store, c: CycleInput, cfg: Settings, usbPath: string)
    requires c.WellFormed()
    ensures var ids, now := NextStore(st, c, cfg).identities, SurfacedAt(c, usbPath);
            && (now.Some? ==> usbPath in ids && ids[usbPath] == now.value)
            && (now.None? ==> (usbPath in ids <==> usbPath in st.identities && !Rewrites(st, c)))
            && (now.None? && usbPath in ids ==> ids[usbPath] == st.identities[usbPath])
  {
    hide NextStore;
    NextIdentities(st, c, cfg);
    if |c.snapshots| == |c.modems| && !c.stop.AtIdentityFile? {
      var cur := CurrentIdentities(c.modems, c.snapshots);
      forall p ensures (p in cur <==> SurfacedAt(c, p).Some?) && (p in cur ==> SurfacedAt(c, p) == Some(cur[p])) {
        CurrentIsSurfaced(c, p);
      }
      if Rewrites(st, c) {
        var p :| SurfacedAt(c, p).Some? && !(p in st.identities && st.identities[p] == SurfacedAt(c, p).value);
        assert p in cur && (p !in st.identities || st.identities[p] != cur[p]);
      }
    }
  }

  lemma NextIdentities(st: Store, c: CycleInput, cfg: Settings)
    requires c.WellFormed()
    ensures NextStore(st, c, cfg).identities ==
            if |c.snapshots| == |c.modems| && !c.stop.AtIdentityFile?
            then SavedIdentities(st.identities, CurrentIdentities(c.modems, c.snapshots)) else st.identities
  {
    hide NextStore, CycleActions, EngineResult, SavedIdentities, CurrentIdentities;
    if ReachesEngine(st, c) {
      CycleShape(st, c, cfg);
    } else {
      CycleStopsEarly(st, c, cfg);
    }
  }

  /** In every run, any path in the identity file holds the identity last surfaced there, and a
      path whose identity has been seen is in the file exactly when it was not forgotten. */
  lemma {:induction false} IdentityFileIsLastSurfaced(st: Store, cs: seq<CycleInput>, cfg: Settings, usbPath: string)
    requires WellFormedRun(cs)
    ensures var ids := After(st, cs, cfg).identities;
            && (usbPath in ids ==> LastSurfaced(st, cs, usbPath) == Some(ids[usbPath]))
            && (usbPath in ids <==> !Forgotten(st, cs, cfg, usbPath))
  {
    if cs != [] {
      hide NextStore, Rewrites, SurfacedAt;
      var n := |cs| - 1;
      IdentityFileIsLastSurfaced(st, cs[..n], cfg, usbPath);
      IdentitiesStep(After(st, cs[..n], cfg), cs[n], cfg, usbPath);
    }
  }

  lemma HandledAreSwaps(st: Store, c: CycleInput, e: SimSwapped)
    requires |c.snapshots| == |c.modems| && e in HandledSwaps(st, c)
    ensures e in SwapEvents(st.identities, c.modems, c.snapshots) && !c.stop.AtIdentityFile?
  {
    hide SwapEvents;
  }

  /** Soundness: every reported swap joins two consecutively surfaced, different ICCIDs of its
      path, and the engine then starts that modem from streak zero and empty counters. */
  lemma ReportedSwapsAreReal(st: Store, cs: seq<CycleInput>, c: CycleInput, cfg: Settings, e: SimSwapped)
    requires WellFormedRun(cs) && c.WellFormed() && e in SimEvents(After(st, cs, cfg), c)
    ensures && LastSurfaced(st, cs, e.usbPath).Some? && LastSurfaced(st, cs, e.usbPath).value.iccid == e.oldIccid
            && SurfacedAt(c, e.usbPath).Some? && SurfacedAt(c, e.usbPath).value.iccid == e.newIccid
            && e.oldIccid != e.newIccid
    ensures var hydrated := Hydrate(AfterStage(After(st, cs, cfg), c).states, c.modems);
            e.usbPath in hydrated && hydrated[e.usbPath].healthyStreak == 0 && hydrated[e.usbPath].counters == map[]
  {
    hide After, AfterStage, HandledSwaps;
    var before := After(st, cs, cfg);
    HandledAreSwaps(before, c, e);
    SwapEventsByPath(before.identities, c.modems, c.snapshots, e);
    IdentityFileIsLastSurfaced(st, cs, cfg, e.usbPath);
    StageOneByPath(before, c, e.usbPath);
    HydrateByPath(AfterStage(before, c).states, c.modems, e.usbPath);
  }

  /** A reported change of SIM was not forgotten in between; and a cycle that completes the stage
      reports every change of SIM that was not. */
  lemma SwapReportedExactlyWhenRemembered(st: Store, cs: seq<CycleInput>, c: CycleInput, cfg: Settings, usbPath: string)
    requires WellFormedRun(cs) && c.WellFormed()
    requires LastSurfaced(st, cs, usbPath).Some? && SurfacedAt(c, usbPath).Some?
    requires LastSurfaced(st, cs, usbPath).value.iccid != SurfacedAt(c, usbPath).value.iccid
    ensures Mentions(SimEvents(After(st, cs, cfg), c), usbPath) ==> !Forgotten(st, cs, cfg, usbPath)
    ensures StageCompletes(After(st, cs, cfg), c) ==>
              (Mentions(SimEvents(After(st, cs, cfg), c), usbPath) <==> !Forgotten(st, cs, cfg, usbPath))
  {
    hide After, HandledSwaps;
    var before := After(st, cs, cfg);
    IdentityFileIsLastSurfaced(st, cs, cfg, usbPath);
    SwapMentioned(before, c, usbPath);
    if Mentions(SimEvents(before, c), usbPath) {
      var e :| e in SimEvents(before, c) && e.usbPath == usbPath;
      HandledAreSwaps(before, c, e);
      SwapEventsByPath(before.identities, c.modems, c.snapshots, e);
    }
    if StageCompletes(before, c) {
      CompleteHandlesAll(before, c);
    }
  }

  /** The stage completes exactly when it got past the identity file and to every swap. */
  lemma CompleteHandlesAll(st: Store, c: CycleInput)
    requires |c.snapshots| == |c.modems|
    ensures StageCompletes(st, c) <==>
            !c.stop.AtIdentityFile? && HandledSwaps(st, c) == SwapEvents(st.identities, c.modems, c.snapshots)
  {
    hide SwapEvents;
  }

  function Plain(usbPath: string, iccid: Option<string>): ModemSnapshot {
    ModemSnapshot(usbPath, "cdc-wdm0", iccid, iccid, Signal(None, None, None), [])
  }

  /** One cycle over the given modems, with all clock readings zero. */
  function Quiet(modems: seq<Descriptor>, snaps: seq<ModemSnapshot>): CycleInput {
    CycleInput(modems, snaps, seq(|modems|, i requires 0 <= i < |modems| => Ticks(0.0, 0.0, 0.0)),
               false, 0.0, 0.0, 0.0, map[],
               seq(|modems|, i requires 0 <= i < |modems| => 0.0), Never)
  }

  /** The example's store, its enrolling cycle and the cycle in which the first modem is back. */
  function OldSim(): Store {
    Store(map[], GlobalsState(0, None), map["2-1" := Identity("old", "old")])
  }

  function Enrol(): CycleInput {
    Quiet([Descriptor("2-1", "cdc-wdm0"), Descriptor("3-2", "cdc-wdm0")], [Plain("2-1", None), Plain("3-2", Some("b"))])
  }

  function Back(): CycleInput {
    Quiet([Descriptor("2-1", "cdc-wdm0")], [Plain("2-1", Some("new"))])
  }

  lemma ExampleInputs()
    ensures Enrol().WellFormed() && Back().WellFormed()
    ensures SurfacedAt(Enrol(), "2-1") == None && SurfacedAt(Enrol(), "3-2") == Some(Identity("b", "b"))
    ensures SurfacedAt(Back(), "2-1") == Some(Identity("new", "new"))
    ensures "3-2" !in OldSim().identities
    ensures "old" != "new"
  {
    assert "2-1"[0] != "3-2"[0] && "old"[0] != "new"[0];
    IndexOfTwo(Descriptor("2-1", "cdc-wdm0"), Descriptor("3-2", "cdc-wdm0"));
    IndexOfOne(Descriptor("2-1", "cdc-wdm0"));
  }

  lemma BackCompletes(st: Store)
    ensures StageCompletes(st, Back())
  {
    hide SwapEvents;
  }

  /** A concrete missed swap: while modem 2-1 shows no SIM, modem 3-2 enrols; 2-1 then comes
      back with another SIM and nothing is reported. */
  lemma EnrolmentElsewhereHidesASwap(cfg: Settings)
    ensures exists st: Store, cs: seq<CycleInput>, c: CycleInput :: WellFormedRun(cs) && c.WellFormed()
              && LastSurfaced(st, cs, "2-1").Some? && SurfacedAt(c, "2-1").Some?
              && LastSurfaced(st, cs, "2-1").value.iccid != SurfacedAt(c, "2-1").value.iccid
              && !Mentions(SimEvents(After(st, cs, cfg), c), "2-1")
  {
    hide NextStore, SurfacedAt, SimEvents, Mentions, Enrol, Back;
    ExampleInputs();
    var st, cs, c := OldSim(), [Enrol()], Back();
    BackCompletes(After(st, cs, cfg));
    assert cs[..0] == [];
    assert LastSurfaced(st, [], "2-1") == Some(Identity("old", "old"));
    assert LastSurfaced(st, cs, "2-1") == Some(Identity("old", "old"));
    assert After(st, [], cfg) == st;
    assert Rewrites(st, Enrol());
    assert Forgotten(st, cs, cfg, "2-1");
    SwapReportedExactlyWhenRemembered(st, cs, c, cfg, "2-1");
  }

  lemma IndexOfTwo(a: Descriptor, b: Descriptor)
    requires a.usbPath != b.usbPath
    ensures IndexOf([a, b], a.usbPath) == Some(0) && IndexOf([a, b], b.usbPath) == Some(1)
  {
    assert [a, b][..1] == [a];
  }

  lemma IndexOfOne(a: Descriptor)
    ensures IndexOf([a], a.usbPath) == Some(0)
  {
  }

  // ---------------------------------------------------------------- crash inside the stage

  ghost predicate DistinctEventPaths(events: seq<SimSwapped>) {
    forall i, j | 0 <= i < j < |events| :: events[i].usbPath != events[j].usbPath
  }

  lemma {:induction false} EventPathsDistinct(prior: map<string, Identity>, modems: seq<Descriptor>,
                                              snaps: seq<ModemSnapshot>)
    requires |modems| == |snaps|
    requires forall i, j | 0 <= i < j < |modems| :: modems[i].usbPath != modems[j].usbPath
    ensures DistinctEventPaths(SwapEvents(prior, modems, snaps))
  {
    if modems != [] {
      var n := |modems| - 1;
      EventPathsDistinct(prior, modems[..n], snaps[..n]);
      var init := SwapEvents(prior, modems[..n], snaps[..n]);
      forall e | e in init ensures e.usbPath != modems[n].usbPath {
        SwapEventsByPath(prior, modems[..n], snaps[..n], e);
        var i := IndexOf(modems[..n], e.usbPath).value;
        assert modems[i].usbPath == e.usbPath;
      }
      var events := SwapEvents(prior, modems, snaps);
      assert events == init || (|events| == |init| + 1 && events[|init|].usbPath == modems[n].usbPath);
      forall i, j | 0 <= i < j < |events| ensures events[i].usbPath != events[j].usbPath {
        assert events[i] == init[i] && init[i] in init;
        if j < |init| {
          assert events[j] == init[j];
          assert init[i].usbPath != init[j].usbPath;
        } else {
          assert events[j].usbPath == modems[n].usbPath;
        }
      }
    }
  }

  /** A stage cut short after `k` resets is not made good by the next cycle: seeing the same SIMs
      again reports nothing, and of the swapped modems exactly those already reset start clean;
      each other one keeps the streak and counters earned with its old SIM. */
  lemma CrashLosesTheRemainingResets(st: Store, c: CycleInput, cfg: Settings, k: nat, j: nat)
    requires c.WellFormed() && |c.snapshots| == |c.modems| && c.stop.Never?
    requires k < |SimEvents(st, c)| && j < |SimEvents(st, c)|
    ensures var crashed := NextStore(st, c.(stop := AfterResets(k)), cfg);
            var p := SimEvents(st, c)[j].usbPath;
            && SimEvents(crashed, c) == []
            && View(AfterStage(crashed, c), p) == (if j < k then AfterSwap(View(st, p), true) else View(st, p))
  {
    hide NextStore, AfterSwap;
    var events, cut := SimEvents(st, c), c.(stop := AfterResets(k));
    var crashed := NextStore(st, cut, cfg);
    CycleStopsEarly(st, cut, cfg);
    assert HandledSwaps(st, cut) == events[..k];
    var cur := CurrentIdentities(c.modems, c.snapshots);
    EventPathsDistinct(st.identities, c.modems, c.snapshots);
    SwapEventsByPath(st.identities, c.modems, c.snapshots, events[j]);
    CurrentByPath(c.modems, c.snapshots, events[j].usbPath);
    assert events[j].usbPath in cur;
    assert crashed.identities == cur;
    KnownSimsAreNoSwaps(cur, c);
    assert AfterStage(crashed, c).states == crashed.states;
    ResetAllByPath(st.states, events[..k], events[j].usbPath);
    if j < k {
      assert events[..k][j] == events[j];
    }
  }
}
