/** Progress of the lock protocol: exactly which programs can deadlock, the file locks being taken
    and released on each process's bounded pool of worker threads. */
module LockProgress {
  import opened Wire
  import opened Disk
  import opened StateStore
  import opened LockProtocol

  /** Some task can move, without one dying. */
  ghost predicate SomeoneCanMove(prog: seq<Call>, s: Sys)
    requires |s.phase| == |prog|
  {
    exists u: nat, m :: Enabled(prog, s, u, m) && !m.Abandon?
  }

  /** Some call is open and none can move. */
  ghost predicate Deadlocked(prog: seq<Call>, s: Sys) {
    |s.phase| == |prog| && !SomeoneCanMove(prog, s) && exists t | 0 <= t < |prog| :: !Over(s.phase[t])
  }

  predicate Calls(prog: seq<Call>, some: set<nat>) {
    forall t <- some :: t < |prog|
  }

  function Of(prog: seq<Call>, some: set<nat>, pid: nat): set<nat>
    requires Calls(prog, some)
  {
    set t | t in some && prog[t].pid == pid
  }

  ghost predicate DistinctKeys(prog: seq<Call>, hold: set<nat>)
    requires Calls(prog, hold)
  {
    forall t <- hold, u <- hold :: t != u ==> prog[t].key != prog[u].key
  }

  ghost predicate DistinctLocks(prog: seq<Call>, both: set<nat>)
    requires Calls(prog, both)
  {
    forall t <- both, u <- both :: t != u ==> prog[t].pid != prog[u].pid || prog[t].key != prog[u].key
  }

  ghost predicate FileIsHeld(prog: seq<Call>, hold: set<nat>, w: nat)
    requires Calls(prog, hold) && w < |prog|
  {
    exists h <- hold :: prog[h].key == prog[w].key
  }

  ghost predicate WaitOnHeld(prog: seq<Call>, hold: set<nat>, wait: set<nat>)
    requires Calls(prog, hold) && Calls(prog, wait)
  {
    forall w <- wait :: prog[w].blocking && FileIsHeld(prog, hold, w)
  }

  ghost predicate NoWorkerLeft(prog: seq<Call>, workers: nat, hold: set<nat>, wait: set<nat>)
    requires Calls(prog, hold) && Calls(prog, wait)
  {
    forall h <- hold :: |Of(prog, wait, prog[h].pid)| == workers
  }

  /** Calls that can hold a file each and calls that can wait, in workers, for a file so held, such
      that no holder's process has a worker left to release on. */
  ghost predicate Jams(prog: seq<Call>, workers: nat, hold: set<nat>, wait: set<nat>) {
    && hold != {} && hold !! wait && Calls(prog, hold) && Calls(prog, wait)
    && DistinctKeys(prog, hold) && DistinctLocks(prog, hold + wait)
    && WaitOnHeld(prog, hold, wait) && NoWorkerLeft(prog, workers, hold, wait)
  }

  /** Read off the program: it has such calls. */
  ghost predicate CanJam(prog: seq<Call>, workers: nat) {
    exists hold, wait :: Jams(prog, workers, hold, wait)
  }

  // ---------------------------------------------------------------- a deadlock is a jam

  /** Workers are never overcommitted, and only a blocking call waits in one. */
  ghost predicate PoolAgrees(prog: seq<Call>, s: Sys)
    requires |s.phase| == |prog|
  {
    && (forall pid :: |Busy(prog, s, pid)| <= s.workers)
    && (forall t | 0 <= t < |prog| && s.phase[t].WaitsInWorker? :: prog[t].blocking)
  }

  lemma SubsetSize<T>(a: set<T>, b: set<T>)
    requires a <= b
    ensures |a| <= |b| && (|a| == |b| ==> a == b)
  {
    assert b == a + (b - a);
  }

  lemma BusyStep(prog: seq<Call>, s: Sys, t: nat, m: Move, pid: nat)
    requires |s.phase| == |prog| && Enabled(prog, s, t, m) && |Busy(prog, s, pid)| <= s.workers
    ensures |Fire(prog, s, t, m).phase| == |prog|
    ensures |Busy(prog, Fire(prog, s, t, m), pid)| <= Fire(prog, s, t, m).workers
  {
    hide NeedsDowngrade, SerialWith;
    PhaseStep(prog, s, t, m);
    var e := Fire(prog, s, t, m);
    if m.Block? && prog[t].pid == pid {
      assert Busy(prog, e, pid) == Busy(prog, s, pid) + {t};
    } else {
      assert Busy(prog, e, pid) <= Busy(prog, s, pid);
      SubsetSize(Busy(prog, e, pid), Busy(prog, s, pid));
    }
  }

  lemma PoolStep(prog: seq<Call>, s: Sys, t: nat, m: Move)
    requires |s.phase| == |prog| && Enabled(prog, s, t, m) && PoolAgrees(prog, s)
    ensures |Fire(prog, s, t, m).phase| == |prog| && PoolAgrees(prog, Fire(prog, s, t, m))
  {
    hide NeedsDowngrade, SerialWith, FreeWorker, Busy;
    forall pid ensures |Busy(prog, Fire(prog, s, t, m), pid)| <= s.workers {
      PhaseStep(prog, s, t, m);
      BusyStep(prog, s, t, m, pid);
    }
  }

  lemma {:induction false} RunKeepsPool(prog: seq<Call>, files: map<string, Contents>, run: seq<Sys>, i: nat)
    requires IsRun(prog, files, run) && i < |run|
    ensures PoolAgrees(prog, run[i])
  {
    hide Enabled, Fire;
    if i == 0 {
      assert forall pid :: Busy(prog, run[0], pid) == {};
    } else {
      RunKeepsPool(prog, files, run, i - 1);
      assert Step(prog, run[i - 1], run[i - 1 + 1]);
      var t: nat, m :| Enabled(prog, run[i - 1], t, m) && run[i] == Fire(prog, run[i - 1], t, m);
      PoolStep(prog, run[i - 1], t, m);
    }
  }

  function Holders(prog: seq<Call>, s: Sys): set<nat>
    requires |s.phase| == |prog|
  {
    set t | 0 <= t < |prog| && HoldsFlock(s.phase[t])
  }

  function Waiters(prog: seq<Call>, s: Sys): set<nat>
    requires |s.phase| == |prog|
  {
    set t | 0 <= t < |prog| && s.phase[t].WaitsInWorker?
  }

  /** Of those holding a file lock, only one that has committed and finds no worker is stuck. */
  lemma HolderCanMove(prog: seq<Call>, s: Sys, t: nat)
    requires LocksAgree(prog, s) && t < |prog| && HoldsFlock(s.phase[t])
    requires !s.phase[t].Committed? || FreeWorker(prog, s, prog[t].pid)
    ensures SomeoneCanMove(prog, s)
  {
    hide NeedsDowngrade, Agree, FreeWorker;
    var p := s.phase[t];
    var m := if p.HasBoth? then Fetch else if p.Committed? then DropFlock
             else if p.Fetched? && prog[t].op.Load? && NeedsDowngrade(p.local) then MoveAside else Commit(Done);
    assert Enabled(prog, s, t, m);
  }

  lemma WorkerCanMove(prog: seq<Call>, s: Sys, t: nat)
    requires LocksAgree(prog, s) && t < |prog| && s.phase[t].WaitsInWorker? && prog[t].key !in s.flockOwner
    ensures SomeoneCanMove(prog, s)
  {
    assert Enabled(prog, s, t, Granted);
  }

  lemma OwnersAreHolders(prog: seq<Call>, s: Sys)
    requires LocksAgree(prog, s)
    ensures forall k <- s.flockOwner :: s.flockOwner[k] in Holders(prog, s)
  {
    hide Agree;
    forall k <- s.flockOwner ensures s.flockOwner[k] in Holders(prog, s) {
      FlockOwnerHolds(prog, s, k);
    }
  }

  /** With no file lock held somebody can move as long as a call is open. */
  lemma UnheldCanMove(prog: seq<Call>, s: Sys, t: nat)
    requires LocksAgree(prog, s) && s.workers >= 1 && t < |prog| && !Over(s.phase[t]) && Holders(prog, s) == {}
    ensures SomeoneCanMove(prog, s)
  {
    hide NeedsDowngrade, Agree, FreeWorker;
    OwnersAreHolders(prog, s);
    if HoldsAsync(s.phase[t]) {
      AsyncHolderMoves(prog, s, t);
    } else if (prog[t].pid, prog[t].key) in s.asyncOwner {
      AsyncOwnerHolds(prog, s, (prog[t].pid, prog[t].key));
      AsyncHolderMoves(prog, s, s.asyncOwner[(prog[t].pid, prog[t].key)]);
    } else {
      assert Enabled(prog, s, t, TakeAsync);
    }
  }

  lemma AsyncHolderMoves(prog: seq<Call>, s: Sys, t: nat)
    requires LocksAgree(prog, s) && s.workers >= 1 && t < |prog| && HoldsAsync(s.phase[t])
    requires Holders(prog, s) == {} && forall k :: k !in s.flockOwner
    ensures SomeoneCanMove(prog, s)
  {
    hide NeedsDowngrade, Agree;
    assert t !in Holders(prog, s);
    if s.phase[t].DroppedFlock? {
      assert Enabled(prog, s, t, DropAsync);
    } else if s.phase[t].WaitsInWorker? {
      WorkerCanMove(prog, s, t);
    } else if FreeWorker(prog, s, prog[t].pid) {
      assert Enabled(prog, s, t, TakeFlock);
    } else {
      assert Busy(prog, s, prog[t].pid) != {};
      var u :| u in Busy(prog, s, prog[t].pid);
      WorkerCanMove(prog, s, u);
    }
  }

  lemma LocksAreDistinct(prog: seq<Call>, s: Sys)
    requires LocksAgree(prog, s)
    ensures DistinctKeys(prog, Holders(prog, s)) && DistinctLocks(prog, Holders(prog, s) + Waiters(prog, s))
  {
    hide Agree;
    var hold, both := Holders(prog, s), Holders(prog, s) + Waiters(prog, s);
    forall t, u | t in hold && u in hold && t != u ensures prog[t].key != prog[u].key {
      FlockOwnerIs(prog, s, t);
      FlockOwnerIs(prog, s, u);
    }
    forall t, u | t in both && u in both && t != u ensures prog[t].pid != prog[u].pid || prog[t].key != prog[u].key {
      AsyncOwnerIs(prog, s, t);
      AsyncOwnerIs(prog, s, u);
    }
  }

  lemma WaitersWaitOnHeld(prog: seq<Call>, s: Sys)
    requires LocksAgree(prog, s) && PoolAgrees(prog, s) && !SomeoneCanMove(prog, s)
    ensures WaitOnHeld(prog, Holders(prog, s), Waiters(prog, s))
  {
    hide Agree, SomeoneCanMove;
    forall w <- Waiters(prog, s) ensures FileIsHeld(prog, Holders(prog, s), w) {
      if prog[w].key !in s.flockOwner {
        WorkerCanMove(prog, s, w);
      }
      OwnersAreHolders(prog, s);
      FlockOwnerHolds(prog, s, prog[w].key);
    }
  }

  lemma HolderHasNoWorker(prog: seq<Call>, s: Sys, h: nat)
    requires LocksAgree(prog, s) && PoolAgrees(prog, s) && !SomeoneCanMove(prog, s) && h in Holders(prog, s)
    ensures |Of(prog, Waiters(prog, s), prog[h].pid)| == s.workers
  {
    hide Agree, SomeoneCanMove;
    if FreeWorker(prog, s, prog[h].pid) {
      HolderCanMove(prog, s, h);
    }
    assert Of(prog, Waiters(prog, s), prog[h].pid) == Busy(prog, s, prog[h].pid);
  }

  /** The holders and the waiters of a deadlock jam. */
  lemma DeadlockJams(prog: seq<Call>, s: Sys)
    requires LocksAgree(prog, s) && PoolAgrees(prog, s) && s.workers >= 1 && Deadlocked(prog, s)
    ensures Jams(prog, s.workers, Holders(prog, s), Waiters(prog, s))
  {
    hide LocksAgree, PoolAgrees, SomeoneCanMove, DistinctKeys, DistinctLocks, WaitOnHeld;
    LocksAreDistinct(prog, s);
    WaitersWaitOnHeld(prog, s);
    forall h <- Holders(prog, s) ensures |Of(prog, Waiters(prog, s), prog[h].pid)| == s.workers {
      HolderHasNoWorker(prog, s, h);
    }
    if Holders(prog, s) == {} {
      var t :| 0 <= t < |prog| && !Over(s.phase[t]);
      UnheldCanMove(prog, s, t);
    }
  }

  /** No deadlock: unless the program can jam its workers, in every state of every run in which
      some call is not over, some task can move. */
  lemma SomeTaskCanMove(prog: seq<Call>, files: map<string, Contents>, run: seq<Sys>, i: nat, t: nat)
    requires IsRun(prog, files, run) && i < |run| && t < |prog| && !Over(run[i].phase[t])
    requires run[i].workers >= 1 && !CanJam(prog, run[i].workers)
    ensures SomeoneCanMove(prog, run[i])
  {
    hide Jams, SomeoneCanMove, LocksAgree, PoolAgrees;
    InvMeansLocks(prog, files, run, i);
    RunKeepsPool(prog, files, run, i);
    if !SomeoneCanMove(prog, run[i]) {
      DeadlockJams(prog, run[i]);
    }
  }

  lemma InvMeansLocks(prog: seq<Call>, files: map<string, Contents>, run: seq<Sys>, i: nat)
    requires IsRun(prog, files, run) && i < |run|
    ensures LocksAgree(prog, run[i])
  {
    RunKeepsInv(prog, files, run, i);
  }

  /** Progress: a run of n calls has at most 8n moves, so, since a program that cannot jam can
      always go on while a call is open, every run of it that goes on ends with all of them over;
      and a call that waits for the file lock is then not refused. */
  lemma RunsEndWithAllCallsOver(prog: seq<Call>, files: map<string, Contents>, run: seq<Sys>)
    requires IsRun(prog, files, run) && run[0].workers >= 1 && !CanJam(prog, run[0].workers)
    ensures |run| <= 8 * |prog| + 1
    ensures var s := run[|run| - 1];
            && (!SomeoneCanMove(prog, s) ==> forall t | 0 <= t < |prog| :: Over(s.phase[t]))
            && (forall t | 0 <= t < |prog| && prog[t].blocking :: !s.phase[t].Refused?)
  {
    hide CanJam, SomeoneCanMove;
    var last := |run| - 1;
    RunUsesUpWork(prog, files, run, last);
    WorkersStay(prog, files, run, last);
    if !SomeoneCanMove(prog, run[last]) {
      forall t | 0 <= t < |prog| ensures Over(run[last].phase[t]) {
        if !Over(run[last].phase[t]) {
          SomeTaskCanMove(prog, files, run, last, t);
        }
      }
    }
    forall t | 0 <= t < |prog| && prog[t].blocking ensures !run[last].phase[t].Refused? {
      BlockingNeverRefused(prog, files, run, last, t);
    }
  }

  // ---------------------------------------------------------------- a jam can be run into

  /** The states of `path` lead from `s` to `e`. */
  ghost predicate IsPath(prog: seq<Call>, s: Sys, path: seq<Sys>, e: Sys) {
    && |path| > 0 && path[0] == s && path[|path| - 1] == e
    && (forall i | 0 <= i < |path| :: |path[i].phase| == |prog|)
    && (forall i | 0 <= i < |path| - 1 :: Step(prog, path[i], path[i + 1]))
  }

  ghost predicate Leads(prog: seq<Call>, s: Sys, e: Sys) {
    exists path :: IsPath(prog, s, path, e)
  }

  lemma LeadsNowhere(prog: seq<Call>, s: Sys)
    requires |s.phase| == |prog|
    ensures Leads(prog, s, s)
  {
    assert IsPath(prog, s, [s], s);
  }

  lemma LeadsOn(prog: seq<Call>, s: Sys, e: Sys, t: nat, m: Move)
    requires Leads(prog, s, e) && |e.phase| == |prog| && Enabled(prog, e, t, m)
    ensures |Fire(prog, e, t, m).phase| == |prog| && Leads(prog, s, Fire(prog, e, t, m))
  {
    hide Enabled, Fire;
    SamePhaseCount(prog, e, t, m);
    var path :| IsPath(prog, s, path, e);
    var f := Fire(prog, e, t, m);
    assert Step(prog, e, f);
    var more := path + [f];
    forall i | 0 <= i < |more| - 1 ensures Step(prog, more[i], more[i + 1]) {
      if i < |path| - 1 {
        assert Step(prog, path[i], path[i + 1]);
      }
    }
    assert IsPath(prog, s, more, f);
  }

  /** One move more, as a state and as part of the way to it. */
  lemma Go(prog: seq<Call>, start: Sys, s: Sys, t: nat, m: Move) returns (e: Sys)
    requires LocksAgree(prog, s) && Leads(prog, start, s) && Enabled(prog, s, t, m)
    ensures e == Fire(prog, s, t, m) && LocksAgree(prog, e) && Leads(prog, start, e)
    ensures t < |prog| == |e.phase| && e.phase == s.phase[t := e.phase[t]] && e.workers == s.workers
  {
    hide Enabled, Fire, Leads, Agree;
    LocksStep(prog, s, t, m);
    LeadsOn(prog, start, s, t, m);
    PhaseStep(prog, s, t, m);
    e := Fire(prog, s, t, m);
  }

  /** A call with its locks and a worker free gets as far as holding both. */
  lemma GoToBoth(prog: seq<Call>, start: Sys, s: Sys, t: nat) returns (e: Sys)
    requires LocksAgree(prog, s) && Leads(prog, start, s) && t < |prog| && s.phase[t].Waiting?
    requires (prog[t].pid, prog[t].key) !in s.asyncOwner && prog[t].key !in s.flockOwner
    requires FreeWorker(prog, s, prog[t].pid)
    ensures LocksAgree(prog, e) && Leads(prog, start, e)
    ensures e.phase == s.phase[t := HasBoth] && e.workers == s.workers
  {
    hide LocksAgree, Leads, NeedsDowngrade, SerialWith;
    assert |s.phase| == |prog| by { SamePhases(prog, s); }
    var a := Go(prog, start, s, t, TakeAsync);
    assert Busy(prog, a, prog[t].pid) == Busy(prog, s, prog[t].pid);
    e := Go(prog, start, a, t, TakeFlock);
  }

  lemma SamePhases(prog: seq<Call>, s: Sys)
    requires LocksAgree(prog, s)
    ensures |s.phase| == |prog|
  {
  }

  /** From there it can always commit. */
  lemma GoToCommitted(prog: seq<Call>, start: Sys, s: Sys, t: nat) returns (e: Sys)
    requires LocksAgree(prog, s) && Leads(prog, start, s) && t < |prog| == |s.phase| && s.phase[t].HasBoth?
    ensures LocksAgree(prog, e) && Leads(prog, start, e)
    ensures e.workers == s.workers && |e.phase| == |prog| && e.phase == s.phase[t := e.phase[t]]
    ensures e.phase[t].Committed?
  {
    hide LocksAgree, Leads, NeedsDowngrade, SerialWith, FreeWorker;
    e := Go(prog, start, s, t, Fetch);
    if prog[t].op.Load? && NeedsDowngrade(e.phase[t].local) {
      e := Go(prog, start, e, t, MoveAside);
    }
    e := Go(prog, start, e, t, Commit(Done));
  }

  /** The holders in `held` have committed, the waiters in `stuck` are in workers, and nobody else
      has begun. */
  ghost predicate AsBuilt(prog: seq<Call>, phase: seq<Phase>, held: set<nat>, stuck: set<nat>) {
    && |phase| == |prog|
    && forall t | 0 <= t < |prog| ::
         if t in held then phase[t].Committed?
         else if t in stuck then phase[t].WaitsInWorker?
         else phase[t].Waiting?
  }

  ghost predicate Built(prog: seq<Call>, start: Sys, s: Sys, held: set<nat>, stuck: set<nat>) {
    LocksAgree(prog, s) && s.workers == start.workers && Leads(prog, start, s) && AsBuilt(prog, s.phase, held, stuck)
  }

  /** The in-memory lock of a holder or waiter not begun yet is free. */
  lemma FreeToStart(prog: seq<Call>, s: Sys, both: set<nat>, held: set<nat>, stuck: set<nat>, t: nat)
    requires LocksAgree(prog, s) && AsBuilt(prog, s.phase, held, stuck) && held <= both && stuck <= both
    requires Calls(prog, both) && DistinctLocks(prog, both) && t in both && t !in held && t !in stuck
    ensures (prog[t].pid, prog[t].key) !in s.asyncOwner
  {
    hide Agree;
    if (prog[t].pid, prog[t].key) in s.asyncOwner {
      AsyncOwnerHolds(prog, s, (prog[t].pid, prog[t].key));
    }
  }

  lemma KeyIsFree(prog: seq<Call>, s: Sys, hold: set<nat>, held: set<nat>, h: nat)
    requires LocksAgree(prog, s) && AsBuilt(prog, s.phase, held, {}) && held <= hold
    requires Calls(prog, hold) && DistinctKeys(prog, hold) && h in hold && h !in held
    ensures prog[h].key !in s.flockOwner
  {
    hide Agree;
    if prog[h].key in s.flockOwner {
      FlockOwnerHolds(prog, s, prog[h].key);
    }
  }

  lemma AddHolder(prog: seq<Call>, start: Sys, s: Sys, hold: set<nat>, wait: set<nat>, held: set<nat>, h: nat)
    returns (e: Sys)
    requires Jams(prog, start.workers, hold, wait) && start.workers >= 1
    requires held <= hold && h in hold && h !in held && Built(prog, start, s, held, {})
    ensures Built(prog, start, e, held + {h}, {})
  {
    hide LocksAgree, Leads, DistinctKeys, DistinctLocks, WaitOnHeld, NoWorkerLeft;
    FreeToStart(prog, s, hold + wait, held, {}, h);
    KeyIsFree(prog, s, hold, held, h);
    assert Busy(prog, s, prog[h].pid) == {};
    e := GoToBoth(prog, start, s, h);
    e := GoToCommitted(prog, start, e, h);
  }

  ghost predicate InHoldersProcess(prog: seq<Call>, hold: set<nat>, w: nat)
    requires Calls(prog, hold) && w < |prog|
  {
    exists h <- hold :: prog[h].pid == prog[w].pid
  }

  /** All waiters are in a holder's process. */
  ghost predicate Needed(prog: seq<Call>, hold: set<nat>, wait: set<nat>)
    requires Calls(prog, hold) && Calls(prog, wait)
  {
    forall w <- wait :: InHoldersProcess(prog, hold, w)
  }

  /** As long as one of its waiters has not begun, a holder's process has a worker free. */
  lemma WorkerIsFree(prog: seq<Call>, s: Sys, hold: set<nat>, wait: set<nat>, stuck: set<nat>, w: nat)
    requires Jams(prog, s.workers, hold, wait) && Needed(prog, hold, wait)
    requires stuck <= wait && w in wait && w !in stuck && AsBuilt(prog, s.phase, hold, stuck)
    ensures FreeWorker(prog, s, prog[w].pid)
  {
    hide DistinctKeys, DistinctLocks, WaitOnHeld;
    assert InHoldersProcess(prog, hold, w);
    var g :| g in hold && prog[g].pid == prog[w].pid;
    var busy, all := Busy(prog, s, prog[w].pid), Of(prog, wait, prog[w].pid);
    assert busy <= all - {w};
    SubsetSize(busy, all - {w});
  }

  lemma KeyIsHeld(prog: seq<Call>, s: Sys, hold: set<nat>, wait: set<nat>, w: nat)
    requires LocksAgree(prog, s) && Calls(prog, hold) && Calls(prog, wait) && WaitOnHeld(prog, hold, wait)
    requires w in wait && forall h <- hold :: s.phase[h].Committed?
    ensures prog[w].key in s.flockOwner
  {
    hide Agree;
    assert FileIsHeld(prog, hold, w);
    var h :| h in hold && prog[h].key == prog[w].key;
    FlockOwnerIs(prog, s, h);
  }

  /** A waiter with its lock and a worker free gets as far as waiting there. */
  lemma GoToWorker(prog: seq<Call>, start: Sys, s: Sys, t: nat) returns (e: Sys)
    requires LocksAgree(prog, s) && Leads(prog, start, s) && t < |prog| && s.phase[t].Waiting? && prog[t].blocking
    requires (prog[t].pid, prog[t].key) !in s.asyncOwner && prog[t].key in s.flockOwner
    requires FreeWorker(prog, s, prog[t].pid)
    ensures LocksAgree(prog, e) && Leads(prog, start, e)
    ensures e.phase == s.phase[t := WaitsInWorker] && e.workers == s.workers
  {
    hide LocksAgree, Leads, NeedsDowngrade, SerialWith;
    assert |s.phase| == |prog| by { SamePhases(prog, s); }
    var a := Go(prog, start, s, t, TakeAsync);
    assert Busy(prog, a, prog[t].pid) == Busy(prog, s, prog[t].pid);
    e := Go(prog, start, a, t, Block);
  }

  lemma AddWaiter(prog: seq<Call>, start: Sys, s: Sys, hold: set<nat>, wait: set<nat>, stuck: set<nat>, w: nat)
    returns (e: Sys)
    requires Jams(prog, start.workers, hold, wait) && Needed(prog, hold, wait)
    requires stuck <= wait && w in wait && w !in stuck && Built(prog, start, s, hold, stuck)
    ensures Built(prog, start, e, hold, stuck + {w})
  {
    hide LocksAgree, Leads, DistinctKeys, DistinctLocks, NoWorkerLeft, FreeWorker, Needed;
    FreeToStart(prog, s, hold + wait, hold, stuck, w);
    WorkerIsFree(prog, s, hold, wait, stuck, w);
    KeyIsHeld(prog, s, hold, wait, w);
    e := GoToWorker(prog, start, s, w);
  }

  lemma {:induction false} AddHolders(prog: seq<Call>, start: Sys, s: Sys, hold: set<nat>, wait: set<nat>,
                                      held: set<nat>) returns (e: Sys)
    requires Jams(prog, start.workers, hold, wait) && start.workers >= 1
    requires held <= hold && Built(prog, start, s, held, {})
    ensures Built(prog, start, e, hold, {})
    decreases |hold - held|
  {
    hide Jams, Built;
    var left := hold - held;
    if left == {} {
      assert held == hold;
      e := s;
    } else {
      var h :| h in left;
      e := AddHolder(prog, start, s, hold, wait, held, h);
      assert hold - (held + {h}) == left - {h};
      e := AddHolders(prog, start, e, hold, wait, held + {h});
    }
  }

  lemma {:induction false} AddWaiters(prog: seq<Call>, start: Sys, s: Sys, hold: set<nat>, wait: set<nat>,
                                      stuck: set<nat>) returns (e: Sys)
    requires Jams(prog, start.workers, hold, wait) && Needed(prog, hold, wait)
    requires stuck <= wait && Built(prog, start, s, hold, stuck)
    ensures Built(prog, start, e, hold, wait)
    decreases |wait - stuck|
  {
    hide Built, Needed, DistinctKeys, DistinctLocks, WaitOnHeld, NoWorkerLeft;
    var left := wait - stuck;
    if left == {} {
      assert stuck == wait;
      e := s;
    } else {
      var w :| w in left;
      e := AddWaiter(prog, start, s, hold, wait, stuck, w);
      assert wait - (stuck + {w}) == left - {w};
      e := AddWaiters(prog, start, e, hold, wait, stuck + {w});
    }
  }

  /** Jammed: the holders have committed, the waiters are in workers. */
  ghost predicate Jammed(prog: seq<Call>, s: Sys, hold: set<nat>, wait: set<nat>) {
    && LocksAgree(prog, s) && Jams(prog, s.workers, hold, wait)
    && (forall h <- hold :: s.phase[h].Committed?) && (forall w <- wait :: s.phase[w].WaitsInWorker?)
  }

  /** No holder finds a worker and no waiter finds its file free. */
  lemma JammedCannotMove(prog: seq<Call>, s: Sys, hold: set<nat>, wait: set<nat>, t: nat, m: Move)
    requires Jammed(prog, s, hold, wait) && Enabled(prog, s, t, m) && !m.Abandon?
    ensures t !in hold + wait
  {
    hide Agree, NeedsDowngrade, DistinctKeys, DistinctLocks;
    if t in hold {
      var busy, all := Busy(prog, s, prog[t].pid), Of(prog, wait, prog[t].pid);
      assert all <= busy;
      SubsetSize(all, busy);
    }
    if t in wait {
      KeyIsHeld(prog, s, hold, wait, t);
    }
  }

  /** Nothing but a death ends it. */
  lemma JammedStays(prog: seq<Call>, s: Sys, hold: set<nat>, wait: set<nat>, t: nat, m: Move)
    requires Jammed(prog, s, hold, wait) && Enabled(prog, s, t, m) && !m.Abandon?
    ensures Jammed(prog, Fire(prog, s, t, m), hold, wait)
  {
    hide Agree, Enabled, Fire, DistinctKeys, DistinctLocks, WaitOnHeld, NoWorkerLeft;
    LocksStep(prog, s, t, m);
    PhaseStep(prog, s, t, m);
    JammedCannotMove(prog, s, hold, wait, t, m);
  }

  /** The other calls run out, and a deadlock is left. */
  lemma {:induction false} RunOut(prog: seq<Call>, start: Sys, s: Sys, hold: set<nat>, wait: set<nat>)
    returns (e: Sys)
    requires Jammed(prog, s, hold, wait) && Leads(prog, start, s)
    ensures Leads(prog, start, e) && Deadlocked(prog, e)
    decreases Work(s.phase)
  {
    hide Leads, Enabled, Fire, Agree, DistinctKeys, DistinctLocks, WaitOnHeld, NoWorkerLeft;
    if SomeoneCanMove(prog, s) {
      var t: nat, m :| Enabled(prog, s, t, m) && !m.Abandon?;
      JammedStays(prog, s, hold, wait, t, m);
      PhaseStep(prog, s, t, m);
      WorkUpdate(s.phase, t, Fire(prog, s, t, m).phase[t]);
      LeadsOn(prog, start, s, t, m);
      e := RunOut(prog, start, Fire(prog, s, t, m), hold, wait);
    } else {
      var h :| h in hold;
      assert !Over(s.phase[h]);
      e := s;
    }
  }

  lemma FewerLocks(prog: seq<Call>, both: set<nat>, fewer: set<nat>)
    requires Calls(prog, both) && DistinctLocks(prog, both) && fewer <= both
    ensures DistinctLocks(prog, fewer)
  {
  }

  /** Only the waiters in a holder's process are needed for a jam. */
  lemma NeededSuffice(prog: seq<Call>, workers: nat, hold: set<nat>, wait: set<nat>) returns (few: set<nat>)
    requires Jams(prog, workers, hold, wait)
    ensures Jams(prog, workers, hold, few) && Needed(prog, hold, few)
  {
    hide DistinctKeys, DistinctLocks, FileIsHeld, InHoldersProcess;
    few := set w | w in wait && InHoldersProcess(prog, hold, w);
    FewerLocks(prog, hold + wait, hold + few);
    forall h <- hold ensures |Of(prog, few, prog[h].pid)| == workers {
      SameOf(prog, hold, wait, few, h);
    }
  }

  lemma SameOf(prog: seq<Call>, hold: set<nat>, wait: set<nat>, few: set<nat>, h: nat)
    requires Calls(prog, hold) && Calls(prog, wait) && h in hold
    requires few == set w | w in wait && InHoldersProcess(prog, hold, w)
    ensures Of(prog, few, prog[h].pid) == Of(prog, wait, prog[h].pid)
  {
  }

  lemma StartIsBuilt(prog: seq<Call>, workers: nat, files: map<string, Contents>)
    ensures var start := Start(prog, workers, files); Built(prog, start, start, {}, {})
  {
    hide Leads, FilesAgree, LogAgrees, Legal;
    StartHoldsInv(prog, files);
    assert Inv(prog, files, Start(prog, workers, files));
    LeadsNowhere(prog, Start(prog, workers, files));
  }

  lemma BuiltIsJammed(prog: seq<Call>, start: Sys, s: Sys, hold: set<nat>, wait: set<nat>)
    requires Jams(prog, start.workers, hold, wait) && Built(prog, start, s, hold, wait)
    ensures Jammed(prog, s, hold, wait) && Leads(prog, start, s)
  {
    hide LocksAgree, Leads, DistinctKeys, DistinctLocks, WaitOnHeld, NoWorkerLeft;
  }

  lemma JamIsReached(prog: seq<Call>, workers: nat, files: map<string, Contents>, hold: set<nat>, wait: set<nat>)
    returns (e: Sys)
    requires workers >= 1 && Jams(prog, workers, hold, wait)
    ensures Leads(prog, Start(prog, workers, files), e) && Deadlocked(prog, e)
  {
    hide Built, Leads, Deadlocked, Needed, Jammed, DistinctKeys, DistinctLocks, WaitOnHeld, NoWorkerLeft;
    var start := Start(prog, workers, files);
    var few := NeededSuffice(prog, workers, hold, wait);
    StartIsBuilt(prog, workers, files);
    e := AddHolders(prog, start, start, hold, few, {});
    e := AddWaiters(prog, start, e, hold, few, {});
    BuiltIsJammed(prog, start, e, hold, few);
    e := RunOut(prog, start, e, hold, few);
  }

  /** A run that ends deadlocked. */
  ghost predicate RunsIntoDeadlock(prog: seq<Call>, workers: nat, files: map<string, Contents>, run: seq<Sys>) {
    IsRun(prog, files, run) && run[0].workers == workers && Deadlocked(prog, run[|run| - 1])
  }

  /** Exactly which programs can deadlock: with at least one worker a process, whatever the files,
      a deadlock can be reached if and only if the program can jam. */
  lemma DeadlockExactlyWhenCanJam(prog: seq<Call>, workers: nat, files: map<string, Contents>)
    requires workers >= 1
    ensures CanJam(prog, workers) <==> exists run :: RunsIntoDeadlock(prog, workers, files, run)
  {
    hide Jams, Deadlocked, LocksAgree, PoolAgrees;
    if CanJam(prog, workers) {
      var hold, wait :| Jams(prog, workers, hold, wait);
      var e := JamIsReached(prog, workers, files, hold, wait);
      var run :| IsPath(prog, Start(prog, workers, files), run, e);
      assert RunsIntoDeadlock(prog, workers, files, run);
    }
    if exists run :: RunsIntoDeadlock(prog, workers, files, run) {
      var run :| RunsIntoDeadlock(prog, workers, files, run);
      var last := |run| - 1;
      InvMeansLocks(prog, files, run, last);
      RunKeepsPool(prog, files, run, last);
      WorkersStay(prog, files, run, last);
      DeadlockJams(prog, run[last]);
    }
  }

  // ---------------------------------------------------------------- what it takes

  /** The files a process's calls use. */
  function Keys(prog: seq<Call>, pid: nat): set<string> {
    set t | 0 <= t < |prog| && prog[t].pid == pid :: prog[t].key
  }

  lemma OneKeyEach(prog: seq<Call>, some: set<nat>, pid: nat)
    requires Calls(prog, some) && DistinctLocks(prog, some) && forall t <- some :: prog[t].pid == pid
    ensures |some| <= |Keys(prog, pid)|
  {
    var keys := set t | t in some :: prog[t].key;
    KeysCounted(prog, some, keys);
    assert keys <= Keys(prog, pid);
    SubsetSize(keys, Keys(prog, pid));
  }

  lemma {:induction false} KeysCounted(prog: seq<Call>, some: set<nat>, keys: set<string>)
    requires Calls(prog, some) && keys == set t | t in some :: prog[t].key
    requires forall t <- some, u <- some :: t != u ==> prog[t].key != prog[u].key
    ensures |some| == |keys|
    decreases |some|
  {
    if some != {} {
      var t :| t in some;
      KeysCounted(prog, some - {t}, keys - {prog[t].key});
    }
  }

  /** A process that holds a file in a jam uses more files than it has workers. */
  lemma HolderIsCrowded(prog: seq<Call>, workers: nat, hold: set<nat>, wait: set<nat>, h: nat)
    requires Jams(prog, workers, hold, wait) && h in hold
    ensures |Keys(prog, prog[h].pid)| > workers
  {
    hide DistinctKeys, WaitOnHeld;
    OneKeyEach(prog, Of(prog, wait, prog[h].pid) + {h}, prog[h].pid);
  }

  /** Whom a waiter waits for is in another process. */
  lemma HolderIsElsewhere(prog: seq<Call>, hold: set<nat>, wait: set<nat>, w: nat) returns (g: nat)
    requires Calls(prog, hold) && Calls(prog, wait) && hold !! wait && DistinctLocks(prog, hold + wait)
    requires WaitOnHeld(prog, hold, wait) && w in wait
    ensures g in hold && prog[g].pid != prog[w].pid
  {
    assert FileIsHeld(prog, hold, w);
    g :| g in hold && prog[g].key == prog[w].key;
    assert g in hold + wait && w in hold + wait;
  }

  /** A deadlock takes two processes, each using more files than it has workers: none can be reached
      by a single process, nor while every process's files are no more than its workers. */
  lemma DeadlockNeedsTwoCrowdedProcesses(prog: seq<Call>, workers: nat)
    requires workers >= 1 && CanJam(prog, workers)
    ensures exists p, q :: p != q && |Keys(prog, p)| > workers && |Keys(prog, q)| > workers
  {
    hide DistinctKeys, DistinctLocks, WaitOnHeld, Keys;
    var hold, wait :| Jams(prog, workers, hold, wait);
    var h :| h in hold;
    var w :| w in Of(prog, wait, prog[h].pid);
    var g := HolderIsElsewhere(prog, hold, wait, w);
    HolderIsCrowded(prog, workers, hold, wait, h);
    HolderIsCrowded(prog, workers, hold, wait, g);
  }

  function Range(from: nat, to: nat): (r: set<nat>)
    requires from <= to
    ensures |r| == to - from && forall t :: t in r <==> from <= t < to
  {
    if from == to then {} else Range(from, to - 1) + {to - 1}
  }

  /** Files with names of different lengths. */
  function Name(file: nat): (name: string)
    ensures |name| == file
  {
    seq(file, _ => 'm')
  }

  /** Two processes each load the same files, twice as many as either has workers. */
  function TwoLoadAll(workers: nat): (prog: seq<Call>)
    ensures |prog| == 4 * workers
    ensures forall t | 0 <= t < 2 * workers :: prog[t] == Call(0, Name(t), Load, true)
    ensures forall t | 2 * workers <= t < 4 * workers :: prog[t] == Call(1, Name(t - 2 * workers), Load, true)
  {
    seq(2 * workers, t requires 0 <= t => Call(0, Name(t), Load, true))
    + seq(2 * workers, t requires 0 <= t => Call(1, Name(t), Load, true))
  }

  lemma TwoLoadAllCall(workers: nat, t: nat)
    requires t < 4 * workers
    ensures TwoLoadAll(workers)[t] ==
            if t < 2 * workers then Call(0, Name(t), Load, true) else Call(1, Name(t - 2 * workers), Load, true)
  {
  }

  lemma TwoLoadAllDistinct(workers: nat, t: nat, u: nat)
    requires t < 4 * workers && u < 4 * workers
    requires TwoLoadAll(workers)[t].key == TwoLoadAll(workers)[u].key
    ensures t == u || t == u + 2 * workers || u == t + 2 * workers
    ensures t != u ==> TwoLoadAll(workers)[t].pid != TwoLoadAll(workers)[u].pid
  {
    hide TwoLoadAll;
    TwoLoadAllCall(workers, t);
    TwoLoadAllCall(workers, u);
  }

  /** The first process holds the first half of the files and the second the rest. */
  function HoldHalf(n: nat): set<nat> {
    Range(0, n) + Range(3 * n, 4 * n)
  }

  lemma HalfIsDistinct(n: nat)
    ensures var prog, hold, wait := TwoLoadAll(n), HoldHalf(n), Range(n, 3 * n);
            && Calls(prog, hold) && Calls(prog, wait)
            && DistinctKeys(prog, hold) && DistinctLocks(prog, hold + wait)
  {
    hide TwoLoadAll, Range, Name;
    var prog, hold, wait := TwoLoadAll(n), HoldHalf(n), Range(n, 3 * n);
    forall t, u | t in hold && u in hold && t != u ensures prog[t].key != prog[u].key {
      if prog[t].key == prog[u].key {
        TwoLoadAllDistinct(n, t, u);
      }
    }
    forall t, u | t in hold + wait && u in hold + wait && t != u && prog[t].key == prog[u].key
      ensures prog[t].pid != prog[u].pid
    {
      TwoLoadAllDistinct(n, t, u);
    }
  }

  lemma OtherHalfWaits(n: nat)
    requires Calls(TwoLoadAll(n), HoldHalf(n)) && Calls(TwoLoadAll(n), Range(n, 3 * n))
    ensures WaitOnHeld(TwoLoadAll(n), HoldHalf(n), Range(n, 3 * n))
  {
    hide TwoLoadAll, Range, Name;
    var prog, hold := TwoLoadAll(n), HoldHalf(n);
    forall w <- Range(n, 3 * n) ensures prog[w].blocking && FileIsHeld(prog, hold, w) {
      var h := if w < 2 * n then w + 2 * n else w - 2 * n;
      TwoLoadAllCall(n, w);
      TwoLoadAllCall(n, h);
      assert h in hold && prog[h].key == prog[w].key;
    }
  }

  lemma OtherHalfFillsThePools(n: nat)
    requires Calls(TwoLoadAll(n), HoldHalf(n)) && Calls(TwoLoadAll(n), Range(n, 3 * n))
    ensures NoWorkerLeft(TwoLoadAll(n), n, HoldHalf(n), Range(n, 3 * n))
  {
    hide TwoLoadAll, Range, Name;
    var prog, wait := TwoLoadAll(n), Range(n, 3 * n);
    forall t | 0 <= t < 4 * n ensures prog[t].pid == if t < 2 * n then 0 else 1 {
      TwoLoadAllCall(n, t);
    }
    assert Of(prog, wait, 0) == Range(n, 2 * n);
    assert Of(prog, wait, 1) == Range(2 * n, 3 * n);
  }

  /** No pool is large enough for every program: of any size, two processes that load the same files,
      twice as many as either has workers, can reach a deadlock, whatever the files contain. */
  lemma TooFewWorkersDeadlock(workers: nat, files: map<string, Contents>)
    requires workers >= 1
    ensures exists run :: RunsIntoDeadlock(TwoLoadAll(workers), workers, files, run)
  {
    hide RunsIntoDeadlock, TwoLoadAll, Range, DistinctKeys, DistinctLocks, WaitOnHeld, NoWorkerLeft;
    HalfIsDistinct(workers);
    OtherHalfWaits(workers);
    OtherHalfFillsThePools(workers);
    assert 0 in HoldHalf(workers);
    assert Jams(TwoLoadAll(workers), workers, HoldHalf(workers), Range(workers, 3 * workers));
    DeadlockExactlyWhenCanJam(TwoLoadAll(workers), workers, files);
  }
}
