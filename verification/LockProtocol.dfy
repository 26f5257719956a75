/** Save, load and reset calls from any number of tasks in any number of processes. Each takes
    its process's in-memory lock for the key, then the key's file lock, reads, writes, and
    releases in reverse order. The file lock is taken and released on the process's bounded pool
    of worker threads. A write may fail, and a task may be cancelled or die with its process. */
module LockProtocol {
  import opened Wire
  import opened Disk
  import opened StateStore

  datatype Op = Save(state: ModemState) | Load | Reset

  datatype Reply = Saved | Loaded(result: Outcome<LoadResult>) | WasReset(done: Outcome<()>) | Raised

  /** What a call cut short by an error, a cancellation or a death leaves of the file: the old
      contents, none, or the new ones. None is left only by a load that has moved an old file
      aside. */
  datatype Leaves = Old | Nothing | New

  datatype Fate = Done | CutShort(leaves: Leaves)

  /** One call: who makes it, on which file, and whether it waits for the file lock. */
  datatype Call = Call(pid: nat, key: string, op: Op, blocking: bool)

  type Contents = Option<Blob>

  /** A call on its own, without faults. */
  function Serial(op: Op, file: Contents): (Contents, Reply) {
    match op
    case Save(state) => (Some(FileOf(state)), Saved)
    case Load =>
      (if NeedsDowngrade(file) then Some(FileOf(FreshState())) else file, Loaded(LoadOf(file)))
    case Reset =>
      match ResetOf(file)
      case Ok(blob) => (Some(blob), WasReset(Ok(())))
      case Err(e) => (file, WasReset(Err(e)))
  }

  /** A call on its own, to its end or cut short. */
  function SerialWith(op: Op, file: Contents, fate: Fate): (Contents, Reply) {
    match fate
    case Done => Serial(op, file)
    case CutShort(Old) => (file, Raised)
    case CutShort(Nothing) => (None, Raised)
    case CutShort(New) => (Serial(op, file).0, Raised)
  }

  /** `WaitsInWorker` occupies a worker thread of the process until the file lock is free.
      `Fetched` holds the contents read; `MovedAside` is the moment in a downgrade at which the
      old file has been renamed and the default not yet written. `Dead` keeps the reply of a call
      that had committed. */
  datatype Phase =
    | Waiting
    | HasAsyncLock
    | WaitsInWorker
    | HasBoth
    | Fetched(local: Contents)
    | MovedAside(local: Contents)
    | Committed(reply: Reply)
    | DroppedFlock(reply: Reply)
    | Finished(reply: Reply)
    | Refused
    | Dead(left: Option<Reply>)

  datatype Entry = Entry(task: nat, call: Call, fate: Fate, reply: Reply)

  /** `workers` is the size of every process's thread pool; `log` lists the calls in the order of
      their commits. */
  datatype Sys = Sys(
    workers: nat,
    phase: seq<Phase>,
    asyncOwner: map<(nat, string), nat>,
    flockOwner: map<string, nat>,
    files: map<string, Contents>,
    log: seq<Entry>)

  datatype Move =
    | TakeAsync | TakeFlock | Refuse | Block | Granted
    | Fetch | MoveAside | Commit(fate: Fate) | DropFlock | DropAsync | Abandon

  function FileAt(files: map<string, Contents>, key: string): Contents {
    if key in files then files[key] else None
  }

  predicate HoldsAsync(p: Phase) {
    !p.Waiting? && !p.Finished? && !p.Refused? && !p.Dead?
  }

  predicate HoldsFlock(p: Phase) {
    p.HasBoth? || p.Fetched? || p.MovedAside? || p.Committed?
  }

  predicate Over(p: Phase) {
    p.Finished? || p.Refused? || p.Dead?
  }

  /** The tasks of a process that occupy a worker thread. */
  function Busy(prog: seq<Call>, s: Sys, pid: nat): set<nat>
    requires |s.phase| == |prog|
  {
    set u | 0 <= u < |prog| && prog[u].pid == pid && s.phase[u].WaitsInWorker?
  }

  predicate FreeWorker(prog: seq<Call>, s: Sys, pid: nat)
    requires |s.phase| == |prog|
  {
    |Busy(prog, s, pid)| < s.workers
  }

  /** A load of an old file commits only after moving it aside, and alone can leave nothing. */
  predicate MayCommit(op: Op, p: Phase, fate: Fate) {
    if p.MovedAside? then fate != CutShort(Old)
    else
      p.Fetched? && (if op.Load? && NeedsDowngrade(p.local) then fate == CutShort(Old) else fate != CutShort(Nothing))
  }

  predicate Enabled(prog: seq<Call>, s: Sys, t: nat, m: Move)
    requires |s.phase| == |prog|
  {
    t < |prog| &&
    match m
    case TakeAsync => s.phase[t].Waiting? && (prog[t].pid, prog[t].key) !in s.asyncOwner
    case TakeFlock =>
      s.phase[t].HasAsyncLock? && prog[t].key !in s.flockOwner && FreeWorker(prog, s, prog[t].pid)
    case Refuse =>
      && s.phase[t].HasAsyncLock? && prog[t].key in s.flockOwner && !prog[t].blocking
      && FreeWorker(prog, s, prog[t].pid)
    case Block =>
      && s.phase[t].HasAsyncLock? && prog[t].key in s.flockOwner && prog[t].blocking
      && FreeWorker(prog, s, prog[t].pid)
    case Granted => s.phase[t].WaitsInWorker? && prog[t].key !in s.flockOwner
    case Fetch => s.phase[t].HasBoth?
    case MoveAside => s.phase[t].Fetched? && prog[t].op.Load? && NeedsDowngrade(s.phase[t].local)
    case Commit(fate) => MayCommit(prog[t].op, s.phase[t], fate)
    case DropFlock => s.phase[t].Committed? && FreeWorker(prog, s, prog[t].pid)
    case DropAsync => s.phase[t].DroppedFlock?
    case Abandon => !Over(s.phase[t]) && !s.phase[t].MovedAside?
  }

  function Fire(prog: seq<Call>, s: Sys, t: nat, m: Move): Sys
    requires |s.phase| == |prog| && Enabled(prog, s, t, m)
  {
    var c := prog[t];
    var lock := (c.pid, c.key);
    match m
    case TakeAsync => s.(asyncOwner := s.asyncOwner[lock := t], phase := s.phase[t := HasAsyncLock])
    case TakeFlock => s.(flockOwner := s.flockOwner[c.key := t], phase := s.phase[t := HasBoth])
    case Refuse => s.(asyncOwner := s.asyncOwner - {lock}, phase := s.phase[t := Refused])
    case Block => s.(phase := s.phase[t := WaitsInWorker])
    case Granted => s.(flockOwner := s.flockOwner[c.key := t], phase := s.phase[t := HasBoth])
    case Fetch => s.(phase := s.phase[t := Fetched(FileAt(s.files, c.key))])
    case MoveAside => s.(files := s.files[c.key := None], phase := s.phase[t := MovedAside(s.phase[t].local)])
    case Commit(fate) =>
      var (file, reply) := SerialWith(c.op, s.phase[t].local, fate);
      s.(files := s.files[c.key := file], phase := s.phase[t := Committed(reply)],
         log := s.log + [Entry(t, c, fate, reply)])
    case DropFlock => s.(flockOwner := s.flockOwner - {c.key}, phase := s.phase[t := DroppedFlock(s.phase[t].reply)])
    case DropAsync => s.(asyncOwner := s.asyncOwner - {lock}, phase := s.phase[t := Finished(s.phase[t].reply)])
    case Abandon =>
      s.(asyncOwner := if HoldsAsync(s.phase[t]) then s.asyncOwner - {lock} else s.asyncOwner,
         flockOwner := if HoldsFlock(s.phase[t]) then s.flockOwner - {c.key} else s.flockOwner,
         phase := s.phase[t := Dead(LoggedReply(s.phase[t]))])
  }

  function Start(prog: seq<Call>, workers: nat, files: map<string, Contents>): Sys {
    Sys(workers, seq(|prog|, _ => Waiting), map[], map[], files, [])
  }

  /** One enabled move leads from `s` to `e`. */
  ghost predicate Step(prog: seq<Call>, s: Sys, e: Sys)
    requires |s.phase| == |prog|
  {
    exists t: nat, m :: Enabled(prog, s, t, m) && e == Fire(prog, s, t, m)
  }

  /** A run: consecutive states joined by enabled moves, in any interleaving. */
  ghost predicate IsRun(prog: seq<Call>, files: map<string, Contents>, run: seq<Sys>) {
    && |run| > 0 && run[0] == Start(prog, run[0].workers, files)
    && (forall i | 0 <= i < |run| :: |run[i].phase| == |prog|)
    && (forall i | 0 <= i < |run| - 1 :: Step(prog, run[i], run[i + 1]))
  }

  // ---------------------------------------------------------------- the sequential reference

  /** The file after running the logged calls of its key one after another. */
  function Replay(files: map<string, Contents>, log: seq<Entry>, key: string): Contents {
    if log == [] then FileAt(files, key)
    else
      var before := Replay(files, log[..|log| - 1], key);
      var e := log[|log| - 1];
      if e.call.key == key then SerialWith(e.call.op, before, e.fate).0 else before
  }

  /** Every logged reply is the one the sequential order gives. */
  predicate Legal(files: map<string, Contents>, log: seq<Entry>) {
    log == [] || (var e := log[|log| - 1];
                  Legal(files, log[..|log| - 1])
                  && e.reply == SerialWith(e.call.op, Replay(files, log[..|log| - 1], e.call.key), e.fate).1)
  }

  function LoggedReply(p: Phase): Option<Reply> {
    if p.Committed? || p.DroppedFlock? || p.Finished? then Some(p.reply)
    else if p.Dead? then p.left else None
  }

  /** A lock table agrees with who holds what, in both directions; `name[t]` is the lock task
      `t` uses. */
  ghost predicate Agree<L(!new)>(name: seq<L>, hold: seq<bool>, owner: map<L, nat>) {
    && |hold| == |name|
    && (forall t | 0 <= t < |name| && hold[t] :: name[t] in owner && owner[name[t]] == t)
    && (forall l <- owner :: owner[l] < |name| && hold[owner[l]] && name[owner[l]] == l)
  }

  lemma AcquireAgrees<L(!new)>(name: seq<L>, hold: seq<bool>, owner: map<L, nat>, t: nat)
    requires Agree(name, hold, owner) && t < |name| && name[t] !in owner
    ensures Agree(name, hold[t := true], owner[name[t] := t])
  {
  }

  lemma ReleaseAgrees<L(!new)>(name: seq<L>, hold: seq<bool>, owner: map<L, nat>, t: nat)
    requires Agree(name, hold, owner) && t < |name| && hold[t]
    ensures Agree(name, hold[t := false], owner - {name[t]})
  {
    forall u | 0 <= u < |name| && hold[t := false][u]
      ensures name[u] in owner - {name[t]} && (owner - {name[t]})[name[u]] == u
    {
      assert owner[name[u]] == u && owner[name[t]] == t;
    }
  }

  function AsyncNames(prog: seq<Call>): seq<(nat, string)> {
    seq(|prog|, i requires 0 <= i < |prog| => (prog[i].pid, prog[i].key))
  }

  function FlockNames(prog: seq<Call>): seq<string> {
    seq(|prog|, i requires 0 <= i < |prog| => prog[i].key)
  }

  function AsyncHolds(phase: seq<Phase>): seq<bool> {
    seq(|phase|, i requires 0 <= i < |phase| => HoldsAsync(phase[i]))
  }

  function FlockHolds(phase: seq<Phase>): seq<bool> {
    seq(|phase|, i requires 0 <= i < |phase| => HoldsFlock(phase[i]))
  }

  ghost predicate LocksAgree(prog: seq<Call>, s: Sys) {
    && |s.phase| == |prog|
    && Agree(AsyncNames(prog), AsyncHolds(s.phase), s.asyncOwner)
    && Agree(FlockNames(prog), FlockHolds(s.phase), s.flockOwner)
  }

  /** Absent while its holder has moved it aside, otherwise the sequential replay's contents. */
  ghost function ExpectedFile(files: map<string, Contents>, s: Sys, key: string): Contents {
    if key in s.flockOwner && s.flockOwner[key] < |s.phase| && s.phase[s.flockOwner[key]].MovedAside? then None
    else Replay(files, s.log, key)
  }

  /** Files and held copies are those of the log's sequential replay. */
  ghost predicate FilesAgree(prog: seq<Call>, files: map<string, Contents>, s: Sys)
    requires |s.phase| == |prog|
  {
    && (forall t | 0 <= t < |prog| && (s.phase[t].Fetched? || s.phase[t].MovedAside?) ::
          s.phase[t].local == Replay(files, s.log, prog[t].key))
    && (forall k :: FileAt(s.files, k) == ExpectedFile(files, s, k))
  }

  /** A task is in the log, with its reply, exactly when it has committed. */
  ghost predicate LogAgrees(prog: seq<Call>, s: Sys)
    requires |s.phase| == |prog|
  {
    && (forall e <- s.log :: e.task < |prog| && e.call == prog[e.task] && LoggedReply(s.phase[e.task]) == Some(e.reply))
    && (forall t | 0 <= t < |prog| && LoggedReply(s.phase[t]).Some? ::
          exists fate :: Entry(t, prog[t], fate, LoggedReply(s.phase[t]).value) in s.log)
    && (forall i, j | 0 <= i < j < |s.log| :: s.log[i].task != s.log[j].task)
  }

  ghost predicate Inv(prog: seq<Call>, files: map<string, Contents>, s: Sys) {
    LocksAgree(prog, s) && FilesAgree(prog, files, s) && LogAgrees(prog, s) && Legal(files, s.log)
  }

  // ---------------------------------------------------------------- every step keeps it

  lemma StartHoldsInv(prog: seq<Call>, files: map<string, Contents>)
    ensures forall workers :: Inv(prog, files, Start(prog, workers, files))
  {
  }

  lemma AsyncStep(prog: seq<Call>, s: Sys, t: nat, m: Move)
    requires LocksAgree(prog, s) && Enabled(prog, s, t, m)
    ensures Agree(AsyncNames(prog), AsyncHolds(Fire(prog, s, t, m).phase), Fire(prog, s, t, m).asyncOwner)
  {
    hide NeedsDowngrade, SerialWith, Agree, FreeWorker, FlockHolds;
    var e, names, holds := Fire(prog, s, t, m), AsyncNames(prog), AsyncHolds(s.phase);
    assert AsyncHolds(e.phase) == holds[t := HoldsAsync(e.phase[t])];
    if m.TakeAsync? {
      AcquireAgrees(names, holds, s.asyncOwner, t);
    } else if m.Refuse? || m.DropAsync? || (m.Abandon? && HoldsAsync(s.phase[t])) {
      ReleaseAgrees(names, holds, s.asyncOwner, t);
    } else {
      assert holds[t := holds[t]] == holds;
    }
  }

  lemma FlockStep(prog: seq<Call>, s: Sys, t: nat, m: Move)
    requires LocksAgree(prog, s) && Enabled(prog, s, t, m)
    ensures Agree(FlockNames(prog), FlockHolds(Fire(prog, s, t, m).phase), Fire(prog, s, t, m).flockOwner)
  {
    hide NeedsDowngrade, SerialWith, Agree, FreeWorker, AsyncHolds;
    var e, names, holds := Fire(prog, s, t, m), FlockNames(prog), FlockHolds(s.phase);
    assert FlockHolds(e.phase) == holds[t := HoldsFlock(e.phase[t])];
    if m.TakeFlock? || m.Granted? {
      AcquireAgrees(names, holds, s.flockOwner, t);
    } else if m.DropFlock? || (m.Abandon? && HoldsFlock(s.phase[t])) {
      ReleaseAgrees(names, holds, s.flockOwner, t);
    } else {
      assert holds[t := holds[t]] == holds;
    }
  }

  lemma LocksStep(prog: seq<Call>, s: Sys, t: nat, m: Move)
    requires LocksAgree(prog, s) && Enabled(prog, s, t, m)
    ensures LocksAgree(prog, Fire(prog, s, t, m))
  {
    hide Fire, Enabled, Agree, Remaining, LoggedReply;
    AsyncStep(prog, s, t, m);
    FlockStep(prog, s, t, m);
    PhaseStep(prog, s, t, m);
  }

  lemma FlockOwnerIs(prog: seq<Call>, s: Sys, t: nat)
    requires LocksAgree(prog, s) && t < |prog|
    ensures HoldsFlock(s.phase[t]) <==> prog[t].key in s.flockOwner && s.flockOwner[prog[t].key] == t
  {
    assert FlockHolds(s.phase)[t] == HoldsFlock(s.phase[t]) && FlockNames(prog)[t] == prog[t].key;
  }

  lemma AsyncOwnerIs(prog: seq<Call>, s: Sys, t: nat)
    requires LocksAgree(prog, s) && t < |prog| && HoldsAsync(s.phase[t])
    ensures (prog[t].pid, prog[t].key) in s.asyncOwner && s.asyncOwner[(prog[t].pid, prog[t].key)] == t
  {
    assert AsyncHolds(s.phase)[t] && AsyncNames(prog)[t] == (prog[t].pid, prog[t].key);
  }

  lemma FlockOwnerHolds(prog: seq<Call>, s: Sys, key: string)
    requires LocksAgree(prog, s) && key in s.flockOwner
    ensures var t := s.flockOwner[key]; t < |prog| && HoldsFlock(s.phase[t]) && prog[t].key == key
  {
    var t := s.flockOwner[key];
    assert FlockHolds(s.phase)[t] == HoldsFlock(s.phase[t]) && FlockNames(prog)[t] == prog[t].key;
  }

  lemma AsyncOwnerHolds(prog: seq<Call>, s: Sys, l: (nat, string))
    requires LocksAgree(prog, s) && l in s.asyncOwner
    ensures var t := s.asyncOwner[l]; t < |prog| && HoldsAsync(s.phase[t]) && (prog[t].pid, prog[t].key) == l
  {
    var t := s.asyncOwner[l];
    assert AsyncHolds(s.phase)[t] == HoldsAsync(s.phase[t]) && AsyncNames(prog)[t] == (prog[t].pid, prog[t].key);
  }

  lemma ReplayStep(files: map<string, Contents>, log: seq<Entry>, e: Entry, key: string)
    ensures Replay(files, log + [e], key) ==
            if e.call.key == key then SerialWith(e.call.op, Replay(files, log, key), e.fate).0
            else Replay(files, log, key)
    ensures Legal(files, log + [e]) <==>
              Legal(files, log) && e.reply == SerialWith(e.call.op, Replay(files, log, e.call.key), e.fate).1
  {
    assert (log + [e])[..|log|] == log;
  }

  /** The file of every key after a step. */
  lemma CommitFileAt(prog: seq<Call>, files: map<string, Contents>, s: Sys, t: nat, fate: Fate, k: string)
    requires LocksAgree(prog, s) && FilesAgree(prog, files, s) && Enabled(prog, s, t, Commit(fate))
    ensures var e := Fire(prog, s, t, Commit(fate)); FileAt(e.files, k) == ExpectedFile(files, e, k)
  {
    hide NeedsDowngrade, SerialWith, Agree;
    FlockOwnerIs(prog, s, t);
    if k in s.flockOwner {
      FlockOwnerHolds(prog, s, k);
    }
    var e := Fire(prog, s, t, Commit(fate));
    assert FileAt(s.files, k) == ExpectedFile(files, s, k);
    assert s.phase[t].local == Replay(files, s.log, prog[t].key);
    var done := SerialWith(prog[t].op, s.phase[t].local, fate);
    ReplayStep(files, s.log, Entry(t, prog[t], fate, done.1), k);
    assert k == prog[t].key ==> FileAt(e.files, k) == done.0;
    assert e.phase == s.phase[t := e.phase[t]];
  }

  lemma FileStepAt(prog: seq<Call>, files: map<string, Contents>, s: Sys, t: nat, m: Move, k: string)
    requires LocksAgree(prog, s) && FilesAgree(prog, files, s) && Enabled(prog, s, t, m)
    ensures FileAt(Fire(prog, s, t, m).files, k) == ExpectedFile(files, Fire(prog, s, t, m), k)
  {
    hide NeedsDowngrade, SerialWith, Agree, Replay, FreeWorker;
    if m.Commit? {
      CommitFileAt(prog, files, s, t, m.fate, k);
    } else {
      FlockOwnerIs(prog, s, t);
      if k in s.flockOwner {
        FlockOwnerHolds(prog, s, k);
      }
      var e := Fire(prog, s, t, m);
      assert FileAt(s.files, k) == ExpectedFile(files, s, k);
      assert e.phase == s.phase[t := e.phase[t]];
    }
  }

  /** The copy a task holds after a step. */
  lemma LocalStepAt(prog: seq<Call>, files: map<string, Contents>, s: Sys, t: nat, m: Move, u: nat)
    requires LocksAgree(prog, s) && FilesAgree(prog, files, s) && Enabled(prog, s, t, m) && u < |prog|
    ensures var e := Fire(prog, s, t, m);
            e.phase[u].Fetched? || e.phase[u].MovedAside? ==> e.phase[u].local == Replay(files, e.log, prog[u].key)
  {
    hide NeedsDowngrade, SerialWith, Agree, FreeWorker;
    FlockOwnerIs(prog, s, t);
    FlockOwnerIs(prog, s, u);
    if m.Commit? {
      ReplayStep(files, s.log, Entry(t, prog[t], m.fate, SerialWith(prog[t].op, s.phase[t].local, m.fate).1),
                 prog[u].key);
    }
    if m.Fetch? && u == t {
      assert FileAt(s.files, prog[t].key) == ExpectedFile(files, s, prog[t].key);
    }
  }

  lemma FilesStep(prog: seq<Call>, files: map<string, Contents>, s: Sys, t: nat, m: Move)
    requires LocksAgree(prog, s) && FilesAgree(prog, files, s) && Enabled(prog, s, t, m)
    ensures FilesAgree(prog, files, Fire(prog, s, t, m))
  {
    hide Fire, ExpectedFile, Agree;
    var e := Fire(prog, s, t, m);
    SamePhaseCount(prog, s, t, m);
    forall k ensures FileAt(e.files, k) == ExpectedFile(files, e, k) {
      FileStepAt(prog, files, s, t, m, k);
    }
    forall u: nat | u < |prog| && (e.phase[u].Fetched? || e.phase[u].MovedAside?)
      ensures e.phase[u].local == Replay(files, e.log, prog[u].key)
    {
      LocalStepAt(prog, files, s, t, m, u);
    }
  }

  lemma SamePhaseCount(prog: seq<Call>, s: Sys, t: nat, m: Move)
    requires |s.phase| == |prog| && Enabled(prog, s, t, m)
    ensures |Fire(prog, s, t, m).phase| == |prog|
  {
  }

  /** What a step does to one task's phase. */
  lemma PhaseStep(prog: seq<Call>, s: Sys, t: nat, m: Move)
    requires |s.phase| == |prog| && Enabled(prog, s, t, m)
    ensures var e := Fire(prog, s, t, m);
            && t < |prog| && e.phase == s.phase[t := e.phase[t]]
            && Remaining(e.phase[t]) < Remaining(s.phase[t])
            && (!m.Commit? ==> e.log == s.log && LoggedReply(e.phase[t]) == LoggedReply(s.phase[t]))
            && (m.Commit? ==> LoggedReply(s.phase[t]).None? && LoggedReply(e.phase[t]).Some?
                              && e.log == s.log + [Entry(t, prog[t], m.fate, LoggedReply(e.phase[t]).value)])
            && (e.phase[t].Refused? ==> !prog[t].blocking)
            && (e.phase[t].Dead? ==> m.Abandon?) && e.workers == s.workers
  {
    hide NeedsDowngrade, SerialWith, FreeWorker;
  }

  lemma LogStep(prog: seq<Call>, files: map<string, Contents>, s: Sys, t: nat, m: Move)
    requires Inv(prog, files, s) && Enabled(prog, s, t, m)
    ensures LogAgrees(prog, Fire(prog, s, t, m))
  {
    hide Enabled, Fire, Agree, FilesAgree, Legal, Remaining;
    PhaseStep(prog, s, t, m);
    var e := Fire(prog, s, t, m);
    if m.Commit? {
      forall x <- s.log ensures x.task != t && LoggedReply(e.phase[x.task]) == Some(x.reply) {}
      assert e.log[|s.log|] in e.log;
      forall i, j | 0 <= i < j < |e.log| ensures e.log[i].task != e.log[j].task {
        assert s.log[i] in s.log;
      }
    }
  }

  lemma LegalStep(prog: seq<Call>, files: map<string, Contents>, s: Sys, t: nat, m: Move)
    requires Inv(prog, files, s) && Enabled(prog, s, t, m)
    ensures Legal(files, Fire(prog, s, t, m).log)
  {
    hide NeedsDowngrade, SerialWith, Agree, LogAgrees, FreeWorker;
    if m.Commit? {
      ReplayStep(files, s.log, Entry(t, prog[t], m.fate, SerialWith(prog[t].op, s.phase[t].local, m.fate).1),
                 prog[t].key);
    }
  }

  lemma StepKeepsInv(prog: seq<Call>, files: map<string, Contents>, s: Sys, t: nat, m: Move)
    requires Inv(prog, files, s) && Enabled(prog, s, t, m)
    ensures Inv(prog, files, Fire(prog, s, t, m)) && s.log <= Fire(prog, s, t, m).log
  {
    hide Fire, Enabled, Agree, FilesAgree, LogAgrees, Legal;
    LocksStep(prog, s, t, m);
    FilesStep(prog, files, s, t, m);
    LogStep(prog, files, s, t, m);
    LegalStep(prog, files, s, t, m);
    PhaseStep(prog, s, t, m);
  }

  lemma {:induction false} RunKeepsInv(prog: seq<Call>, files: map<string, Contents>, run: seq<Sys>, i: nat)
    requires IsRun(prog, files, run) && i < |run|
    ensures Inv(prog, files, run[i])
  {
    hide Enabled, Fire, Inv;
    if i == 0 {
      StartHoldsInv(prog, files);
    } else {
      RunKeepsInv(prog, files, run, i - 1);
      assert Step(prog, run[i - 1], run[i - 1 + 1]);
      var t: nat, m :| Enabled(prog, run[i - 1], t, m) && run[i] == Fire(prog, run[i - 1], t, m);
      StepKeepsInv(prog, files, run[i - 1], t, m);
    }
  }

  // ---------------------------------------------------------------- theorems

  /** Mutual exclusion: in every state of every run at most one task holds a key's file lock. */
  lemma MutualExclusion(prog: seq<Call>, files: map<string, Contents>, run: seq<Sys>, i: nat, t: nat, u: nat)
    requires IsRun(prog, files, run) && i < |run| && t < |prog| && u < |prog|
    requires HoldsFlock(run[i].phase[t]) && HoldsFlock(run[i].phase[u]) && prog[t].key == prog[u].key
    ensures t == u
  {
    RunKeepsInv(prog, files, run, i);
    FlockOwnerIs(prog, run[i], t);
    FlockOwnerIs(prog, run[i], u);
  }

  /** Linearizability. The commit log only grows, a task enters it while its call is under way,
      once, with the reply it returns; running the logged calls one after another, each to its end
      or cut short as it was, gives exactly those replies and, once no task holds a lock on it,
      exactly each file's contents. A call is cut short only by an error or a death. */
  lemma CallsAreLinearizable(prog: seq<Call>, files: map<string, Contents>, run: seq<Sys>, i: nat)
    requires IsRun(prog, files, run) && i < |run|
    ensures var s := run[i];
            && Legal(files, s.log)
            && (forall a, b | 0 <= a < b < |s.log| :: s.log[a].task != s.log[b].task)
            && (forall t | 0 <= t < |prog| && s.phase[t].Finished? ::
                  exists fate :: Entry(t, prog[t], fate, s.phase[t].reply) in s.log)
            && (forall e <- s.log :: e.task < |prog| && e.call == prog[e.task] && !s.phase[e.task].Waiting?
                                     && !s.phase[e.task].Refused?)
            && (forall k | k !in s.flockOwner :: FileAt(s.files, k) == Replay(files, s.log, k))
  {
    hide Enabled, Fire, Legal, Replay;
    RunKeepsInv(prog, files, run, i);
  }

  /** What one entry of the log says: a call that was not cut short replied what the sequential order
      gives it and left that file; one cut short raised, and left the file as it was, as it would have
      been, or, a load that had moved an old file aside, absent. */
  lemma RepliesAreSerialOrRaised(prog: seq<Call>, files: map<string, Contents>, run: seq<Sys>, i: nat, k: nat)
    requires IsRun(prog, files, run) && i < |run| && k < |run[i].log|
    ensures var log := run[i].log;
            var e := log[k];
            var was, now := Replay(files, log[..k], e.call.key), Replay(files, log[..k + 1], e.call.key);
            match e.fate
            case Done => e.reply == Serial(e.call.op, was).1 && now == Serial(e.call.op, was).0
            case CutShort(Old) => e.reply == Raised && now == was
            case CutShort(New) => e.reply == Raised && now == Serial(e.call.op, was).0
            case CutShort(Nothing) => e.reply == Raised && now == None
  {
    hide Enabled, Fire, Serial, LocksAgree, FilesAgree, LogAgrees;
    RunKeepsInv(prog, files, run, i);
    LegalPrefix(files, run[i].log, k + 1);
    assert run[i].log[..k + 1] == run[i].log[..k] + [run[i].log[k]];
    ReplayStep(files, run[i].log[..k], run[i].log[k], run[i].log[k].call.key);
  }

  lemma {:induction false} LegalPrefix(files: map<string, Contents>, log: seq<Entry>, n: nat)
    requires Legal(files, log) && n <= |log|
    ensures Legal(files, log[..n])
  {
    if n < |log| {
      LegalPrefix(files, log[..|log| - 1], n);
      assert log[..|log| - 1][..n] == log[..n];
    } else {
      assert log[..n] == log;
    }
  }

  /** The ways a call that has read `was` may end. Having read only, it leaves the file alone if cut
      short; unless it is a load of an old file it may also have done its work, and then finish or
      still raise. A load that has moved an old file aside leaves it absent or replaced. */
  lemma WaysToEnd(op: Op, was: Contents, fate: Fate)
    ensures var outdated := op.Load? && NeedsDowngrade(was);
            && (MayCommit(op, Fetched(was), fate) <==>
                  fate in (if outdated then {CutShort(Old)} else {Done, CutShort(Old), CutShort(New)}))
            && (MayCommit(op, MovedAside(was), fate) <==> fate in {Done, CutShort(Nothing), CutShort(New)})
  {
    match fate {
      case Done =>
      case CutShort(Old) =>
      case CutShort(New) =>
      case CutShort(Nothing) =>
    }
  }

  /** A call takes a file lock, is refused it, starts to wait for it, and gives it back only on a
      worker of its process that none of its waiting calls occupies. */
  lemma LockStepsNeedAWorker(prog: seq<Call>, s: Sys, t: nat, m: Move)
    requires |s.phase| == |prog| && Enabled(prog, s, t, m)
    ensures m in {TakeFlock, Refuse, Block, DropFlock} ==>
              |set u | 0 <= u < |prog| && prog[u].pid == prog[t].pid && s.phase[u].WaitsInWorker?| < s.workers
  {
    hide NeedsDowngrade;
    assert (set u | 0 <= u < |prog| && prog[u].pid == prog[t].pid && s.phase[u].WaitsInWorker?) ==
           Busy(prog, s, prog[t].pid);
  }

  /** A call can be cancelled or die with its process at any moment but that between renaming an old
      file and writing the default. That frees exactly the locks it held, and leaves the files, the
      log and every other call as they are. */
  lemma DeathFreesItsLocks(prog: seq<Call>, s: Sys, t: nat)
    requires LocksAgree(prog, s) && t < |prog| && !Over(s.phase[t])
    ensures Enabled(prog, s, t, Abandon) <==> !s.phase[t].MovedAside?
    ensures !s.phase[t].MovedAside? ==>
              var e := Fire(prog, s, t, Abandon);
              && (forall l :: l in e.asyncOwner <==> l in s.asyncOwner && s.asyncOwner[l] != t)
              && (forall k :: k in e.flockOwner <==> k in s.flockOwner && s.flockOwner[k] != t)
              && (forall l <- e.asyncOwner :: e.asyncOwner[l] == s.asyncOwner[l])
              && (forall k <- e.flockOwner :: e.flockOwner[k] == s.flockOwner[k])
              && e.files == s.files && e.log == s.log && e.workers == s.workers && |e.phase| == |s.phase|
              && e.phase[t].Dead? && (forall u | 0 <= u < |prog| && u != t :: e.phase[u] == s.phase[u])
  {
    hide NeedsDowngrade, Agree, SerialWith;
    if !s.phase[t].MovedAside? {
      LocksStep(prog, s, t, Abandon);
      FlockOwnerIs(prog, s, t);
      if HoldsAsync(s.phase[t]) {
        AsyncOwnerIs(prog, s, t);
      }
      forall l <- s.asyncOwner
        ensures s.asyncOwner[l] == t ==> l == (prog[t].pid, prog[t].key) && HoldsAsync(s.phase[t])
      {
        AsyncOwnerHolds(prog, s, l);
      }
      forall k <- s.flockOwner ensures s.flockOwner[k] == t ==> k == prog[t].key && HoldsFlock(s.phase[t]) {
        FlockOwnerHolds(prog, s, k);
      }
    }
  }

  lemma StepGrowsLog(prog: seq<Call>, s: Sys, t: nat, m: Move)
    requires |s.phase| == |prog| && Enabled(prog, s, t, m)
    ensures s.log <= Fire(prog, s, t, m).log
  {
    hide SerialWith, NeedsDowngrade;
  }

  /** An entry once committed stays where it is in the log. */
  lemma LogOnlyGrows(prog: seq<Call>, files: map<string, Contents>, run: seq<Sys>, i: nat)
    requires IsRun(prog, files, run) && i + 1 < |run|
    ensures run[i].log <= run[i + 1].log
  {
    hide Fire, Enabled;
    assert Step(prog, run[i], run[i + 1]);
    var t: nat, m :| Enabled(prog, run[i], t, m) && run[i + 1] == Fire(prog, run[i], t, m);
    StepGrowsLog(prog, run[i], t, m);
  }

  // ---------------------------------------------------------------- progress

  function Remaining(p: Phase): nat {
    match p
    case Waiting => 8
    case HasAsyncLock => 7
    case WaitsInWorker => 6
    case HasBoth => 5
    case Fetched(_) => 4
    case MovedAside(_) => 3
    case Committed(_) => 2
    case DroppedFlock(_) => 1
    case _ => 0
  }

  function Work(phases: seq<Phase>): nat {
    if phases == [] then 0 else Work(phases[..|phases| - 1]) + Remaining(phases[|phases| - 1])
  }

  lemma {:induction false} WorkUpdate(phases: seq<Phase>, t: nat, p: Phase)
    requires t < |phases|
    ensures Work(phases[t := p]) == Work(phases) - Remaining(phases[t]) + Remaining(p)
  {
    var n := |phases| - 1;
    if t < n {
      assert phases[t := p][..n] == phases[..n][t := p];
      WorkUpdate(phases[..n], t, p);
    } else {
      assert phases[t := p][..n] == phases[..n];
    }
  }

  lemma {:induction false} WorkAtStart(n: nat)
    ensures Work(seq(n, _ => Waiting)) == 8 * n
  {
    if n > 0 {
      assert seq(n, _ => Waiting)[..n - 1] == seq(n - 1, _ => Waiting);
      WorkAtStart(n - 1);
    }
  }

  lemma {:induction false} RunUsesUpWork(prog: seq<Call>, files: map<string, Contents>, run: seq<Sys>, i: nat)
    requires IsRun(prog, files, run) && i < |run|
    ensures Work(run[i].phase) + i <= 8 * |prog|
  {
    hide Enabled, Fire;
    if i == 0 {
      WorkAtStart(|prog|);
    } else {
      RunUsesUpWork(prog, files, run, i - 1);
      assert Step(prog, run[i - 1], run[i - 1 + 1]);
      var t: nat, m :| Enabled(prog, run[i - 1], t, m) && run[i] == Fire(prog, run[i - 1], t, m);
      PhaseStep(prog, run[i - 1], t, m);
      WorkUpdate(run[i - 1].phase, t, run[i].phase[t]);
    }
  }

  lemma {:induction false} WorkersStay(prog: seq<Call>, files: map<string, Contents>, run: seq<Sys>, i: nat)
    requires IsRun(prog, files, run) && i < |run|
    ensures run[i].workers == run[0].workers
  {
    hide Fire, Enabled;
    if i > 0 {
      WorkersStay(prog, files, run, i - 1);
      assert Step(prog, run[i - 1], run[i - 1 + 1]);
      var t: nat, m :| Enabled(prog, run[i - 1], t, m) && run[i] == Fire(prog, run[i - 1], t, m);
      PhaseStep(prog, run[i - 1], t, m);
    }
  }

  lemma {:induction false} BlockingNeverRefused(prog: seq<Call>, files: map<string, Contents>, run: seq<Sys>, i: nat,
                                                t: nat)
    requires IsRun(prog, files, run) && i < |run| && t < |prog| && prog[t].blocking
    ensures !run[i].phase[t].Refused?
  {
    hide Enabled, Fire;
    if i > 0 {
      BlockingNeverRefused(prog, files, run, i - 1, t);
      assert Step(prog, run[i - 1], run[i - 1 + 1]);
      var u: nat, m :| Enabled(prog, run[i - 1], u, m) && run[i] == Fire(prog, run[i - 1], u, m);
      PhaseStep(prog, run[i - 1], u, m);
    }
  }

  // ---------------------------------------------------------------- on the disk

  function AsCall(op: Op, nonce: nat, save: WriteFaults, load: LoadFaults): StoreCall {
    match op
    case Save(state) => SaveCall(state, nonce, save)
    case Load => LoadCall(load)
    case Reset => ResetCall(nonce, save)
  }

  /** What a commit does to the file is all that a call's own disk steps can be seen to do, at any
      moment at which it is cut short or over: the contents a reader then finds are those of one
      of the fates. */
  lemma DiskStepsHaveAFate(op: Op, nonce: nat, save: WriteFaults, load: LoadFaults, start: DiskState, s: DiskState)
    requires Sound(start) && MayReach(start, s, AsCall(op, nonce, save, load))
    ensures var was := TargetBlob(start);
            exists fate :: && TargetBlob(s) == SerialWith(op, was, fate).0
                           && (fate == CutShort(Nothing) ==> op.Load? && NeedsDowngrade(was))
                           && (MayCommit(op, Fetched(was), fate)
                               || (op.Load? && NeedsDowngrade(was) && MayCommit(op, MovedAside(was), fate)))
  {
    hide Sound, PossibleBlobs, Framed, Safe, TargetBlob;
    var was, now := TargetBlob(start), TargetBlob(s);
    SeenTarget(start, s, AsCall(op, nonce, save, load));
    if now == was {
      assert now == SerialWith(op, was, CutShort(Old)).0;
    } else if now == Serial(op, was).0 {
      assert now == SerialWith(op, was, CutShort(New)).0;
    } else {
      assert now == SerialWith(op, was, CutShort(Nothing)).0;
    }
  }

  lemma SeenTarget(start: DiskState, s: DiskState, call: StoreCall)
    requires MayReach(start, s, call)
    ensures var was, now := TargetBlob(start), TargetBlob(s);
            match call
            case SaveCall(state, _, _) => now in {was, Some(FileOf(state))}
            case LoadCall(_) =>
              now == was || (NeedsDowngrade(was) && now in {None, Some(FileOf(FreshState()))})
            case ResetCall(_, _) => now == was || (ResetOf(was).Ok? && now == Some(ResetOf(was).value))
  {
    hide Sound, PossibleBlobs, Framed, Safe, TargetBlob;
  }

  /** Calls one after another: a load after a save gives the saved record, a load after an accepted
      reset of a current record gives it with streak and counters cleared, and a load leaves every
      file alone but an old one, after which the next load is of a fresh record. */
  lemma SerialCallsAgree(state: ModemState, file: Contents)
    requires state.Valid()
    ensures Serial(Save(state), file) == (Some(FileOf(state)), Saved)
    ensures Serial(Load, Serial(Save(state), file).0).1 == Loaded(Ok(LoadResult(state, None)))
    ensures file == Some(FileOf(state)) ==>
              Serial(Load, Serial(Reset, file).0).1 ==
              Loaded(Ok(LoadResult(state.(healthyStreak := 0, counters := map[]), None)))
    ensures !NeedsDowngrade(file) ==> Serial(Load, file).0 == file
    ensures NeedsDowngrade(file) ==>
              Serial(Load, Serial(Load, file).0).1 == Loaded(Ok(LoadResult(FreshState(), None)))
  {
  }

  const NO_FAULTS := WriteFaults(false, false, FullWrite, false, false, false, false)

  /** The sequential reference is what the store itself does: run alone and without faults, the call
      replies with the reference's reply and leaves the reference's file. */
  method RunAlone(file: StateFile, op: Op, nonce: nat) returns (reply: Reply)
    requires file.Valid() && Temp(nonce) !in file.d.live
    modifies file
    ensures file.Valid() && TargetBlob(file.d) == Serial(op, old(TargetBlob(file.d))).0
    ensures reply == Serial(op, old(TargetBlob(file.d))).1
  {
    hide Ahead, PossibleBlobs, Sound, DowngradeState, OldBytesAtShadow, TargetBlob;
    match op {
      case Save(state) =>
        var r := file.SaveModemStateLocked(state, nonce, NO_FAULTS);
        reply := Saved;
      case Load =>
        var r := file.LoadModemState(LoadFaults(false, false, false, NO_FAULTS, nonce));
        reply := Loaded(r);
      case Reset =>
        var r := file.ResetModemStreakAndCounters(nonce, NO_FAULTS);
        reply := if r.Ok? then WasReset(Ok(())) else WasReset(Err(r.error));
    }
  }

  // ---------------------------------------------------------------- the lock objects

  class Lock {
    constructor () {}
  }

  /** The per-modem lock table: one lock per path for ever, different paths never sharing one. */
  class PerModemLockTable {
    var locks: map<string, Lock>

    ghost predicate Valid()
      reads this
    {
      forall p, q | p in locks && q in locks && p != q :: locks[p] != locks[q]
    }

    constructor ()
      ensures Valid() && locks == map[]
    {
      locks := map[];
    }

    method GetLock(usbPath: string) returns (lock: Lock)
      requires Valid()
      modifies this
      ensures Valid() && usbPath in locks && lock == locks[usbPath]
      ensures usbPath in old(locks) ==> locks == old(locks)
      ensures usbPath !in old(locks) ==> locks == old(locks)[usbPath := lock] && fresh(lock)
    {
      if usbPath in locks {
        return locks[usbPath];
      }
      lock := new Lock();
      locks := locks[usbPath := lock];
    }
  }

  /** Owner of a file-lock descriptor; `closed` records the descriptors handed to the kernel for
      unlocking, in order. A negative descriptor is the no-op sentinel. */
  class AsyncFlockHandle {
    var fd: Option<int>
    var closed: seq<int>

    constructor (descriptor: int)
      ensures fd == Some(descriptor) && closed == []
    {
      fd, closed := Some(descriptor), [];
    }

    /** The descriptor is closed at most once, however often this is called. */
    method Release()
      modifies this
      ensures fd == None
      ensures closed == if old(fd).Some? && old(fd).value >= 0 then old(closed) + [old(fd).value] else old(closed)
    {
      if fd.None? {
        return;
      }
      var mine := fd.value;
      fd := None;
      if mine >= 0 {
        closed := closed + [mine];
      }
    }
  }
}
