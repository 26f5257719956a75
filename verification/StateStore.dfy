/** Persistence of one modem's state file, step by step, with every system call allowed to fail
    and power allowed to go between any two of them. */
module StateStore {
  import opened Wire
  import opened Disk

  const CURRENT_SCHEMA_VERSION := 1

  datatype WriteOutcome = FullWrite | ShortWrite | WriteError

  /** Which system calls of one atomic write fail. `unlinkFails` concerns the clean-up, whose
      error is suppressed. */
  datatype WriteFaults = WriteFaults(
    directoryMissing: bool,
    openFails: bool,
    write: WriteOutcome,
    fsyncFails: bool,
    replaceFails: bool,
    unlinkFails: bool,
    directorySyncFails: bool)
  {
    predicate NoFault() {
      !directoryMissing && !openFails && write == FullWrite && !fsyncFails && !replaceFails && !directorySyncFails
    }
  }

  datatype WriteFailure = NoDirectory | TempWriteFailed | ReplaceFailed | DirectorySyncFailed

  datatype LoadFaults = LoadFaults(readFails: bool, renameFails: bool, renameSyncFails: bool, save: WriteFaults,
                                   nonce: nat)
  {
    predicate DowngradeRuns() {
      !renameFails && !renameSyncFails && save.NoFault()
    }
  }

  datatype StoreError =
    | AtomicWriteFailed(why: WriteFailure)
    | StateFileIOError | StateFileCorrupt | SchemaVersionTooNew | ValidationError | RenameFailed

  datatype Outcome<+T> = Ok(value: T) | Err(error: StoreError)

  datatype Decision = Current | Downgrade | TooNew

  function ValidateSchemaVersion(fileVersion: int): Decision {
    if fileVersion > CURRENT_SCHEMA_VERSION then TooNew
    else if fileVersion == CURRENT_SCHEMA_VERSION then Current
    else Downgrade
  }

  /** What a save writes. */
  function FileOf(state: ModemState): Blob {
    Json(Some(CURRENT_SCHEMA_VERSION), state)
  }

  /** The version a load takes a file to be of: a file without one is of version 0. */
  function FileVersion(declared: Option<int>): int {
    if declared.Some? then declared.value else 0
  }

  /** A loaded state and, after a downgrade, the version it was downgraded from. */
  datatype LoadResult = LoadResult(state: ModemState, downgradedFrom: Option<int>)

  /** What reading an undamaged disk must give, by content. */
  function LoadOf(b: Option<Blob>): Outcome<LoadResult> {
    match b
    case None => Ok(LoadResult(FreshState(), None))
    case Some(Garbage) => Err(StateFileCorrupt)
    case Some(Json(version, body)) =>
      match ValidateSchemaVersion(FileVersion(version))
      case TooNew => Err(SchemaVersionTooNew)
      case Downgrade => Ok(LoadResult(FreshState(), Some(FileVersion(version))))
      case Current => if body.Valid() then Ok(LoadResult(body, None)) else Err(ValidationError)
  }

  /** The file a reset writes over the given one. The record's own version is kept; one below 1
      fails validation, one above the current is accepted, and a file without one is taken to be of
      the current version. */
  function ResetOf(b: Option<Blob>): Outcome<Blob> {
    match b
    case None => Ok(FileOf(FreshState()))
    case Some(Garbage) => Err(StateFileCorrupt)
    case Some(Json(version, body)) =>
      var parsed := if version.Some? then version.value else CURRENT_SCHEMA_VERSION;
      if parsed >= 1 && body.Valid() then Ok(Json(Some(parsed), body.(healthyStreak := 0, counters := map[])))
      else Err(ValidationError)
  }

  /** Files that a load would set aside and a reset rewrites in place: exactly the valid ones
      without a version. */
  lemma ResetRewritesAnOldFileExactlyWhenUnversioned(b: Option<Blob>)
    ensures NeedsDowngrade(b) && ResetOf(b).Ok? <==>
            b.Some? && b.value.Json? && b.value.version.None? && b.value.body.Valid()
    ensures b.Some? && b.value.Json? && b.value.version.None? && ResetOf(b).Ok? ==>
              LoadOf(Some(ResetOf(b).value)) ==
              Ok(LoadResult(b.value.body.(healthyStreak := 0, counters := map[]), None))
  {
  }

  /** A load gives back exactly the record that was saved, every field of it. */
  lemma LoadGivesBackTheSaved(state: ModemState)
    requires state.Valid()
    ensures LoadOf(Some(FileOf(state))) == Ok(LoadResult(state, None))
  {
  }

  /** What a load makes of any contents: a missing file is a fresh record; bytes that do not parse, a
      newer version, and an invalid record of the current version are refused, each by its own error;
      a valid record of the current version is given back; anything older, valid or not, is replaced
      by a fresh record, and the version it was of is reported. */
  lemma LoadLaw(b: Option<Blob>)
    ensures var version := if b.Some? && b.value.Json? && b.value.version.Some? then b.value.version.value else 0;
            LoadOf(b) ==
            if b.None? then Ok(LoadResult(FreshState(), None))
            else if b.value.Garbage? then Err(StateFileCorrupt)
            else if version > 1 then Err(SchemaVersionTooNew)
            else if version < 1 then Ok(LoadResult(FreshState(), Some(version)))
            else
              var s := b.value.body;
              if (s.state == Recovering <==> s.recoveringLevel.Some?)
                 && (s.recoveringLevel.Some? ==> s.recoveringLevel.value >= 1)
                 && s.healthyStreak >= 0 && forall k <- s.counters :: s.counters[k] >= 0
              then Ok(LoadResult(s, None)) else Err(ValidationError)
  {
  }

  /** What a reset keeps: of every record it accepts, whatever its version, all fields but the streak
      and the counters. It accepts exactly the valid records of version 1 or above or of none, and a
      missing file, and does not lower the version. */
  lemma ResetKeepsTheRest(b: Option<Blob>)
    ensures ResetOf(b).Ok? <==>
            b.None? || (b.value.Json? && b.value.body.Valid() && (b.value.version.Some? ==> b.value.version.value >= 1))
    ensures b.Some? && ResetOf(b).Ok? ==>
              var was := b.value.body;
              var now := ModemState(was.state, was.present, was.rfBlocked, was.recoveringLevel, 0, map[],
                                    was.lastAction, was.lastByKind);
              ResetOf(b).value == Json(Some(if b.value.version.Some? then b.value.version.value else 1), now)
              && now.Valid()
    ensures b.None? ==> ResetOf(b).value == FileOf(ModemState(Unknown, true, false, None, 0, map[], None, map[]))
    ensures b.Some? && ResetOf(b).Err? ==>
              ResetOf(b).error == if b.value.Garbage? then StateFileCorrupt else ValidationError
  {
  }

  /** A finished save outlives any loss of power: the next load gives back exactly that record. */
  lemma SavedOutlivesPowerLoss(d: DiskState, state: ModemState, after: DiskState)
    requires state.Valid() && Sound(d) && d.pending == [] && TargetBlob(d) == Some(FileOf(state)) && Crashed(d, after)
    ensures Sound(after) && LoadOf(TargetBlob(after)) == Ok(LoadResult(state, None))
  {
    CrashLeavesOldOrNew(d, d, FileOf(state), after);
    CrashLeavesAPossibleBlob(d, after);
  }

  /** Power lost anywhere inside a save, from a settled target: the next load gives what it would have
      given before, or exactly the record being saved. */
  lemma CrashDuringSaveLoadsOldOrSaved(start: DiskState, s: DiskState, state: ModemState, after: DiskState)
    requires state.Valid() && Sound(start) && Untouched(start.pending, Target)
    requires Safe(start, s, FileOf(state)) && Crashed(s, after)
    ensures LoadOf(TargetBlob(after)) in {LoadOf(TargetBlob(start)), Ok(LoadResult(state, None))}
  {
    CrashLeavesOldOrNew(start, s, FileOf(state), after);
  }

  /** In every state a crash may leave, the file loads. */
  ghost predicate AllLoadable(d: DiskState) {
    forall b <- PossibleBlobs(d) :: LoadOf(b).Ok?
  }

  lemma SafeKeepsLoadable(start: DiskState, s: DiskState, data: Blob)
    requires Safe(start, s, data) && AllLoadable(start) && LoadOf(Some(data)).Ok?
    ensures AllLoadable(s)
  {
  }

  /** The crash theorem: whatever state an operation was in, if that state is one of its safe
      ones then after the power comes back the file is whole, holds something the file could
      hold before or the new contents, and loads. */
  lemma CrashThenLoadSucceeds(start: DiskState, s: DiskState, data: Blob, after: DiskState)
    requires Sound(start) && AllLoadable(start) && LoadOf(Some(data)).Ok?
    requires Safe(start, s, data) && Crashed(s, after)
    ensures Sound(after) && AllLoadable(after) && LoadOf(TargetBlob(after)).Ok?
    ensures TargetBlob(after) in PossibleBlobs(start) + {Some(data)}
  {
    CrashLeavesAPossibleBlob(s, after);
    SafeKeepsLoadable(start, s, data);
  }

  /** When nothing about the target is pending, a crash during a write leaves exactly the old
      contents or the new. */
  lemma CrashLeavesOldOrNew(start: DiskState, s: DiskState, data: Blob, after: DiskState)
    requires Sound(start) && Untouched(start.pending, Target) && Safe(start, s, data) && Crashed(s, after)
    ensures TargetBlob(after) == TargetBlob(start) || TargetBlob(after) == Some(data)
  {
    CrashLeavesAPossibleBlob(s, after);
    UntouchedIsLive(start.durable, start.pending, Target);
    assert BlobOf(start, Get(start.live, Target)) == TargetBlob(start);
    assert TargetBlob(after) in PossibleBlobs(start) + {Some(data)};
  }

  /** A shadow entry is on the medium and nothing pending concerns it. */
  ghost predicate ShadowSettled(d: DiskState, version: int, ino: nat, was: Blob) {
    && Get(d.durable, Shadow(version)) == Some(ino)
    && Untouched(d.pending, Shadow(version))
    && ino in d.inodes && d.inodes[ino] == Inode(was, true)
  }

  /** Nothing pending concerns the target or the shadow of a version. */
  predicate SettledFor(ops: seq<DirOp>, version: int) {
    Untouched(ops, Target) && Untouched(ops, Shadow(version))
  }

  /** At most the rename to the shadow is pending of what concerns either name. */
  ghost predicate ShadowPending(d: DiskState, version: int, ino: nat, was: Blob) {
    && Get(d.durable, Target) == Some(ino)
    && (SettledFor(d.pending, version)
        || (d.pending != [] && SettledFor(d.pending[..|d.pending| - 1], version)
            && d.pending[|d.pending| - 1] == Rename(Target, Shadow(version), ino)))
    && ino in d.inodes && d.inodes[ino] == Inode(was, true)
  }

  /** The old file is at the target or at the shadow of its version after any crash. */
  lemma OldVersionSurvives(d: DiskState, version: int, ino: nat, was: Blob, after: DiskState)
    requires ShadowSettled(d, version, ino, was) || ShadowPending(d, version, ino, was)
    requires Crashed(d, after)
    ensures Get(after.live, Target) == Some(ino) || Get(after.live, Shadow(version)) == Some(ino)
    ensures after.inodes[ino] == Inode(was, true)
  {
    var mask: seq<bool> :| |mask| == |d.pending| && after.live == ApplyAll(d.durable, Kept(d.pending, mask));
    if ShadowSettled(d, version, ino, was) {
      UntouchedSurvives(d.durable, d.pending, mask, Shadow(version));
    } else if SettledFor(d.pending, version) {
      UntouchedSurvives(d.durable, d.pending, mask, Target);
    } else {
      RenameLast(d.durable, d.pending, mask, version, ino);
    }
  }

  lemma RenameLast(dir: map<Name, nat>, ops: seq<DirOp>, mask: seq<bool>, version: int, ino: nat)
    requires |mask| == |ops| && ops != [] && SettledFor(ops[..|ops| - 1], version) && Get(dir, Target) == Some(ino)
    requires ops[|ops| - 1] == Rename(Target, Shadow(version), ino)
    ensures var live := ApplyAll(dir, Kept(ops, mask));
            Get(live, Target) == Some(ino) || Get(live, Shadow(version)) == Some(ino)
  {
    var n := |ops| - 1;
    UntouchedSurvives(dir, ops[..n], mask[..n], Target);
    var kept := Kept(ops[..n], mask[..n]);
    if mask[n] {
      assert (kept + [ops[n]])[..|kept|] == kept;
    } else {
      assert kept + [] == kept;
    }
  }

  // ---------------------------------------------------------------- steps of one atomic write

  /** `s` differs from `start` only in new files and in the entries of the target and one temp
      name; shadows settled at the start stay settled. */
  ghost predicate Framed(start: DiskState, s: DiskState, nonce: nat) {
    && start.next <= s.next
    && (forall i <- start.inodes | i < start.next :: i in s.inodes && s.inodes[i] == start.inodes[i])
    && (forall n | n != Target && n != Temp(nonce) :: Get(s.live, n) == Get(start.live, n))
    && (forall v ::
          Untouched(start.pending, Shadow(v)) && Get(start.live, Shadow(v)) == Get(start.durable, Shadow(v)) ==>
          Untouched(s.pending, Shadow(v)) && Get(s.durable, Shadow(v)) == Get(start.durable, Shadow(v)))
  }

  /** A state an atomic write may pass through. */
  ghost predicate Ahead(start: DiskState, s: DiskState, data: Blob, nonce: nat) {
    Safe(start, s, data) && Framed(start, s, nonce) && TargetBlob(s) in {TargetBlob(start), Some(data)}
  }

  /** One in which the target is still as it was. */
  ghost predicate Quiet(start: DiskState, s: DiskState, data: Blob, nonce: nat) {
    Ahead(start, s, data, nonce) && TargetBlob(s) == TargetBlob(start) && PossibleBlobs(s) == PossibleBlobs(start)
  }

  /** The temp file is a new one no crash can leave at the target. */
  ghost predicate TempAt(start: DiskState, s: DiskState, nonce: nat, ino: nat) {
    && Get(s.live, Temp(nonce)) == Some(ino)
    && start.next <= ino < s.next && ino in s.inodes
    && Some(ino) !in Possible(s.durable, s.pending)
  }

  lemma QuietAtStart(d: DiskState, data: Blob, nonce: nat)
    requires Sound(d)
    ensures Quiet(d, d, data, nonce)
  {
  }

  /** A new, still nameless file changes nothing at the target. */
  lemma NewFileStep(start: DiskState, d: DiskState, data: Blob, nonce: nat)
    requires Quiet(start, d, data, nonce)
    ensures var e := d.(inodes := d.inodes[d.next := Inode(Garbage, false)], next := d.next + 1);
            Quiet(start, e, data, nonce) && Some(d.next) !in Possible(e.durable, e.pending)
  {
    hide PossibleBlobs, Possible;
    NextIsNotPossible(d);
    InodeChangeIsSafe(start, d, d.next, Inode(Garbage, false), data);
    LiveTargetIsPossible(d.durable, d.pending);
  }

  lemma NextIsNotPossible(d: DiskState)
    requires Sound(d)
    ensures Some(d.next) !in Possible(d.durable, d.pending)
  {
  }

  lemma NameTempStep(start: DiskState, e: DiskState, data: Blob, nonce: nat, ino: nat)
    requires Quiet(start, e, data, nonce) && start.next <= ino < e.next && ino in e.inodes
    requires Some(ino) !in Possible(e.durable, e.pending)
    ensures Quiet(start, Do(e, Link(Temp(nonce), ino)), data, nonce)
    ensures TempAt(start, Do(e, Link(Temp(nonce), ino)), nonce, ino)
  {
    hide PossibleBlobs, Sound;
    var op := Link(Temp(nonce), ino);
    TempOpIsSafe(start, e, op, data);
    DoStep(e, op);
  }

  lemma CreateStep(start: DiskState, d: DiskState, data: Blob, nonce: nat)
    requires Quiet(start, d, data, nonce)
    ensures Quiet(start, Create(d, Temp(nonce)), data, nonce) && TempAt(start, Create(d, Temp(nonce)), nonce, d.next)
  {
    hide PossibleBlobs, Possible, TempAt;
    NewFileStep(start, d, data, nonce);
    NameTempStep(start, d.(inodes := d.inodes[d.next := Inode(Garbage, false)], next := d.next + 1), data, nonce,
                 d.next);
  }

  lemma ContentStep(start: DiskState, d: DiskState, ino: nat, inode: Inode, data: Blob, nonce: nat)
    requires Quiet(start, d, data, nonce) && TempAt(start, d, nonce, ino)
    ensures var e := d.(inodes := d.inodes[ino := inode]);
            Quiet(start, e, data, nonce) && TempAt(start, e, nonce, ino)
  {
    InodeChangeIsSafe(start, d, ino, inode, data);
    LiveTargetIsPossible(d.durable, d.pending);
  }

  lemma RemoveStep(start: DiskState, d: DiskState, data: Blob, nonce: nat)
    requires Quiet(start, d, data, nonce)
    ensures Quiet(start, Remove(d, Temp(nonce)), data, nonce) && Temp(nonce) !in Remove(d, Temp(nonce)).live
  {
    hide Possible, PossibleBlobs, Sound;
    var e := Remove(d, Temp(nonce));
    TempOpIsSafe(start, d, Unlink(Temp(nonce)), data);
    UnlinkTempIsFramed(start, d, nonce);
    assert TargetBlob(e) == TargetBlob(d);
  }

  lemma UnlinkTempIsFramed(start: DiskState, d: DiskState, nonce: nat)
    requires Framed(start, d, nonce)
    ensures Framed(start, Remove(d, Temp(nonce)), nonce)
  {
    hide Possible;
    DoStep(d, Unlink(Temp(nonce)));
  }

  lemma ReplaceStep(start: DiskState, d: DiskState, ino: nat, data: Blob, nonce: nat)
    requires Quiet(start, d, data, nonce) && TempAt(start, d, nonce, ino) && d.inodes[ino] == Inode(data, true)
    ensures var e := Replace(d, Temp(nonce), Target);
            Ahead(start, e, data, nonce) && TargetBlob(e) == Some(data) && Temp(nonce) !in e.live
  {
    ReplaceIsSafe(start, d, Temp(nonce), data);
    DoStep(d, Rename(Temp(nonce), Target, d.live[Temp(nonce)]));
  }

  lemma SyncStep(start: DiskState, d: DiskState, data: Blob, nonce: nat)
    requires Ahead(start, d, data, nonce) && TargetBlob(d) == Some(data)
    ensures var e := FsyncDirectory(d);
            && Ahead(start, e, data, nonce) && TargetBlob(e) == Some(data) && PossibleBlobs(e) == {Some(data)}
            && e.pending == [] && e.live == d.live
  {
    DirectorySyncSettles(start, d, data);
  }

  class StateFile {
    var d: DiskState
    /** Every disk state passed through, the first included. */
    ghost var trail: seq<DiskState>

    constructor (d: DiskState)
      requires Sound(d)
      ensures Valid() && this.d == d && trail == [d]
    {
      this.d := d;
      trail := [d];
    }

    /** The last state of the trail is the present one, and it is consistent. */
    ghost predicate Valid()
      reads this
    {
      trail != [] && trail[|trail| - 1] == d && Sound(d)
    }

    /** Every state passed through since `from` is one an atomic write may pass through. */
    ghost predicate AheadSince(from: nat, start: DiskState, data: Blob, nonce: nat)
      reads this
    {
      from <= |trail| && forall i | from <= i < |trail| :: Ahead(start, trail[i], data, nonce)
    }

    method Step(next: DiskState)
      requires Sound(next)
      modifies this
      ensures Valid() && d == next && trail == old(trail) + [next]
    {
      d := next;
      trail := trail + [next];
    }

    /** Opens, writes, syncs and closes the temp file. On success it holds the data, synced;
        either way the target, and what a crash could leave there, are as before. */
    method WriteAndFsyncTemp(nonce: nat, data: Blob, f: WriteFaults) returns (ok: bool)
      requires Valid()
      modifies this
      ensures Valid()
      ensures Quiet(old(d), d, data, nonce)
      ensures old(trail) <= trail && AheadSince(|old(trail)|, old(d), data, nonce)
      ensures ok <==> !f.openFails && old(Temp(nonce) !in d.live) && f.write == FullWrite && !f.fsyncFails
      ensures ok ==> TempAt(old(d), d, nonce, old(d).next) && d.inodes[old(d).next] == Inode(data, true)
    {
      hide Quiet, TempAt, Safe, Framed, Sound, Ahead;
      ghost var start := d;
      QuietAtStart(d, data, nonce);
      if f.openFails || Temp(nonce) in d.live {
        return false;
      }
      var ino := d.next;
      CreateStep(start, d, data, nonce);
      QuietIsAhead(start, Create(d, Temp(nonce)), data, nonce);
      Step(Create(d, Temp(nonce)));
      var written := match f.write case FullWrite => data case _ => Garbage;
      ContentStep(start, d, ino, Inode(written, false), data, nonce);
      QuietIsAhead(start, Write(d, ino, written), data, nonce);
      Step(Write(d, ino, written));
      if f.write != FullWrite || f.fsyncFails {
        return false;
      }
      ContentStep(start, d, ino, Inode(data, true), data, nonce);
      QuietIsAhead(start, Fsync(d, ino), data, nonce);
      Step(Fsync(d, ino));
      ok := true;
    }

    /** Writes `data` over the target atomically. The result says exactly which step failed. The
        target seen afterwards is the old one unless the replace happened, and then it is the new
        one, even when the final directory fsync fails and an error is raised: so "on any failure
        the target is unchanged" holds if and only if the failure is not that last one, or the
        contents were already the new ones. */
    method AtomicWriteBytes(data: Blob, nonce: nat, f: WriteFaults) returns (r: Outcome<()>)
      requires Valid()
      modifies this
      ensures Valid()
      ensures Ahead(old(d), d, data, nonce)
      ensures old(trail) <= trail && AheadSince(|old(trail)|, old(d), data, nonce)
      ensures r.Ok? <==> f.NoFault() && old(Temp(nonce) !in d.live)
      ensures r.Ok? ==> TargetBlob(d) == Some(data) && PossibleBlobs(d) == {Some(data)} && d.pending == []
      ensures r.Err? ==> r.error.AtomicWriteFailed?
      ensures r.Err? ==>
                (TargetBlob(d) == old(TargetBlob(d)) <==>
                   r.error.why != DirectorySyncFailed || old(TargetBlob(d)) == Some(data))
      ensures r.Err? && r.error.why == DirectorySyncFailed ==> TargetBlob(d) == Some(data)
      ensures r.Err? && r.error.why != DirectorySyncFailed ==> Quiet(old(d), d, data, nonce)
      ensures (r.Ok? || r.error.why == DirectorySyncFailed || (!f.unlinkFails && r.error.why != NoDirectory)) ==>
                Temp(nonce) !in d.live
    {
      hide Quiet, TempAt, Safe, Framed, Ahead, Sound, TargetBlob, PossibleBlobs;
      ghost var start := d;
      QuietAtStart(d, data, nonce);
      QuietMeans(start, d, data, nonce);
      if f.directoryMissing {
        return Err(AtomicWriteFailed(NoDirectory));
      }
      var ok := WriteAndFsyncTemp(nonce, data, f);
      QuietMeans(start, d, data, nonce);
      if !ok {
        RemoveTemp(nonce, f, start, data);
        return Err(AtomicWriteFailed(TempWriteFailed));
      }
      if f.replaceFails {
        RemoveTemp(nonce, f, start, data);
        return Err(AtomicWriteFailed(ReplaceFailed));
      }
      ReplaceStep(start, d, start.next, data, nonce);
      TempIsLive(start, d, nonce, start.next);
      AheadIsSound(start, Replace(d, Temp(nonce), Target), data, nonce);
      Step(Replace(d, Temp(nonce), Target));
      if f.directorySyncFails {
        return Err(AtomicWriteFailed(DirectorySyncFailed));
      }
      SyncStep(start, d, data, nonce);
      AheadIsSound(start, FsyncDirectory(d), data, nonce);
      Step(FsyncDirectory(d));
      r := Ok(());
    }

    /** The clean-up of a temp file, its own failure suppressed. */
    method RemoveTemp(nonce: nat, f: WriteFaults, ghost start: DiskState, ghost data: Blob)
      requires Valid() && Quiet(start, d, data, nonce)
      modifies this
      ensures Valid() && Quiet(start, d, data, nonce) && Ahead(start, d, data, nonce)
              && TargetBlob(d) == TargetBlob(start)
      ensures old(trail) <= trail && AheadSince(|old(trail)|, start, data, nonce)
      ensures !f.unlinkFails ==> Temp(nonce) !in d.live
    {
      if !f.unlinkFails && Temp(nonce) in d.live {
        RemoveStep(start, d, data, nonce);
        Step(Remove(d, Temp(nonce)));
      }
    }

    /** The write a save performs while the locks are held. */
    method SaveModemStateLocked(state: ModemState, nonce: nat, f: WriteFaults) returns (r: Outcome<()>)
      requires Valid()
      modifies this
      ensures Valid()
      ensures Ahead(old(d), d, FileOf(state), nonce)
      ensures old(trail) <= trail && AheadSince(|old(trail)|, old(d), FileOf(state), nonce)
      ensures r.Ok? <==> f.NoFault() && old(Temp(nonce) !in d.live)
      ensures r.Ok? ==> TargetBlob(d) == Some(FileOf(state)) && d.pending == []
    {
      r := AtomicWriteBytes(FileOf(state), nonce, f);
    }

    /** Loads the state. Without faults the result is the one the contents call for. Only a file
        of an older version is touched: it is moved to its shadow, durably, before the fresh
        default is written, and in every state on the way its bytes are safe. */
    method LoadModemState(f: LoadFaults) returns (r: Outcome<LoadResult>)
      requires Valid()
      modifies this
      ensures Valid()
      ensures var b := old(TargetBlob(d));
              && (r.Ok? ==> r == LoadOf(b))
              && (!f.readFails && (NeedsDowngrade(b) ==> f.DowngradeRuns() && old(Temp(f.nonce) !in d.live)) ==>
                    r == LoadOf(b))
              && (!NeedsDowngrade(b) || f.readFails || f.renameFails ==> d == old(d) && trail == old(trail))
              && (NeedsDowngrade(b) && r.Ok? ==> Downgraded(old(d), d, FileVersion(b.value.version)))
              && (NeedsDowngrade(b) && !f.readFails && !f.renameFails ==>
                    DowngradeState(old(d), d, b.value, old(d).live[Target])
                    && OldBytesAtShadow(d, b.value, old(d).live[Target]))
              && old(trail) <= trail
              && (NeedsDowngrade(b) ==>
                    forall i | |old(trail)| <= i < |trail| ::
                      DowngradeState(old(d), trail[i], b.value, old(d).live[Target]))
    {
      QuietAtStart(d, Garbage, 0);
      if Target !in d.live {
        return Ok(LoadResult(FreshState(), None));
      }
      LiveTargetIsPossible(d.durable, d.pending);
      if f.readFails {
        return Err(StateFileIOError);
      }
      match d.inodes[d.live[Target]].content {
        case Garbage =>
          return Err(StateFileCorrupt);
        case Json(declared, body) =>
          match ValidateSchemaVersion(FileVersion(declared)) {
            case TooNew =>
              return Err(SchemaVersionTooNew);
            case Current =>
              if !body.Valid() {
                return Err(ValidationError);
              }
              return Ok(LoadResult(body, None));
            case Downgrade =>
              r := DowngradeFile(declared, body, f);
          }
      }
    }

    /** A save and then a load: after a save that succeeds, a load that can read the file returns
        exactly the saved record. */
    method SaveThenLoad(state: ModemState, nonce: nat, f: WriteFaults, g: LoadFaults)
      returns (saved: Outcome<()>, loaded: Outcome<LoadResult>)
      requires Valid() && state.Valid()
      modifies this
      ensures Valid() && (saved.Ok? <==> f.NoFault() && old(Temp(nonce) !in d.live))
      ensures saved.Ok? && !g.readFails ==> loaded == Ok(LoadResult(state, None))
    {
      hide Ahead, PossibleBlobs, Sound;
      saved := SaveModemStateLocked(state, nonce, f);
      loaded := LoadModemState(g);
    }

    /** The downgrade branch: rename to the shadow, sync the directory, write the default. */
    method DowngradeFile(declared: Option<int>, body: ModemState, f: LoadFaults) returns (r: Outcome<LoadResult>)
      requires Valid() && Target in d.live && d.live[Target] in d.inodes
      requires d.inodes[d.live[Target]] == Inode(Json(declared, body), true)
      modifies this
      ensures Valid()
      ensures r.Ok? <==> f.DowngradeRuns() && old(Temp(f.nonce) !in d.live)
      ensures r.Ok? ==> r.value == LoadResult(FreshState(), Some(FileVersion(declared)))
                        && Downgraded(old(d), d, FileVersion(declared))
      ensures f.renameFails ==> d == old(d) && trail == old(trail)
      ensures !f.renameFails ==>
                && DowngradeState(old(d), d, Json(declared, body), old(d).live[Target])
                && OldBytesAtShadow(d, Json(declared, body), old(d).live[Target])
      ensures old(trail) <= trail
      ensures forall i | |old(trail)| <= i < |trail| ::
                DowngradeState(old(d), trail[i], Json(declared, body), old(d).live[Target])
    {
      hide Sound, Ahead, PossibleBlobs, DowngradeState, TargetBlob, Downgraded;
      if f.renameFails {
        return Err(RenameFailed);
      }
      var version := FileVersion(declared);
      ghost var start, ino, was := d, d.live[Target], Json(declared, body);
      RenamedAway(start, was, version);
      DowngradeStateIsSound(start, Replace(d, Target, Shadow(version)), was, ino);
      HeldAtTarget(start, was);
      Step(Replace(d, Target, Shadow(version)));
      if f.renameSyncFails {
        return Err(AtomicWriteFailed(DirectorySyncFailed));
      }
      RenameSettled(start, d, was, version);
      Step(FsyncDirectory(d));
      ghost var mid, here := d, |trail|;
      var w := SaveModemStateLocked(FreshState(), f.nonce, f.save);
      forall i | here <= i < |trail| ensures DowngradeState(start, trail[i], was, ino) {
        WriteAfterRename(start, mid, trail[i], was, version, f.nonce);
      }
      WriteAfterRename(start, mid, d, was, version, f.nonce);
      if w.Err? {
        return Err(w.error);
      }
      DowngradeDone(start, mid, d, was, version, f.nonce);
      r := Ok(LoadResult(FreshState(), Some(version)));
    }

    /** Streak and counters reset in one atomic write, every other field kept; a missing file is
        created with the fresh default. */
    method ResetModemStreakAndCounters(nonce: nat, f: WriteFaults) returns (r: Outcome<()>)
      requires Valid()
      modifies this
      ensures Valid()
      ensures var b := ResetOf(old(TargetBlob(d)));
              && (b.Err? ==> r == Err(b.error) && d == old(d) && trail == old(trail))
              && (b.Ok? ==> old(trail) <= trail && AheadSince(|old(trail)|, old(d), b.value, nonce)
                            && Ahead(old(d), d, b.value, nonce)
                            && (r.Ok? <==> f.NoFault() && old(Temp(nonce) !in d.live))
                            && (r.Ok? ==> TargetBlob(d) == Some(b.value) && d.pending == []))
    {
      hide Ahead, PossibleBlobs;
      LiveTargetIsPossible(d.durable, d.pending);
      if Target in d.live {
        match d.inodes[d.live[Target]].content {
          case Garbage =>
            return Err(StateFileCorrupt);
          case Json(declared, body) =>
            var version := if declared.Some? then declared.value else CURRENT_SCHEMA_VERSION;
            if version < 1 || !body.Valid() {
              return Err(ValidationError);
            }
            r := AtomicWriteBytes(Json(Some(version), body.(healthyStreak := 0, counters := map[])), nonce, f);
        }
      } else {
        r := AtomicWriteBytes(FileOf(FreshState()), nonce, f);
      }
    }

    /** Any one call. Every state it passes through, and the one it leaves, is one that
        `MayReach` allows. */
    method Perform(call: StoreCall) returns (ok: bool)
      requires Valid()
      modifies this
      ensures Valid() && old(trail) <= trail && MayReach(old(d), d, call)
      ensures forall i | |old(trail)| <= i < |trail| :: MayReach(old(d), trail[i], call)
    {
      hide Ahead, DowngradeState, Downgraded, OldBytesAtShadow, LoadOf, PossibleBlobs, Sound;
      match call {
        case SaveCall(state, nonce, f) =>
          var r := SaveModemStateLocked(state, nonce, f);
          ok := r.Ok?;
        case LoadCall(f) =>
          var r := LoadModemState(f);
          ok := r.Ok?;
        case ResetCall(nonce, f) =>
          var r := ResetModemStreakAndCounters(nonce, f);
          ok := r.Ok?;
      }
    }

    /** Any sequence of calls, whatever fails in each: in every state on the way the power may go,
        and the next load then succeeds on a consistent disk. */
    method PerformAll(calls: seq<StoreCall>)
      requires Valid() && AllLoadable(d)
      requires forall k | 0 <= k < |calls| && calls[k].SaveCall? :: calls[k].state.Valid()
      modifies this
      ensures Valid() && AllLoadable(d) && old(trail) <= trail
      ensures forall i, after | |old(trail)| <= i < |trail| && Crashed(trail[i], after) ::
                Sound(after) && AllLoadable(after) && LoadOf(TargetBlob(after)).Ok?
    {
      hide MayReach, AllLoadable, Sound, Crashed, LoadOf, TargetBlob;
      for k := 0 to |calls|
        invariant Valid() && AllLoadable(d) && old(trail) <= trail
        invariant forall i, after | |old(trail)| <= i < |trail| && Crashed(trail[i], after) ::
                    Sound(after) && AllLoadable(after) && LoadOf(TargetBlob(after)).Ok?
      {
        ghost var start, here := d, |trail|;
        var ok := Perform(calls[k]);
        forall i, after | here <= i < |trail| && Crashed(trail[i], after)
          ensures Sound(after) && AllLoadable(after) && LoadOf(TargetBlob(after)).Ok?
        {
          ReachKeepsLoadable(start, trail[i], calls[k]);
          CrashLoads(trail[i], after);
        }
        ReachKeepsLoadable(start, d, calls[k]);
      }
    }
  }

  // ---------------------------------------------------------------- sequences of calls

  datatype StoreCall =
    | SaveCall(state: ModemState, nonce: nat, save: WriteFaults)
    | LoadCall(load: LoadFaults)
    | ResetCall(nonce: nat, save: WriteFaults)

  /** A state that a call made in `start` may pass through or leave. */
  ghost predicate MayReach(start: DiskState, s: DiskState, call: StoreCall) {
    match call
    case SaveCall(state, nonce, _) => Ahead(start, s, FileOf(state), nonce)
    case LoadCall(_) =>
      s == start || (var b := TargetBlob(start);
                     NeedsDowngrade(b) && DowngradeState(start, s, b.value, start.live[Target]))
    case ResetCall(nonce, _) =>
      match ResetOf(TargetBlob(start))
      case Ok(blob) => Ahead(start, s, blob, nonce)
      case Err(_) => s == start
  }

  /** Nothing a call writes is unreadable. */
  lemma ReachKeepsLoadable(start: DiskState, s: DiskState, call: StoreCall)
    requires Sound(start) && AllLoadable(start) && MayReach(start, s, call)
    requires call.SaveCall? ==> call.state.Valid()
    ensures Sound(s) && AllLoadable(s)
  {
    hide Sound, PossibleBlobs, Framed;
    match call {
      case SaveCall(state, nonce, _) =>
        AheadIsSound(start, s, FileOf(state), nonce);
        SafeKeepsLoadable(start, s, FileOf(state));
      case LoadCall(_) =>
      case ResetCall(nonce, _) =>
        LiveBlobIsPossible(start);
        if ResetOf(TargetBlob(start)).Ok? {
          AheadIsSound(start, s, ResetOf(TargetBlob(start)).value, nonce);
          SafeKeepsLoadable(start, s, ResetOf(TargetBlob(start)).value);
        }
    }
  }

  lemma CrashLoads(s: DiskState, after: DiskState)
    requires Sound(s) && AllLoadable(s) && Crashed(s, after)
    ensures Sound(after) && AllLoadable(after) && LoadOf(TargetBlob(after)).Ok?
  {
    CrashLeavesAPossibleBlob(s, after);
  }

  /** One step of a history: a call that got somewhere, or a power loss. */
  ghost predicate HistoryStep(s: DiskState, e: DiskState, call: Option<StoreCall>) {
    match call
    case None => Crashed(s, e)
    case Some(c) => MayReach(s, e, c)
  }

  /** Any history of saves, loads and resets, each finished, failed or cut off by a power loss
      anywhere inside it: the disk stays consistent and every load of it succeeds, now and after
      one more power loss. */
  lemma {:induction false} EveryHistoryLoads(states: seq<DiskState>, calls: seq<Option<StoreCall>>, i: nat,
                                             after: DiskState)
    requires |states| == |calls| + 1 && i <= |calls| && Sound(states[0]) && AllLoadable(states[0])
    requires forall k | 0 <= k < |calls| :: HistoryStep(states[k], states[k + 1], calls[k])
    requires forall k | 0 <= k < |calls| && calls[k].Some? && calls[k].value.SaveCall? :: calls[k].value.state.Valid()
    ensures Sound(states[i]) && AllLoadable(states[i]) && LoadOf(TargetBlob(states[i])).Ok?
    ensures Crashed(states[i], after) ==> Sound(after) && LoadOf(TargetBlob(after)).Ok?
  {
    hide Sound, AllLoadable, MayReach, Crashed, LoadOf, TargetBlob;
    if i > 0 {
      EveryHistoryLoads(states, calls, i - 1, after);
      assert HistoryStep(states[i - 1], states[i], calls[i - 1]);
      if calls[i - 1].None? {
        CrashLoads(states[i - 1], states[i]);
      } else {
        ReachKeepsLoadable(states[i - 1], states[i], calls[i - 1].value);
      }
    }
    LoadsNow(states[i]);
    if Crashed(states[i], after) {
      CrashLoads(states[i], after);
    }
  }

  lemma LoadsNow(s: DiskState)
    requires Sound(s) && AllLoadable(s)
    ensures LoadOf(TargetBlob(s)).Ok?
  {
    LiveBlobIsPossible(s);
  }

  // ---------------------------------------------------------------- proof helpers

  lemma HeldAtTarget(d: DiskState, was: Blob)
    requires Target in d.live && d.live[Target] in d.inodes && d.inodes[d.live[Target]] == Inode(was, true)
    ensures TargetBlob(d) == Some(was)
  {
  }

  lemma AheadIsSound(start: DiskState, s: DiskState, data: Blob, nonce: nat)
    requires Ahead(start, s, data, nonce)
    ensures Sound(s)
  {
  }

  lemma DowngradeStateIsSound(start: DiskState, s: DiskState, was: Blob, ino: nat)
    requires was.Json? && DowngradeState(start, s, was, ino)
    ensures Sound(s)
  {
  }

  lemma QuietIsAhead(start: DiskState, s: DiskState, data: Blob, nonce: nat)
    requires Quiet(start, s, data, nonce)
    ensures Ahead(start, s, data, nonce) && Sound(s)
  {
  }

  lemma QuietMeans(start: DiskState, s: DiskState, data: Blob, nonce: nat)
    requires Quiet(start, s, data, nonce)
    ensures Ahead(start, s, data, nonce) && Sound(s) && TargetBlob(s) == TargetBlob(start)
  {
  }

  lemma TempIsLive(start: DiskState, s: DiskState, nonce: nat, ino: nat)
    requires TempAt(start, s, nonce, ino)
    ensures Temp(nonce) in s.live
  {
  }

  predicate NeedsDowngrade(b: Option<Blob>) {
    b.Some? && b.value.Json? && ValidateSchemaVersion(FileVersion(b.value.version)) == Downgrade
  }

  /** A state a downgrade of `was`, held in file `ino`, may pass through: consistent, with nothing
      at the target after a crash but what could be there before, nothing, or the default; and,
      when nothing pending at the start concerned either name, with the old bytes at the target or
      the shadow. */
  ghost predicate DowngradeState(start: DiskState, s: DiskState, was: Blob, ino: nat)
    requires was.Json?
  {
    && Sound(s)
    && PossibleBlobs(s) <= PossibleBlobs(start) + {None, Some(FileOf(FreshState()))}
    && TargetBlob(s) in {None, Some(FileOf(FreshState()))}
    && (SettledFor(start.pending, FileVersion(was.version)) ==>
          ShadowSettled(s, FileVersion(was.version), ino, was) || ShadowPending(s, FileVersion(was.version), ino, was))
  }

  ghost predicate Downgraded(start: DiskState, s: DiskState, version: int) {
    && TargetBlob(s) == Some(FileOf(FreshState())) && s.pending == []
    && Get(s.live, Shadow(version)) == Get(start.live, Target)
    && BlobOf(s, Get(s.live, Shadow(version))) == TargetBlob(start)
  }

  /** Once moved away, the old file is at its shadow with its bytes, and the target is absent or
      holds the default. */
  ghost predicate OldBytesAtShadow(s: DiskState, was: Blob, ino: nat)
    requires was.Json?
  {
    && Get(s.live, Shadow(FileVersion(was.version))) == Some(ino)
    && ino in s.inodes && s.inodes[ino] == Inode(was, true)
    && TargetBlob(s) in {None, Some(FileOf(FreshState()))}
  }

  /** A load, too, can be cut off anywhere: the next load then succeeds, and the old bytes are
      still there. */
  lemma CrashDuringDowngrade(start: DiskState, s: DiskState, was: Blob, ino: nat, after: DiskState)
    requires Sound(start) && AllLoadable(start) && was.Json? && DowngradeState(start, s, was, ino) && Crashed(s, after)
    ensures Sound(after) && AllLoadable(after) && LoadOf(TargetBlob(after)).Ok?
    ensures SettledFor(start.pending, FileVersion(was.version)) ==>
              (Get(after.live, Target) == Some(ino) || Get(after.live, Shadow(FileVersion(was.version))) == Some(ino))
              && BlobOf(after, Some(ino)) == Some(was)
  {
    CrashLeavesAPossibleBlob(s, after);
    if SettledFor(start.pending, FileVersion(was.version)) {
      OldVersionSurvives(s, FileVersion(was.version), ino, was, after);
    }
  }

  /** Renaming the target away adds just absence to what a crash can leave. */
  lemma RenamedAway(start: DiskState, was: Blob, version: int)
    requires Sound(start) && Target in start.live && start.live[Target] in start.inodes
    requires start.inodes[start.live[Target]] == Inode(was, true) && was.Json? && FileVersion(was.version) == version
    ensures var e := Replace(start, Target, Shadow(version));
            DowngradeState(start, e, was, start.live[Target]) && PossibleBlobs(e) <= PossibleBlobs(start) + {None}
            && OldBytesAtShadow(e, was, start.live[Target])
  {
    var op := Rename(Target, Shadow(version), start.live[Target]);
    var e := Replace(start, Target, Shadow(version));
    DoStep(start, op);
    forall b | b in PossibleBlobs(e) ensures b in PossibleBlobs(start) + {None} {
      var t :| t in Possible(e.durable, e.pending) && BlobOf(e, t) == b;
      if t in Possible(start.durable, start.pending) {
        assert BlobOf(start, t) == b;
      }
    }
    if SettledFor(start.pending, version) {
      UntouchedIsLive(start.durable, start.pending, Target);
      assert e.pending[..|start.pending|] == start.pending;
    }
  }

  lemma RenameSettled(start: DiskState, d: DiskState, was: Blob, version: int)
    requires Sound(start) && Target in start.live && start.live[Target] in start.inodes
    requires start.inodes[start.live[Target]] == Inode(was, true) && was.Json? && FileVersion(was.version) == version
    requires d == Replace(start, Target, Shadow(version))
    ensures var e := FsyncDirectory(d);
            && DowngradeState(start, e, was, start.live[Target]) && Sound(e)
            && PossibleBlobs(e) == {None} && e.pending == []
            && ShadowSettled(e, version, start.live[Target], was)
            && OldBytesAtShadow(e, was, start.live[Target])
            && (forall n :: Temp(n) in e.live <==> Temp(n) in start.live)
            && Get(e.live, Shadow(version)) == Some(start.live[Target]) && e.durable == e.live
            && (forall i <- e.inodes :: i < e.next)
  {
    RenamedAway(start, was, version);
    DirectorySyncSettles(d, d, was);
  }

  lemma WriteAfterRename(start: DiskState, mid: DiskState, s: DiskState, was: Blob, version: int, nonce: nat)
    requires Target in start.live && was.Json? && FileVersion(was.version) == version
    requires ShadowSettled(mid, version, start.live[Target], was) && mid.durable == mid.live
    requires PossibleBlobs(mid) == {None} && forall i <- mid.inodes :: i < mid.next
    requires Ahead(mid, s, FileOf(FreshState()), nonce)
    requires OldBytesAtShadow(mid, was, start.live[Target])
    ensures DowngradeState(start, s, was, start.live[Target]) && OldBytesAtShadow(s, was, start.live[Target])
  {
    LiveBlobIsPossible(s);
  }

  lemma DowngradeDone(start: DiskState, mid: DiskState, s: DiskState, was: Blob, version: int, nonce: nat)
    requires Target in start.live && Get(mid.live, Shadow(version)) == Some(start.live[Target])
    requires Ahead(mid, s, FileOf(FreshState()), nonce)
    requires was.Json? && FileVersion(was.version) == version && OldBytesAtShadow(s, was, start.live[Target])
    requires TargetBlob(start) == Some(was)
    requires TargetBlob(s) == Some(FileOf(FreshState())) && s.pending == []
    ensures Downgraded(start, s, version)
  {
  }
}
