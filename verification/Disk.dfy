/** A directory under power loss. Directory changes reach the medium only at a directory fsync;
    until then a crash may keep any subset of them. File contents reach it only at a file fsync;
    until then a crash may leave anything. */
module Disk {
  import opened Wire

  /** One state file's directory entries: the file, its per-version shadows and temp files. */
  datatype Name = Target | Shadow(version: int) | Temp(nonce: nat)

  /** A parsed state file, which may lack a version, or bytes that do not parse. */
  datatype Blob = Json(version: Option<int>, body: ModemState) | Garbage

  datatype Inode = Inode(content: Blob, synced: bool)

  datatype DirOp = Link(name: Name, ino: nat) | Rename(from: Name, to: Name, ino: nat) | Unlink(name: Name)

  /** `live` is what processes see; `durable` what the medium holds; `pending` the changes made
      since the last directory fsync. Inode numbers below `next` are allocated. */
  datatype DiskState = DiskState(
    inodes: map<nat, Inode>,
    next: nat,
    live: map<Name, nat>,
    durable: map<Name, nat>,
    pending: seq<DirOp>)

  function Get(dir: map<Name, nat>, n: Name): Option<nat> {
    if n in dir then Some(dir[n]) else None
  }

  function Apply(dir: map<Name, nat>, op: DirOp): map<Name, nat> {
    match op
    case Link(n, i) => dir[n := i]
    case Rename(a, b, i) => (dir - {a})[b := i]
    case Unlink(n) => dir - {n}
  }

  function ApplyAll(dir: map<Name, nat>, ops: seq<DirOp>): map<Name, nat> {
    if ops == [] then dir else Apply(ApplyAll(dir, ops[..|ops| - 1]), ops[|ops| - 1])
  }

  function Kept(ops: seq<DirOp>, mask: seq<bool>): seq<DirOp>
    requires |ops| == |mask|
  {
    if ops == [] then []
    else Kept(ops[..|ops| - 1], mask[..|mask| - 1]) + (if mask[|mask| - 1] then [ops[|ops| - 1]] else [])
  }

  /** The bytes a reader finds at the target. */
  function TargetBlob(d: DiskState): Option<Blob> {
    if Target in d.live && d.live[Target] in d.inodes then Some(d.inodes[d.live[Target]].content) else None
  }

  /** `after` is a state the machine may come back in when power fails in `d`. */
  ghost predicate Crashed(d: DiskState, after: DiskState) {
    && (exists mask: seq<bool> | |mask| == |d.pending| :: after.live == ApplyAll(d.durable, Kept(d.pending, mask)))
    && after.durable == after.live && after.pending == [] && after.next == d.next
    && after.inodes.Keys == d.inodes.Keys
    && (forall i <- d.inodes :: after.inodes[i].synced && (d.inodes[i].synced ==> after.inodes[i] == d.inodes[i]))
  }

  // ---------------------------------------------------------------- what a crash can leave

  function Touch(op: DirOp, n: Name): Option<Option<nat>> {
    match op
    case Link(a, i) => if a == n then Some(Some(i)) else None
    case Rename(a, b, i) => if b == n then Some(Some(i)) else if a == n then Some(None) else None
    case Unlink(a) => if a == n then Some(None) else None
  }

  /** Every entry a crash may leave at the target. */
  function Possible(dir: map<Name, nat>, ops: seq<DirOp>): set<Option<nat>> {
    if ops == [] then {Get(dir, Target)}
    else
      var init := Possible(dir, ops[..|ops| - 1]);
      match Touch(ops[|ops| - 1], Target)
      case None => init
      case Some(entry) => init + {entry}
  }

  predicate Untouched(ops: seq<DirOp>, n: Name) {
    forall op <- ops :: Touch(op, n).None?
  }

  lemma {:induction false} CrashTargetIsPossible(dir: map<Name, nat>, ops: seq<DirOp>, mask: seq<bool>)
    requires |ops| == |mask|
    ensures Get(ApplyAll(dir, Kept(ops, mask)), Target) in Possible(dir, ops)
  {
    if ops != [] {
      var n := |ops| - 1;
      CrashTargetIsPossible(dir, ops[..n], mask[..n]);
      var kept := Kept(ops[..n], mask[..n]);
      if mask[n] {
        assert (kept + [ops[n]])[..|kept|] == kept;
      } else {
        assert kept + [] == kept;
      }
    }
  }

  lemma {:induction false} LiveTargetIsPossible(dir: map<Name, nat>, ops: seq<DirOp>)
    ensures Get(ApplyAll(dir, ops), Target) in Possible(dir, ops)
  {
    if ops != [] {
      LiveTargetIsPossible(dir, ops[..|ops| - 1]);
    }
  }

  lemma {:induction false} UntouchedSurvives(dir: map<Name, nat>, ops: seq<DirOp>, mask: seq<bool>, n: Name)
    requires |ops| == |mask| && Untouched(ops, n)
    ensures Get(ApplyAll(dir, Kept(ops, mask)), n) == Get(dir, n)
  {
    if ops != [] {
      var k := |ops| - 1;
      assert ops[k] in ops;
      UntouchedSurvives(dir, ops[..k], mask[..k], n);
      var kept := Kept(ops[..k], mask[..k]);
      if mask[k] {
        assert (kept + [ops[k]])[..|kept|] == kept;
      } else {
        assert kept + [] == kept;
      }
    }
  }

  lemma {:induction false} UntouchedIsLive(dir: map<Name, nat>, ops: seq<DirOp>, n: Name)
    requires Untouched(ops, n)
    ensures Get(ApplyAll(dir, ops), n) == Get(dir, n)
    ensures n == Target ==> Possible(dir, ops) == {Get(dir, Target)}
  {
    if ops != [] {
      var k := |ops| - 1;
      assert ops[k] in ops;
      UntouchedIsLive(dir, ops[..k], n);
    }
  }

  /** The disk is consistent: the live directory is the durable one plus everything pending, and
      whatever a crash could leave at the target is a file whose bytes are on the medium. */
  ghost predicate Sound(d: DiskState) {
    && d.live == ApplyAll(d.durable, d.pending)
    && (forall i <- d.inodes :: i < d.next)
    && (forall t <- Possible(d.durable, d.pending) :: t.Some? ==> t.value in d.inodes && d.inodes[t.value].synced)
  }

  function BlobOf(d: DiskState, t: Option<nat>): Option<Blob> {
    if t.Some? && t.value in d.inodes then Some(d.inodes[t.value].content) else None
  }

  /** The contents a crash in `d` may leave at the target, `None` standing for no file. */
  function PossibleBlobs(d: DiskState): set<Option<Blob>> {
    set t | t in Possible(d.durable, d.pending) :: BlobOf(d, t)
  }

  /** After a crash in a consistent state the disk is consistent again, and the target holds one
      of the possible contents, whole. */
  lemma CrashLeavesAPossibleBlob(d: DiskState, after: DiskState)
    requires Sound(d) && Crashed(d, after)
    ensures Sound(after) && TargetBlob(after) in PossibleBlobs(d) && PossibleBlobs(after) <= PossibleBlobs(d)
  {
    var mask: seq<bool> :| |mask| == |d.pending| && after.live == ApplyAll(d.durable, Kept(d.pending, mask));
    CrashTargetIsPossible(d.durable, d.pending, mask);
    var t := Get(after.live, Target);
    assert Possible(after.durable, after.pending) == {t};
    assert BlobOf(after, t) == BlobOf(d, t);
  }

  lemma {:induction false} EachEntryCanBeLeft(dir: map<Name, nat>, ops: seq<DirOp>, entry: Option<nat>)
    returns (mask: seq<bool>)
    requires entry in Possible(dir, ops)
    ensures |mask| == |ops| && Get(ApplyAll(dir, Kept(ops, mask)), Target) == entry
  {
    if ops == [] {
      mask := [];
    } else {
      var n := |ops| - 1;
      var kept;
      if entry in Possible(dir, ops[..n]) {
        mask := EachEntryCanBeLeft(dir, ops[..n], entry);
        kept := Kept(ops[..n], mask);
        assert kept + [] == kept;
        mask := mask + [false];
      } else {
        mask := seq(n, _ => false);
        kept := Kept(ops[..n], mask);
        assert (kept + [ops[n]])[..|kept|] == kept;
        mask := mask + [true];
      }
      assert mask[..n] + [mask[n]] == mask;
    }
  }

  /** Nothing possible is ruled out: each of those contents is what some crash leaves. */
  lemma EachPossibleBlobCanBeLeft(d: DiskState, b: Option<Blob>)
    requires Sound(d) && b in PossibleBlobs(d)
    ensures exists after :: Crashed(d, after) && TargetBlob(after) == b
  {
    var t :| t in Possible(d.durable, d.pending) && BlobOf(d, t) == b;
    var mask := EachEntryCanBeLeft(d.durable, d.pending, t);
    var live := ApplyAll(d.durable, Kept(d.pending, mask));
    var inodes := map i | i in d.inodes :: Inode(d.inodes[i].content, true);
    var after := DiskState(inodes, d.next, live, live, []);
    assert Crashed(d, after) && TargetBlob(after) == b;
  }

  lemma LiveBlobIsPossible(d: DiskState)
    requires Sound(d)
    ensures TargetBlob(d) in PossibleBlobs(d)
  {
    LiveTargetIsPossible(d.durable, d.pending);
    assert BlobOf(d, Get(d.live, Target)) == TargetBlob(d);
  }

  // ---------------------------------------------------------------- file operations

  function Do(d: DiskState, op: DirOp): DiskState {
    d.(live := Apply(d.live, op), pending := d.pending + [op])
  }

  /** `open(O_CREAT | O_EXCL)` on an absent name. */
  function Create(d: DiskState, n: Name): DiskState {
    Do(d.(inodes := d.inodes[d.next := Inode(Garbage, false)], next := d.next + 1), Link(n, d.next))
  }

  function Write(d: DiskState, ino: nat, content: Blob): DiskState {
    d.(inodes := d.inodes[ino := Inode(content, false)])
  }

  function Fsync(d: DiskState, ino: nat): DiskState
    requires ino in d.inodes
  {
    d.(inodes := d.inodes[ino := d.inodes[ino].(synced := true)])
  }

  function Replace(d: DiskState, from: Name, to: Name): DiskState
    requires from in d.live
  {
    Do(d, Rename(from, to, d.live[from]))
  }

  function Remove(d: DiskState, n: Name): DiskState {
    Do(d, Unlink(n))
  }

  function FsyncDirectory(d: DiskState): DiskState {
    d.(durable := d.live, pending := [])
  }

  /** `s` is reached from `start` and a crash in it can leave nothing at the target but what a
      crash in `start` could, or the complete new contents. */
  ghost predicate Safe(start: DiskState, s: DiskState, data: Blob) {
    && Sound(s)
    && PossibleBlobs(s) <= PossibleBlobs(start) + {Some(data)}
  }

  lemma DoStep(d: DiskState, op: DirOp)
    ensures ApplyAll(d.durable, d.pending + [op]) == Apply(ApplyAll(d.durable, d.pending), op)
    ensures Possible(d.durable, d.pending + [op]) ==
            match Touch(op, Target)
            case None => Possible(d.durable, d.pending)
            case Some(entry) => Possible(d.durable, d.pending) + {entry}
    ensures forall n :: Untouched(d.pending + [op], n) <==> Untouched(d.pending, n) && Touch(op, n).None?
  {
    assert (d.pending + [op])[..|d.pending|] == d.pending;
  }

  /** Operations on a temp file do not change what can be left at the target. */
  lemma TempOpIsSafe(start: DiskState, d: DiskState, op: DirOp, data: Blob)
    requires Safe(start, d, data) && Touch(op, Target).None?
    ensures Safe(start, Do(d, op), data) && PossibleBlobs(Do(d, op)) == PossibleBlobs(d)
  {
    DoStep(d, op);
    SamePossible(d, Do(d, op));
  }

  lemma SamePossible(d: DiskState, e: DiskState)
    requires Possible(d.durable, d.pending) == Possible(e.durable, e.pending)
    requires forall t <- Possible(d.durable, d.pending) :: BlobOf(d, t) == BlobOf(e, t)
    ensures PossibleBlobs(d) == PossibleBlobs(e)
  {
    forall b | b in PossibleBlobs(d) ensures b in PossibleBlobs(e) {
      var t :| t in Possible(d.durable, d.pending) && BlobOf(d, t) == b;
      assert BlobOf(e, t) == b;
    }
    forall b | b in PossibleBlobs(e) ensures b in PossibleBlobs(d) {
      var t :| t in Possible(e.durable, e.pending) && BlobOf(e, t) == b;
      assert BlobOf(d, t) == b;
    }
  }

  /** Creating a file, or touching the contents of one no crash can leave at the target. */
  lemma InodeChangeIsSafe(start: DiskState, d: DiskState, ino: nat, inode: Inode, data: Blob)
    requires Safe(start, d, data) && ino <= d.next && Some(ino) !in Possible(d.durable, d.pending)
    ensures var e := d.(inodes := d.inodes[ino := inode], next := if ino == d.next then d.next + 1 else d.next);
            Safe(start, e, data) && PossibleBlobs(e) == PossibleBlobs(d)
  {
    SamePossible(d, d.(inodes := d.inodes[ino := inode], next := if ino == d.next then d.next + 1 else d.next));
  }

  /** Putting a synced file at the target adds just its contents to what a crash can leave. */
  lemma ReplaceIsSafe(start: DiskState, d: DiskState, from: Name, data: Blob)
    requires Safe(start, d, data) && from in d.live && from != Target
    requires d.live[from] in d.inodes && d.inodes[d.live[from]] == Inode(data, true)
    ensures Safe(start, Replace(d, from, Target), data)
    ensures TargetBlob(Replace(d, from, Target)) == Some(data)
  {
    var op := Rename(from, Target, d.live[from]);
    var e := Replace(d, from, Target);
    DoStep(d, op);
    forall b | b in PossibleBlobs(e) ensures b in PossibleBlobs(start) + {Some(data)} {
      var t :| t in Possible(e.durable, e.pending) && BlobOf(e, t) == b;
      if t in Possible(d.durable, d.pending) {
        assert BlobOf(d, t) == b;
      }
    }
  }

  /** A directory fsync makes the live target the only one a crash can leave. */
  lemma DirectorySyncSettles(start: DiskState, d: DiskState, data: Blob)
    requires Safe(start, d, data)
    ensures Safe(start, FsyncDirectory(d), data)
    ensures PossibleBlobs(FsyncDirectory(d)) == {TargetBlob(d)}
  {
    LiveTargetIsPossible(d.durable, d.pending);
    LiveBlobIsPossible(d);
    var e := FsyncDirectory(d);
    assert Possible(e.durable, e.pending) == {Get(d.live, Target)};
    assert BlobOf(e, Get(d.live, Target)) == TargetBlob(d);
  }
}
