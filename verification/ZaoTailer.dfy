/** The inotify-driven tailer that caches the latest Zao block, the producer that watches the log
    for it, and the log file itself, changed by other programs at any moment. */
module ZaoTailer {
  import opened Wire
  import opened ZaoLog

  /** The file at the log's path: its identity, its size and its lines. */
  datatype File = File(inode: nat, size: nat, lines: seq<Line>)

  datatype Stat = Stat(inode: nat, size: nat)

  datatype Tailer = Tailer(snapshot: Snapshot, lastOffset: nat, lastInode: Option<nat>)

  /** What the producer has made of an inotify event. */
  datatype Masks = Masks(modified: bool, moveOrDeleteSelf: bool, createOrMovedTo: bool, nameMatches: bool)

  const Missing := NoBlock("zao_log_missing")

  /** What the whole-file parser would return now. */
  function FreshParse(path: Option<File>): Snapshot {
    match path case None => Missing case Some(f) => Parse(f.lines)
  }

  // ---------------------------------------------------------------- the tailer

  function Constructed(path: Option<File>): Tailer {
    match path
    case None => Tailer(Missing, 0, None)
    case Some(f) => Tailer(FreshParse(path), f.size, Some(f.inode))
  }

  /** One event, given what `stat` answered and what the parse that follows it returned. */
  function Handled(t: Tailer, m: Masks, stat: Option<Stat>, parsed: Snapshot): Tailer {
    if m.moveOrDeleteSelf then t.(snapshot := Missing, lastOffset := 0)
    else if m.createOrMovedTo && m.nameMatches then
      (match stat case None => t case Some(st) => Tailer(parsed, st.size, Some(st.inode)))
    else if m.modified then
      (match stat
       case None => t
       case Some(st) => Tailer(parsed, st.size, if t.lastInode.Some? then Some(st.inode) else None))
    else t
  }

  /** Whether the event wakes the cycle loop. */
  predicate Wakes(m: Masks, stat: Option<Stat>) {
    m.moveOrDeleteSelf || (((m.createOrMovedTo && m.nameMatches) || m.modified) && stat.Some?)
  }

  class ZaoLogInotifyTailer {
    var snapshot: Snapshot
    var lastOffset: nat
    var lastInode: Option<nat>
    var wakes: nat

    constructor (path: Option<File>)
      ensures Contents() == Constructed(path) && wakes == 0
      ensures path.None? ==> snapshot == NoBlock("zao_log_missing") && lastOffset == 0 && lastInode == None
      ensures path.Some? ==> snapshot == Parse(path.value.lines) && lastOffset == path.value.size
                             && lastInode == Some(path.value.inode)
    {
      wakes := 0;
      snapshot, lastOffset, lastInode := Missing, 0, None;
      if path.Some? {
        lastInode, lastOffset := Some(path.value.inode), path.value.size;
        snapshot := FreshParse(path);
      }
    }

    function Contents(): Tailer
      reads this
    {
      Tailer(snapshot, lastOffset, lastInode)
    }

    predicate IsLineActive(line: nat)
      reads this
    {
      snapshot.IsLineActive(line)
    }

    method OnInotifyEvent(m: Masks, stat: Option<Stat>, parsed: Snapshot)
      modifies this
      ensures Contents() == Handled(old(Contents()), m, stat, parsed)
      ensures wakes == old(wakes) + (if Wakes(m, stat) then 1 else 0)
      ensures m.moveOrDeleteSelf ==> snapshot == Missing && wakes == old(wakes) + 1
      ensures !m.moveOrDeleteSelf && (stat.None? || !(m.modified || (m.createOrMovedTo && m.nameMatches))) ==>
                Contents() == old(Contents()) && wakes == old(wakes)
      ensures !m.moveOrDeleteSelf && stat.Some? && (m.modified || (m.createOrMovedTo && m.nameMatches)) ==>
                snapshot == parsed && lastOffset == stat.value.size && wakes == old(wakes) + 1
    {
      if m.moveOrDeleteSelf {
        lastOffset := 0;
        snapshot := Missing;
        wakes := wakes + 1;
        return;
      }
      if m.createOrMovedTo && m.nameMatches {
        if stat.None? {
          return;
        }
        lastInode, lastOffset := Some(stat.value.inode), stat.value.size;
        snapshot := parsed;
        wakes := wakes + 1;
        return;
      }
      if m.modified {
        if stat.None? {
          return;
        }
        if stat.value.size < lastOffset {
          lastOffset := 0;
        }
        if lastInode.Some? && stat.value.inode != lastInode.value {
          lastInode := Some(stat.value.inode);
          lastOffset := 0;
        }
        snapshot := parsed;
        lastOffset := stat.value.size;
        wakes := wakes + 1;
      }
    }
  }

  /** The remembered size and inode never decide what is cached: only the snapshot carries over. */
  lemma OffsetAndInodeDoNotMatter(a: Tailer, b: Tailer, m: Masks, stat: Option<Stat>, parsed: Snapshot)
    requires a.snapshot == b.snapshot
    ensures Handled(a, m, stat, parsed).snapshot == Handled(b, m, stat, parsed).snapshot
    ensures Handled(a, m, stat, parsed).snapshot != a.snapshot ==> Wakes(m, stat)
  {
  }

  /** The cycle loop is woken exactly by the watched file's going away, and by a change or an arrival
      under the log's own name that `stat` can still see; then and only then is anything cached: the
      parse, or, when the file has gone, that it is missing. */
  lemma WokenExactlyByWhatIsCached(t: Tailer, m: Masks, stat: Option<Stat>, parsed: Snapshot)
    ensures var readable := stat.Some? && (m.modified || (m.createOrMovedTo && m.nameMatches));
            && (Wakes(m, stat) <==> m.moveOrDeleteSelf || readable)
            && Handled(t, m, stat, parsed).snapshot ==
               (if m.moveOrDeleteSelf then NoBlock("zao_log_missing") else if readable then parsed else t.snapshot)
            && Handled(t, m, stat, parsed).lastOffset ==
               (if m.moveOrDeleteSelf then 0 else if readable then stat.value.size else t.lastOffset)
            && Handled(t, m, stat, parsed).lastInode ==
               (if !m.moveOrDeleteSelf && readable && ((m.createOrMovedTo && m.nameMatches) || t.lastInode.Some?)
                then Some(stat.value.inode) else t.lastInode)
  {
  }

  // ---------------------------------------------------------------- the producer's dispatch

  /** Whether an event makes the producer watch the log file: only one of the parent directory,
      only for the log's own name, and only while it holds no handle. */
  predicate AddsWatch(hasHandle: bool, fromParent: bool, m: Masks) {
    fromParent && m.createOrMovedTo && m.nameMatches && !hasHandle
  }

  /** The producer's watch handles; each event carries the handle it came from. */
  class Producer {
    const eventsParent: nat
    const zaoParent: nat
    var zaoFile: Option<nat>

    constructor (eventsParent: nat, zaoParent: nat, fileHandle: nat, fileExists: bool)
      requires eventsParent != zaoParent
      ensures this.eventsParent == eventsParent && this.zaoParent == zaoParent
      ensures zaoFile == if fileExists then Some(fileHandle) else None
    {
      this.eventsParent, this.zaoParent := eventsParent, zaoParent;
      zaoFile := if fileExists then Some(fileHandle) else None;
    }

    /** One event: it goes to the event-log reopener, to the tailer, or nowhere. The tailer's
        `stat` and parse come after the watch, if any, was added. */
    method HandleEvent(tailer: ZaoLogInotifyTailer, watch: nat, m: Masks, eventsNameMatches: bool,
                       nextHandle: nat, stat: Option<Stat>, parsed: Snapshot)
      returns (reopen: bool)
      modifies this, tailer
      ensures reopen <==> watch == eventsParent && m.createOrMovedTo && eventsNameMatches
      ensures watch == eventsParent ==> zaoFile == old(zaoFile) && tailer.Contents() == old(tailer.Contents())
      ensures watch != eventsParent ==>
                && zaoFile == (if AddsWatch(old(zaoFile).Some?, watch == zaoParent, m) then Some(nextHandle)
                               else old(zaoFile))
                && tailer.Contents() == (if watch == zaoParent || old(zaoFile) == Some(watch)
                                         then Handled(old(tailer.Contents()), m, stat, parsed)
                                         else old(tailer.Contents()))
    {
      reopen := false;
      if watch == eventsParent {
        reopen := m.createOrMovedTo && eventsNameMatches;
        return;
      }
      if watch == zaoParent || zaoFile == Some(watch) {
        if watch == zaoParent && m.createOrMovedTo && m.nameMatches && zaoFile.None? {
          zaoFile := Some(nextHandle);
        }
        tailer.OnInotifyEvent(m, stat, parsed);
      }
    }
  }

  // ---------------------------------------------------------------- the world

  /** `Other` is an event that concerns neither the log's contents nor its name. */
  datatype Event = FileModified | FileGone | LogCreated | Other

  /** Where the producer is: not running, awaiting an event, or handling one, with other programs
      free to act before each of its calls. */
  datatype Phase = Down | Idle | Watching | Statting(created: bool) | Parsing(created: bool, stat: Stat)

  /** `watched` is the inode the kernel watches for us, `handle` whether the producer holds a watch
      handle. `missed` remembers a change that no event told of since the last parse. */
  datatype World = World(
    path: Option<File>, nextInode: nat,
    watched: Option<nat>, handle: bool, pending: seq<Event>,
    phase: Phase, tailer: Tailer, missed: bool)

  datatype Move =
    | Write(size: nat, lines: seq<Line>, merge: bool)
    | Create(size: nat, lines: seq<Line>)
    | Vanish(unlinked: bool)
    | Return(size: nat, lines: seq<Line>)
    | TouchMovedFile(renamed: bool)
    | Noise
    | Start | Crash
    | Take | AddWatch | StatFile | ReadFile

  predicate Enabled(w: World, m: Move) {
    match m
    case Write(_, _, _) => w.path.Some?
    case Create(_, _) => w.path.None?
    case Vanish(_) => w.path.Some?
    case Return(_, _) => w.path.None? && w.watched.Some?
    case TouchMovedFile(_) => w.watched.Some? && !WatchInPlace(w)
    case Noise => w.phase != Down
    case Start => w.phase == Down
    case Crash => w.phase != Down
    case Take => w.phase == Idle && w.pending != []
    case AddWatch => w.phase == Watching
    case StatFile => w.phase.Statting?
    case ReadFile => w.phase.Parsing?
  }

  /** The kernel watch is on the file now at the path. */
  predicate WatchInPlace(w: World) {
    w.path.Some? && w.watched == Some(w.path.value.inode)
  }

  /** The kernel may merge an event into an equal one that is still unread. */
  function Queue(pending: seq<Event>, e: Event, merge: bool): seq<Event> {
    if merge && pending != [] && pending[|pending| - 1] == e then pending else pending + [e]
  }

  /** An event that will change the cache is queued or being handled. */
  predicate Dirty(w: World) {
    || FileModified in w.pending || LogCreated in w.pending || FileGone in w.pending
    || w.phase.Watching? || w.phase.Statting? || w.phase.Parsing?
  }

  /** The producer ends, its queue of events and its watches with it. */
  function Ended(w: World): World {
    w.(phase := Down, pending := [], watched := None, handle := false, missed := w.missed || Dirty(w))
  }

  function MasksOf(created: bool): Masks {
    if created then Masks(false, false, true, true) else Masks(true, false, false, true)
  }

  const GoneMasks := Masks(false, true, false, true)

  function Fire(w: World, m: Move): World
    requires Enabled(w, m)
  {
    match m
    case Write(size, lines, merge) =>
      var f := w.path.value.(size := size, lines := lines);
      if WatchInPlace(w) then w.(path := Some(f), pending := Queue(w.pending, FileModified, merge))
      else w.(path := Some(f), missed := true)
    case Create(size, lines) =>
      var x := w.(path := Some(File(w.nextInode, size, lines)), nextInode := w.nextInode + 1);
      if w.phase == Down then x.(missed := true) else x.(pending := w.pending + [LogCreated])
    case Vanish(unlinked) =>
      if WatchInPlace(w) then
        w.(path := None, pending := w.pending + [FileGone], watched := if unlinked then None else w.watched)
      else w.(path := None, missed := true)
    case Return(size, lines) =>
      w.(path := Some(File(w.watched.value, size, lines)), pending := w.pending + [LogCreated, FileGone])
    case TouchMovedFile(renamed) =>
      w.(pending := w.pending + [if renamed then FileGone else FileModified])
    case Noise => w.(pending := w.pending + [Other])
    case Start =>
      w.(phase := Idle, pending := [], handle := w.path.Some?,
         watched := if w.path.Some? then Some(w.path.value.inode) else None)
    case Crash => Ended(w)
    case Take => (
      var x := w.(pending := w.pending[1..]);
      match w.pending[0]
      case Other => x
      case FileGone => x.(tailer := Handled(w.tailer, GoneMasks, None, Missing))
      case FileModified => x.(phase := Statting(false))
      case LogCreated => x.(phase := if AddsWatch(w.handle, true, MasksOf(true)) then Watching else Statting(true)))
    case AddWatch =>
      if w.path.None? then Ended(w)
      else w.(handle := true, watched := Some(w.path.value.inode), phase := Statting(true))
    case StatFile =>
      if w.path.None? then w.(phase := Idle)
      else w.(phase := Parsing(w.phase.created, Stat(w.path.value.inode, w.path.value.size)))
    case ReadFile =>
      w.(tailer := Handled(w.tailer, MasksOf(w.phase.created), Some(w.phase.stat), FreshParse(w.path)),
         phase := Idle, missed := false)
  }

  /** The daemon has built the tailer; the producer has not started. */
  function Boot(path: Option<File>): World {
    World(path, if path.Some? then path.value.inode + 1 else 0, None, false, [], Down, Constructed(path), false)
  }

  /** The moves of a log that is appended to, truncated or created for the first time, but never
      moved away or deleted. */
  predicate NoRotation(m: Move) {
    !m.Vanish? && !m.Return? && !m.TouchMovedFile?
  }

  ghost predicate Step(w: World, x: World) {
    exists m :: Enabled(w, m) && NoRotation(m) && x == Fire(w, m)
  }

  ghost predicate StepWithoutCrash(w: World, x: World) {
    exists m :: Enabled(w, m) && NoRotation(m) && !m.Crash? && x == Fire(w, m)
  }

  /** A run of producer, tailer and log without create-mode rotation; crashes and restarts of the
      producer included. */
  ghost predicate IsRun(path: Option<File>, run: seq<World>) {
    && |run| > 0 && run[0] == Boot(path)
    && forall i | 0 < i < |run| :: Step(run[i - 1], run[i])
  }

  // ---------------------------------------------------------------- coherence

  ghost predicate Inv(w: World) {
    && (w.missed || Dirty(w) || w.tailer.snapshot == FreshParse(w.path))
    && (w.phase == Down ==> w.pending == [] && w.watched.None?)
    && (w.watched.Some? ==> WatchInPlace(w)) && (w.handle <==> w.watched.Some?)
    && (w.phase.Statting? || w.phase.Parsing? || FileModified in w.pending ==> WatchInPlace(w))
    && (w.phase.Watching? || LogCreated in w.pending ==> w.path.Some?)
    && FileGone !in w.pending
    && (w.phase != Down && !w.handle && w.path.Some? ==> w.phase.Watching? || LogCreated in w.pending)
  }

  lemma TakeKeepsInv(w: World)
    requires Inv(w) && Enabled(w, Take)
    ensures Inv(Fire(w, Take))
  {
    hide Parse;
    var e, rest := w.pending[0], w.pending[1..];
    assert e in w.pending;
    assert forall x | x in rest :: x in w.pending;
    assert forall x | x in w.pending :: x == e || x in rest;
  }

  lemma StepKeepsInv(w: World, m: Move)
    requires Inv(w) && Enabled(w, m) && NoRotation(m)
    ensures Inv(Fire(w, m))
  {
    hide Parse;
    if m.Take? {
      TakeKeepsInv(w);
    }
  }

  lemma {:induction false} RunKeepsInv(path: Option<File>, run: seq<World>, i: nat)
    requires IsRun(path, run) && i < |run|
    ensures Inv(run[i])
  {
    hide Inv, Fire, Enabled;
    if i == 0 {
      BootHoldsInv(path);
    } else {
      RunKeepsInv(path, run, i - 1);
      assert Step(run[i - 1], run[i]);
      var m :| Enabled(run[i - 1], m) && NoRotation(m) && run[i] == Fire(run[i - 1], m);
      StepKeepsInv(run[i - 1], m);
    }
  }

  lemma BootHoldsInv(path: Option<File>)
    ensures Inv(Boot(path))
  {
    hide Parse;
  }

  /** Whenever nothing is pending, the cache is what a fresh parse would give, unless a change went
      by that no event told of. */
  lemma CacheIsFreshUnlessMissed(path: Option<File>, run: seq<World>, i: nat)
    requires IsRun(path, run) && i < |run| && !Dirty(run[i]) && !run[i].missed
    ensures run[i].tailer.snapshot == FreshParse(run[i].path)
  {
    RunKeepsInv(path, run, i);
  }

  lemma WatchedStep(w: World, m: Move)
    requires Inv(w) && WatchInPlace(w) && !w.missed
    requires Enabled(w, m) && NoRotation(m) && !m.Crash?
    ensures var x := Fire(w, m); WatchInPlace(x) && !x.missed && x.phase != Down
  {
    hide Parse;
  }

  /** And none does once the file watch is in place and the cache was parsed with it: until the
      producer crashes, in every run of appends, truncations and other events. */
  lemma {:induction false} NothingIsMissedOnceWatched(path: Option<File>, run: seq<World>, i: nat, j: nat)
    requires IsRun(path, run) && i <= j < |run|
    requires WatchInPlace(run[i]) && !run[i].missed
    requires forall k | i < k <= j :: StepWithoutCrash(run[k - 1], run[k])
    ensures WatchInPlace(run[j]) && !run[j].missed
    ensures !Dirty(run[j]) ==> run[j].tailer.snapshot == FreshParse(run[j].path)
  {
    hide Inv, Fire, Enabled, WatchInPlace, Dirty;
    if i < j {
      NothingIsMissedOnceWatched(path, run, i, j - 1);
      RunKeepsInv(path, run, j - 1);
      assert StepWithoutCrash(run[j - 1], run[j]);
      var m :| Enabled(run[j - 1], m) && NoRotation(m) && !m.Crash? && run[j] == Fire(run[j - 1], m);
      WatchedStep(run[j - 1], m);
    }
    if !Dirty(run[j]) {
      CacheIsFreshUnlessMissed(path, run, j);
    }
  }

  /** Coherence: from the first event that is parsed, the cache agrees with the file at every
      quiet moment. */
  lemma CoherentFromFirstParse(path: Option<File>, run: seq<World>, i: nat, j: nat)
    requires IsRun(path, run) && 0 < i <= j < |run|
    requires run[i - 1].phase.Parsing? && run[i] == Fire(run[i - 1], ReadFile)
    requires forall k | i < k <= j :: StepWithoutCrash(run[k - 1], run[k])
    ensures !Dirty(run[j]) ==> run[j].tailer.snapshot == FreshParse(run[j].path)
  {
    RunKeepsInv(path, run, i - 1);
    NothingIsMissedOnceWatched(path, run, i, j);
  }

  /** Who can act when. Other programs write, move or delete the log while there is one and create it
      while there is none; a watched file away from the path can still be written or renamed, and moved
      back while there is no other. The producer can crash whenever it runs, be started whenever it
      does not, and running always has exactly one step of its own, but when it waits for an event. */
  lemma WhoCanAct(w: World, size: nat, lines: seq<Line>, merge: bool, flag: bool)
    ensures Enabled(w, Write(size, lines, merge)) <==> w.path.Some?
    ensures Enabled(w, Vanish(flag)) <==> w.path.Some?
    ensures Enabled(w, Create(size, lines)) <==> w.path.None?
    ensures Enabled(w, Return(size, lines)) <==> w.path.None? && w.watched.Some?
    ensures Enabled(w, TouchMovedFile(flag)) <==>
              w.watched.Some? && (w.path.None? || w.path.value.inode != w.watched.value)
    ensures Enabled(w, Start) <==> w.phase.Down?
    ensures (Enabled(w, Crash) <==> !w.phase.Down?) && (Enabled(w, Noise) <==> !w.phase.Down?)
    ensures Enabled(w, Take) <==> w.phase.Idle? && w.pending != []
    ensures Enabled(w, AddWatch) <==> w.phase.Watching?
    ensures Enabled(w, StatFile) <==> w.phase.Statting?
    ensures Enabled(w, ReadFile) <==> w.phase.Parsing?
  {
  }

  /** What changes of the log do, and what the kernel tells of them. A write to the watched file queues
      an event, which may merge with an equal unread one; to any other it goes untold. A new log is told
      of while the producer runs. A watched file that goes is told of, one not watched is not; a watched
      file moved back, or touched elsewhere, is told of. */
  lemma WhatIsToldOf(w: World, m: Move)
    requires Enabled(w, m)
    ensures var x, q := Fire(w, m), w.pending;
            var watching := w.path.Some? && w.watched == Some(w.path.value.inode);
            match m
            case Write(size, lines, merge) =>
              var f := Some(File(w.path.value.inode, size, lines));
              x == (if !watching then w.(path := f, missed := true)
                    else if merge && q != [] && q[|q| - 1] == FileModified then w.(path := f)
                    else w.(path := f, pending := q + [FileModified]))
            case Create(size, lines) =>
              var made := w.(path := Some(File(w.nextInode, size, lines)), nextInode := w.nextInode + 1);
              x == if w.phase.Down? then made.(missed := true) else made.(pending := q + [LogCreated])
            case Vanish(unlinked) =>
              x == (if !watching then w.(path := None, missed := true)
                    else if unlinked then w.(path := None, pending := q + [FileGone], watched := None)
                    else w.(path := None, pending := q + [FileGone]))
            case Return(size, lines) =>
              x == w.(path := Some(File(w.watched.value, size, lines)), pending := q + [LogCreated, FileGone])
            case TouchMovedFile(true) => x == w.(pending := q + [FileGone])
            case TouchMovedFile(false) => x == w.(pending := q + [FileModified])
            case Noise => x == w.(pending := q + [Other])
            case Start =>
              x == w.(phase := Idle, pending := [], handle := w.path.Some?,
                      watched := if w.path.Some? then Some(w.path.value.inode) else None)
            case Crash =>
              x == w.(phase := Down, pending := [], watched := None, handle := false, missed := w.missed || Dirty(w))
            case _ => x.path == w.path
  {
  }

  /** What handling one queued event comes to when nothing else acts: which events are parsed, with which
      masks, what is cached, and when the file watch is added. An arrival whose file is gone again before
      the watch is added ends the producer. */
  ghost function AfterEvent(w: World): World
    requires w.pending != []
  {
    var x := w.(pending := w.pending[1..]);
    match (w.pending[0], w.path)
    case (Other, _) => x
    case (FileGone, _) =>
      x.(tailer := Handled(w.tailer, Masks(false, true, false, true), None, NoBlock("zao_log_missing")))
    case (FileModified, None) => x
    case (FileModified, Some(f)) =>
      x.(tailer := Handled(w.tailer, Masks(true, false, false, true), Some(Stat(f.inode, f.size)), Parse(f.lines)),
         missed := false)
    case (LogCreated, None) =>
      if w.handle then x else x.(phase := Down, pending := [], watched := None, missed := true)
    case (LogCreated, Some(f)) =>
      x.(tailer := Handled(w.tailer, Masks(false, false, true, true), Some(Stat(f.inode, f.size)), Parse(f.lines)),
         missed := false, handle := true, watched := if w.handle then w.watched else Some(f.inode))
  }

  /** A step of the producer's own. */
  ghost predicate OwnStep(w: World, x: World) {
    exists m: Move :: (m.Take? || m.AddWatch? || m.StatFile? || m.ReadFile?) && Enabled(w, m) && x == Fire(w, m)
  }

  /** The producer's own steps lead from `w` to `x`. */
  ghost predicate OwnPath(w: World, states: seq<World>, x: World) {
    && |states| > 0 && states[0] == w && states[|states| - 1] == x
    && forall i | 0 < i < |states| :: OwnStep(states[i - 1], states[i])
  }

  lemma EventHandledAlone(w: World) returns (states: seq<World>)
    requires w.phase.Idle? && w.pending != []
    ensures OwnPath(w, states, AfterEvent(w))
  {
    hide Parse, OwnStep, Handled, Fire, Dirty;
    var a := OwnMove(w, Take);
    states := [w, a];
    TakeTurns(w);
    if a.phase.Watching? {
      var b := OwnMove(a, AddWatch);
      WatchTurns(a);
      states := states + [b];
    }
    var c := states[|states| - 1];
    if c.phase.Statting? {
      var d := OwnMove(c, StatFile);
      StatTurns(c);
      states := states + [d];
      if d.phase.Parsing? {
        var e := OwnMove(d, ReadFile);
        states := states + [e];
        ReadTurns(d);
      }
    }
  }

  lemma OwnMove(w: World, m: Move) returns (x: World)
    requires (m.Take? || m.AddWatch? || m.StatFile? || m.ReadFile?) && Enabled(w, m)
    ensures OwnStep(w, x) && x == Fire(w, m)
  {
    x := Fire(w, m);
  }

  lemma TakeTurns(w: World)
    requires Enabled(w, Take)
    ensures var x := w.(pending := w.pending[1..]);
            Fire(w, Take) ==
            match w.pending[0]
            case Other => x
            case FileGone =>
              x.(tailer := Handled(w.tailer, Masks(false, true, false, true), None, NoBlock("zao_log_missing")))
            case FileModified => x.(phase := Statting(false))
            case LogCreated => x.(phase := if w.handle then Statting(true) else Watching)
  {
    hide Handled;
  }

  lemma WatchTurns(w: World)
    requires w.phase.Watching?
    ensures Fire(w, AddWatch) ==
            match w.path
            case None => w.(phase := Down, pending := [], watched := None, handle := false, missed := true)
            case Some(f) => w.(handle := true, watched := Some(f.inode), phase := Statting(true))
  {
  }

  lemma StatTurns(w: World)
    requires w.phase.Statting?
    ensures Fire(w, StatFile) ==
            match w.path
            case None => w.(phase := Idle)
            case Some(f) => w.(phase := Parsing(w.phase.created, Stat(f.inode, f.size)))
  {
  }

  lemma ReadTurns(w: World)
    requires w.phase.Parsing?
    ensures Fire(w, ReadFile) ==
            w.(tailer := Handled(w.tailer,
                                 if w.phase.created then Masks(false, false, true, true)
                                 else Masks(true, false, false, true),
                                 Some(w.phase.stat), FreshParse(w.path)),
               phase := Idle, missed := false)
  {
    hide Handled, Parse;
  }

  /** What the producer still has to do, in steps. */
  function ToDo(w: World): nat {
    var now := if w.phase.Watching? then 3 else if w.phase.Statting? then 2 else if w.phase.Parsing? then 1 else 0;
    4 * |w.pending| + now
  }

  /** The producer's next step of its own. */
  lemma NextOwnStep(w: World) returns (x: World)
    requires !w.phase.Down? && ToDo(w) > 0
    ensures OwnStep(w, x) && ToDo(x) < ToDo(w) && x.path == w.path
    ensures x.phase.Down? ==> x.pending == []
    ensures Inv(w) ==> Inv(x)
  {
    hide Parse, Inv;
    var m := if w.phase.Idle? then Take else if w.phase.Watching? then AddWatch
             else if w.phase.Statting? then StatFile else ReadFile;
    x := Fire(w, m);
    if Inv(w) {
      StepKeepsInv(w, m);
    }
  }

  /** Left alone, the producer comes to rest within four steps for each event queued, and the cache is
      then a fresh parse of the log as it is, unless a change went by that no event told of. */
  lemma {:induction false} LeftAloneComesToRest(w: World) returns (states: seq<World>)
    requires !w.phase.Down? && Inv(w)
    ensures 0 < |states| <= ToDo(w) + 1 && states[0] == w
    ensures forall i | 0 < i < |states| :: OwnStep(states[i - 1], states[i])
    ensures var e := states[|states| - 1];
            && !Dirty(e) && e.path == w.path && (!e.missed ==> e.tailer.snapshot == FreshParse(w.path))
    decreases ToDo(w)
  {
    hide Parse, OwnStep;
    if ToDo(w) == 0 {
      states := [w];
    } else {
      var x := NextOwnStep(w);
      if x.phase.Down? {
        states := [w, x];
      } else {
        var rest := LeftAloneComesToRest(x);
        states := [w] + rest;
        forall i | 0 < i < |states| ensures OwnStep(states[i - 1], states[i]) {
          assert i > 1 ==> OwnStep(rest[i - 2], rest[i - 1]);
        }
      }
    }
  }

  // ---------------------------------------------------------------- what is not covered

  /** The producer runs and holds a handle, but the watch is not on the file at the path. */
  predicate Detached(w: World) {
    && w.phase != Down && w.handle && !WatchInPlace(w)
    && (w.watched.Some? ==> w.watched.value < w.nextInode)
  }

  /** What every step keeps, rotations and crashes included: inode numbers in use were given out,
      and a watch means a handle, which no waiting `add_watch` call holds. */
  predicate Tidy(w: World) {
    && (w.watched.Some? ==> w.watched.value < w.nextInode && w.handle)
    && (w.path.Some? ==> w.path.value.inode < w.nextInode)
    && (w.handle ==> w.phase != Down && !w.phase.Watching?)
  }

  ghost predicate AnyStep(w: World, x: World) {
    exists m :: Enabled(w, m) && x == Fire(w, m)
  }

  /** Neither does the producer crash, nor is the very file it watches moved back. */
  ghost predicate StepWithoutRescue(w: World, x: World) {
    exists m :: Enabled(w, m) && !m.Crash? && !m.Return? && x == Fire(w, m)
  }

  /** A run with everything allowed. */
  ghost predicate IsAnyRun(path: Option<File>, run: seq<World>) {
    && |run| > 0 && run[0] == Boot(path)
    && forall i | 0 < i < |run| :: AnyStep(run[i - 1], run[i])
  }

  lemma StepKeepsTidy(w: World, m: Move)
    requires Tidy(w) && Enabled(w, m)
    ensures Tidy(Fire(w, m))
  {
    hide Parse;
  }

  lemma {:induction false} RunIsTidy(path: Option<File>, run: seq<World>, i: nat)
    requires IsAnyRun(path, run) && i < |run|
    ensures Tidy(run[i])
  {
    hide Fire, Enabled;
    if i > 0 {
      RunIsTidy(path, run, i - 1);
      assert AnyStep(run[i - 1], run[i]);
      var m :| Enabled(run[i - 1], m) && run[i] == Fire(run[i - 1], m);
      StepKeepsTidy(run[i - 1], m);
    }
  }

  /** A rotation that moves or deletes the watched file detaches the watch. */
  lemma RotationDetaches(w: World, unlinked: bool)
    requires Tidy(w) && WatchInPlace(w)
    ensures var x := Fire(w, Vanish(unlinked)); Detached(x) && !x.phase.Watching?
  {
  }

  /** Only a restart of the producer, or the watched file coming back, ends that. */
  lemma DetachedStep(w: World, m: Move)
    requires Detached(w) && !w.phase.Watching? && Enabled(w, m)
    ensures Detached(Fire(w, m)) <==> !m.Crash? && !m.Return?
    ensures Detached(Fire(w, m)) ==> !Fire(w, m).phase.Watching?
  {
    hide Parse;
  }

  lemma {:induction false} DetachedUntilRestart(run: seq<World>, i: nat)
    requires i < |run| && Detached(run[0]) && !run[0].phase.Watching?
    requires forall k | 0 < k < |run| :: StepWithoutRescue(run[k - 1], run[k])
    ensures Detached(run[i]) && !run[i].phase.Watching?
  {
    hide Detached, Fire, Enabled;
    if i > 0 {
      DetachedUntilRestart(run, i - 1);
      assert StepWithoutRescue(run[i - 1], run[i]);
      var m :| Enabled(run[i - 1], m) && !m.Crash? && !m.Return? && run[i] == Fire(run[i - 1], m);
      DetachedStep(run[i - 1], m);
    }
  }

  /** In every run, once the watched log is moved away or deleted, no file at its path is watched
      again, whatever is created, written or rotated, before the producer is restarted or that
      same file is moved back. */
  lemma RotationIsNeverFollowed(path: Option<File>, run: seq<World>, i: nat, j: nat, unlinked: bool)
    requires IsAnyRun(path, run) && 0 < i <= j < |run|
    requires WatchInPlace(run[i - 1]) && run[i] == Fire(run[i - 1], Vanish(unlinked))
    requires forall k | i < k <= j :: StepWithoutRescue(run[k - 1], run[k])
    ensures Detached(run[j])
  {
    hide Tidy, Fire, Detached, AnyStep, StepWithoutRescue;
    RunIsTidy(path, run, i - 1);
    RotationDetaches(run[i - 1], unlinked);
    var rest := run[i..j + 1];
    forall k | 0 < k < |rest| ensures StepWithoutRescue(rest[k - 1], rest[k]) {
      assert StepWithoutRescue(run[i + k - 1], run[i + k]);
    }
    DetachedUntilRestart(rest, j - i);
  }

  /** A write to the log queues an event if and only if the watch is in place; otherwise the cache
      keeps its old value, which is then stale exactly when the write changed the latest block. */
  lemma WriteIsSeenExactlyWhenWatched(w: World, size: nat, lines: seq<Line>)
    requires w.path.Some? && !Dirty(w) && w.tailer.snapshot == FreshParse(w.path)
    ensures var x := Fire(w, Write(size, lines, false));
            && (Dirty(x) <==> WatchInPlace(w))
            && (!WatchInPlace(w) ==>
                  (x.tailer.snapshot == FreshParse(x.path) <==> Parse(lines) == Parse(w.path.value.lines)))
  {
    hide Parse;
  }

  lemma Joined(w: World, m: Move, x: World)
    requires Enabled(w, m) && Fire(w, m) == x
    ensures AnyStep(w, x) && (NoRotation(m) ==> Step(w, x))
  {
  }

  const ONE_LINE: seq<Line> := [Some(Record("t", 1, true))]

  lemma OneLineParses()
    ensures Parse([]) == NoBlock("zao_log_no_rascow_stat") && Parse(ONE_LINE).Latest?
  {
  }

  /** Between building the tailer and starting the producer, a write goes by unseen. */
  lemma StartupGapGoesUnseen()
    ensures exists path: Option<File>, run: seq<World> :: IsRun(path, run) && Stale(run[|run| - 1])
  {
    hide Step, Parse;
    OneLineParses();
    var path := Some(File(0, 0, []));
    var w0 := Boot(path);
    var w1 := w0.(path := Some(File(0, 9, ONE_LINE)), missed := true);
    var w2 := w1.(phase := Idle, handle := true, watched := Some(0));
    Joined(w0, Write(9, ONE_LINE, false), w1);
    Joined(w1, Start, w2);
    var run := [w0, w1, w2];
    assert IsRun(path, run) && run[|run| - 1] == w2;
  }

  /** Running, quiet, and wrong about the latest block. */
  predicate Stale(w: World) {
    w.phase == Idle && !Dirty(w) && w.tailer.snapshot != FreshParse(w.path)
  }

  /** After a create-mode rotation: the watched log is moved away and created anew, both events are
      handled, and what is then written to the new log goes unseen. */
  function Rotated(k: nat): World {
    var watching := Boot(Some(File(0, 0, []))).(phase := Idle, handle := true, watched := Some(0));
    var gone := watching.(path := None, nextInode := 1, tailer := Tailer(Missing, 0, Some(0)));
    var created := gone.(path := Some(File(1, 0, [])), nextInode := 2);
    var parsed := created.(tailer := Tailer(Parse([]), 0, Some(1)));
    if k == 0 then Boot(Some(File(0, 0, [])))
    else if k == 1 then watching
    else if k == 2 then watching.(path := None, pending := [FileGone])
    else if k == 3 then gone
    else if k == 4 then created.(pending := [LogCreated])
    else if k == 5 then created.(phase := Statting(true))
    else if k == 6 then created.(phase := Parsing(true, Stat(1, 0)))
    else if k == 7 then parsed
    else parsed.(path := Some(File(1, 9, ONE_LINE)), missed := true)
  }

  function RotationMove(k: nat): Move {
    if k == 0 then Start
    else if k == 1 then Vanish(false)
    else if k == 2 then Take
    else if k == 3 then Create(0, [])
    else if k == 4 then Take
    else if k == 5 then StatFile
    else if k == 6 then ReadFile
    else Write(9, ONE_LINE, false)
  }

  lemma RotationIsRun(k: nat)
    requires k < 8
    ensures AnyStep(Rotated(k), Rotated(k + 1))
  {
    hide Parse;
    Joined(Rotated(k), RotationMove(k), Rotated(k + 1));
  }

  lemma RotationGoesUnseen()
    ensures exists path: Option<File>, run: seq<World> :: IsAnyRun(path, run) && Stale(run[|run| - 1])
  {
    hide AnyStep, Parse;
    OneLineParses();
    var run := seq(9, k requires 0 <= k => Rotated(k));
    forall i | 0 < i < |run| ensures AnyStep(run[i - 1], run[i]) {
      RotationIsRun(i - 1);
    }
    assert Stale(Rotated(8));
    assert IsAnyRun(Some(File(0, 0, [])), run) && run[|run| - 1] == Rotated(8);
  }
}
