/** Reading the Zao log: the daemon's backward scan for the latest block, and the audit tool's
    forward grouping of the whole log. A line is what the pattern makes of it: a record, or no
    match. */
module ZaoLog {
  import opened Wire

  datatype Record = Record(ts: string, line: nat, active: bool)

  type Line = Option<Record>

  datatype Snapshot = NoBlock(reason: string) | Latest(active: set<nat>, ts: string)
  {
    predicate IsLineActive(line: nat) { Latest? && line in active }
  }

  /** One block as the audit tool keeps it. */
  datatype Block = Block(ts: string, active: set<nat>)

  function ActiveLines(records: seq<Record>): set<nat> {
    set r | r in records && r.active :: r.line
  }

  // ---------------------------------------------------------------- the backward scan

  /** The unbroken same-timestamp run of matching lines that ends at the last line. */
  function Run(lines: seq<Line>): seq<Record> {
    if lines == [] || lines[|lines| - 1].None? then []
    else
      var r, before := lines[|lines| - 1].value, Run(lines[..|lines| - 1]);
      if before != [] && before[0].ts == r.ts then before + [r] else [r]
  }

  /** The same run, ending at the last line that matches. */
  function LatestRun(lines: seq<Line>): seq<Record> {
    if lines == [] then []
    else if lines[|lines| - 1].None? then LatestRun(lines[..|lines| - 1])
    else Run(lines)
  }

  function Summary(records: seq<Record>): Snapshot {
    if records == [] then NoBlock("zao_log_no_rascow_stat") else Latest(ActiveLines(records), records[0].ts)
  }

  function Parse(lines: seq<Line>): Snapshot {
    Summary(LatestRun(lines))
  }

  method ParseBytes(lines: seq<Line>) returns (snapshot: Snapshot)
    ensures snapshot == Parse(lines)
  {
    hide Run, LatestRun, ActiveLines;
    var collected: seq<Record> := [];
    var blockTs: Option<string> := None;
    ghost var block: seq<Record> := [];
    var i := |lines|;
    assert lines[..i] == lines;
    while i > 0
      invariant i <= |lines|
      invariant LatestRun(lines) == Uncollected(lines[..i], blockTs) + block
      invariant blockTs.None? <==> block == []
      invariant forall r | r in block :: blockTs == Some(r.ts)
      invariant forall r :: r in collected <==> r in block
    {
      var line := lines[i - 1];
      assert lines[..i] == lines[..i - 1] + [line];
      ScanStep(lines[..i - 1], line, blockTs);
      if line.None? {
        if blockTs.Some? {
          break;
        }
      } else {
        var ts := line.value.ts;
        if blockTs.None? {
          blockTs := Some(ts);
        } else if ts != blockTs.value {
          break;
        }
        collected := collected + [line.value];
        block := [line.value] + block;
      }
      i := i - 1;
    }
    EmptyScan(blockTs);
    assert LatestRun(lines) == block;
    SameActive(collected, block);
    if collected == [] {
      return NoBlock("zao_log_no_rascow_stat");
    }
    assert collected[0] in block && block[0] in block;
    snapshot := Latest(ActiveLines(collected), blockTs.value);
  }

  /** What the scan would still collect from the lines it has not reached. */
  function Uncollected(lines: seq<Line>, blockTs: Option<string>): seq<Record> {
    if blockTs.None? then LatestRun(lines)
    else if Run(lines) != [] && Run(lines)[0].ts == blockTs.value then Run(lines)
    else []
  }

  lemma EmptyScan(blockTs: Option<string>)
    ensures Uncollected([], blockTs) == []
  {
  }

  lemma ScanStep(lines: seq<Line>, line: Line, blockTs: Option<string>)
    ensures line.None? && blockTs.None? ==> Uncollected(lines + [line], None) == Uncollected(lines, None)
    ensures line.None? && blockTs.Some? ==> Uncollected(lines + [line], blockTs) == []
    ensures line.Some? && blockTs in {None, Some(line.value.ts)} ==>
              Uncollected(lines + [line], blockTs) == Uncollected(lines, Some(line.value.ts)) + [line.value]
    ensures line.Some? && blockTs !in {None, Some(line.value.ts)} ==> Uncollected(lines + [line], blockTs) == []
  {
    assert (lines + [line])[..|lines|] == lines;
    OneTimestamp(lines + [line]);
  }

  lemma {:induction false} OneTimestamp(lines: seq<Line>)
    ensures Run(lines) != [] ==> lines != [] && lines[|lines| - 1].Some?
    ensures forall r | r in Run(lines) :: r.ts == lines[|lines| - 1].value.ts
  {
    if Run(lines) != [] {
      OneTimestamp(lines[..|lines| - 1]);
    }
  }

  lemma SameActive(a: seq<Record>, b: seq<Record>)
    requires forall r :: r in a <==> r in b
    ensures ActiveLines(a) == ActiveLines(b) && (b != [] ==> a != [])
  {
    if b != [] {
      assert b[0] in b;
    }
  }

  // ---------------------------------------------------------------- what the scan returns

  /** All of `[lo, hi)` match, with one timestamp. */
  predicate SameStamp(lines: seq<Line>, lo: nat, hi: nat)
    requires lo < hi <= |lines|
  {
    lines[lo].Some? && forall i | lo <= i < hi :: lines[i].Some? && lines[i].value.ts == lines[lo].value.ts
  }

  /** `[lo, hi)` is the longest contiguous same-timestamp stretch of matching lines ending at the
      last line that matches. */
  ghost predicate IsLatestBlock(lines: seq<Line>, lo: nat, hi: nat) {
    && lo < hi <= |lines|
    && SameStamp(lines, lo, hi)
    && (forall i | hi <= i < |lines| :: lines[i].None?)
    && (lo > 0 && lines[lo - 1].Some? ==> lines[lo - 1].value.ts != lines[lo].value.ts)
  }

  function Values(lines: seq<Line>): seq<Record>
    requires forall i | 0 <= i < |lines| :: lines[i].Some?
  {
    seq(|lines|, i requires 0 <= i < |lines| => lines[i].value)
  }

  lemma {:induction false} RunIsTheBlock(lines: seq<Line>, lo: nat)
    requires IsLatestBlock(lines, lo, |lines|)
    ensures Run(lines) == Values(lines[lo..])
  {
    var n := |lines| - 1;
    if lo == n {
      OneTimestamp(lines[..n]);
    } else {
      RunIsTheBlock(lines[..n], lo);
      assert lines[lo..][..n - lo] == lines[..n][lo..];
    }
  }

  /** The scan collects exactly the latest block, whichever way its bounds are found. */
  lemma {:induction false} ScanReturnsTheLatestBlock(lines: seq<Line>, lo: nat, hi: nat)
    requires IsLatestBlock(lines, lo, hi)
    ensures LatestRun(lines) == Values(lines[lo..hi])
    ensures Parse(lines) == Latest(ActiveLines(Values(lines[lo..hi])), lines[lo].value.ts)
  {
    var n := |lines| - 1;
    if hi == |lines| {
      RunIsTheBlock(lines, lo);
      assert lines[..hi] == lines;
    } else {
      ScanReturnsTheLatestBlock(lines[..n], lo, hi);
      assert lines[..n][lo..hi] == lines[lo..hi];
    }
  }

  /** There is such a block, or no line matches and the snapshot says so. */
  lemma {:induction false} ABlockOrNone(lines: seq<Line>)
    ensures (exists lo: nat, hi: nat :: IsLatestBlock(lines, lo, hi)) || forall i | 0 <= i < |lines| :: lines[i].None?
    ensures Parse(lines).NoBlock? <==> forall i | 0 <= i < |lines| :: lines[i].None?
    ensures Parse(lines).NoBlock? ==> Parse(lines).reason == "zao_log_no_rascow_stat"
  {
    if lines != [] {
      var n := |lines| - 1;
      ABlockOrNone(lines[..n]);
      if lines[n].Some? {
        var lo := Extend(lines, n);
      } else if exists lo: nat, hi: nat :: IsLatestBlock(lines[..n], lo, hi) {
        var lo: nat, hi: nat :| IsLatestBlock(lines[..n], lo, hi);
        assert IsLatestBlock(lines, lo, hi);
      }
    }
  }

  lemma {:induction false} Extend(lines: seq<Line>, from: nat) returns (lo: nat)
    requires from < |lines| && SameStamp(lines, from, |lines|)
    ensures IsLatestBlock(lines, lo, |lines|)
    decreases from
  {
    if from > 0 && lines[from - 1].Some? && lines[from - 1].value.ts == lines[from].value.ts {
      lo := Extend(lines, from - 1);
    } else {
      lo := from;
    }
  }

  // ---------------------------------------------------------------- the audit's forward grouping

  function Stamp(group: seq<Record>): string {
    if group == [] then "" else group[0].ts
  }

  /** A record joins the open block, or closes it and opens the next. */
  function AddTo(groups: seq<seq<Record>>, r: Record): seq<seq<Record>> {
    var n := |groups| - 1;
    if groups != [] && Stamp(groups[n]) == r.ts then groups[..n] + [groups[n] + [r]] else groups + [[r]]
  }

  /** The blocks so far, the last one possibly still open. A line that does not match is skipped. */
  function Groups(lines: seq<Line>): seq<seq<Record>> {
    if lines == [] then []
    else
      var n := |lines| - 1;
      if lines[n].None? then Groups(lines[..n]) else AddTo(Groups(lines[..n]), lines[n].value)
  }

  function BlockOf(records: seq<Record>): Block {
    Block(Stamp(records), ActiveLines(records))
  }

  function BlocksOf(groups: seq<seq<Record>>): seq<Block> {
    seq(|groups|, i requires 0 <= i < |groups| => BlockOf(groups[i]))
  }

  predicate Uniform(group: seq<Record>) {
    group != [] && forall r | r in group :: r.ts == Stamp(group)
  }

  /** Blocks with a record and one timestamp each, different from the next one's. */
  ghost predicate ProperGroups(groups: seq<seq<Record>>) {
    && (forall g | g in groups :: Uniform(g))
    && (forall i | 0 <= i < |groups| - 1 :: Stamp(groups[i]) != Stamp(groups[i + 1]))
  }

  function Matches(lines: seq<Line>): seq<Record> {
    if lines == [] then []
    else
      var n := |lines| - 1;
      Matches(lines[..n]) + (if lines[n].Some? then [lines[n].value] else [])
  }

  function Flatten(groups: seq<seq<Record>>): seq<Record> {
    if groups == [] then [] else Flatten(groups[..|groups| - 1]) + groups[|groups| - 1]
  }

  lemma AddToKeepsProper(groups: seq<seq<Record>>, r: Record)
    requires ProperGroups(groups)
    ensures ProperGroups(AddTo(groups, r)) && Flatten(AddTo(groups, r)) == Flatten(groups) + [r]
  {
    var n, after := |groups| - 1, AddTo(groups, r);
    if |after| == |groups| {
      assert groups[n] in groups;
      assert after[..n] == groups[..n];
      forall g | g in after ensures Uniform(g) {
        if g in groups[..n] {
          assert g in groups;
        }
      }
    } else {
      assert after[..|groups|] == groups;
    }
  }

  /** The groups cut the matching lines, in order and without loss, into maximal one-timestamp
      pieces. */
  lemma {:induction false} GroupsPartitionTheLog(lines: seq<Line>)
    ensures Flatten(Groups(lines)) == Matches(lines) && ProperGroups(Groups(lines))
  {
    hide ProperGroups, AddTo;
    if lines == [] {
      EmptyIsProper();
    } else {
      var n := |lines| - 1;
      GroupsPartitionTheLog(lines[..n]);
      if lines[n].Some? {
        AddToKeepsProper(Groups(lines[..n]), lines[n].value);
      }
    }
  }

  lemma EmptyIsProper()
    ensures ProperGroups([])
  {
  }

  method ParseZaoBlocks(lines: seq<Line>) returns (blocks: seq<Block>)
    ensures blocks == BlocksOf(Groups(lines))
  {
    hide ActiveLines;
    blocks := [];
    var currentTs: Option<string> := None;
    var currentLines: set<nat> := {};
    for i := 0 to |lines|
      invariant currentTs.None? <==> Groups(lines[..i]) == []
      invariant currentTs.None? ==> blocks == [] && currentLines == {}
      invariant currentTs.Some? ==>
                  BlocksOf(Groups(lines[..i])) == blocks + [Block(currentTs.value, currentLines)]
    {
      GroupStep(lines[..i], lines[i]);
      assert lines[..i + 1] == lines[..i] + [lines[i]];
      if lines[i].Some? {
        var r := lines[i].value;
        if currentTs.None? {
          currentTs := Some(r.ts);
        } else if r.ts != currentTs.value {
          blocks := blocks + [Block(currentTs.value, currentLines)];
          currentTs := Some(r.ts);
          currentLines := {};
        }
        if r.active {
          currentLines := currentLines + {r.line};
        }
      }
    }
    assert lines[..|lines|] == lines;
    if currentTs.Some? {
      blocks := blocks + [Block(currentTs.value, currentLines)];
    }
  }

  function Add(b: Block, r: Record): Block {
    if r.active then b.(active := b.active + {r.line}) else b
  }

  /** How the audit's block list grows with one more line. */
  lemma GroupStep(lines: seq<Line>, line: Line)
    ensures line.None? ==> Groups(lines + [line]) == Groups(lines)
    ensures line.Some? ==>
              var before, after := BlocksOf(Groups(lines)), BlocksOf(Groups(lines + [line]));
              if before != [] && before[|before| - 1].ts == line.value.ts
              then after == before[..|before| - 1] + [Add(before[|before| - 1], line.value)]
              else after == before + [Add(Block(line.value.ts, {}), line.value)]
  {
    assert (lines + [line])[..|lines|] == lines;
    if line.Some? {
      GroupsPartitionTheLog(lines);
      BlocksStep(Groups(lines), line.value);
    }
  }

  lemma BlocksStep(groups: seq<seq<Record>>, r: Record)
    requires ProperGroups(groups)
    ensures var before, after := BlocksOf(groups), BlocksOf(AddTo(groups, r));
            if before != [] && before[|before| - 1].ts == r.ts
            then after == before[..|before| - 1] + [Add(before[|before| - 1], r)]
            else after == before + [Add(Block(r.ts, {}), r)]
  {
    hide ActiveLines;
    var n := |groups| - 1;
    if groups != [] && Stamp(groups[n]) == r.ts {
      assert groups[n] in groups;
      ActiveAppend(groups[n], r);
      assert BlockOf(groups[n] + [r]) == Add(BlockOf(groups[n]), r);
    } else {
      ActiveAppend([], r);
      assert [] + [r] == [r];
      assert BlockOf([r]) == Add(Block(r.ts, {}), r);
    }
  }

  lemma ActiveAppend(records: seq<Record>, r: Record)
    ensures ActiveLines(records + [r]) == ActiveLines(records) + (if r.active then {r.line} else {})
    ensures ActiveLines([]) == {}
  {
    assert r in records + [r];
    assert forall x | x in records :: x in records + [r];
  }

  // ---------------------------------------------------------------- one against the other

  function LastGroup(lines: seq<Line>): seq<Record> {
    var groups := Groups(lines);
    if groups == [] then [] else groups[|groups| - 1]
  }

  lemma LastGroupStep(lines: seq<Line>, line: Line)
    ensures LastGroup(lines + [line]) ==
            match line
            case None => LastGroup(lines)
            case Some(r) =>
              if LastGroup(lines) != [] && LastGroup(lines)[0].ts == r.ts then LastGroup(lines) + [r] else [r]
  {
    assert (lines + [line])[..|lines|] == lines;
  }

  predicate IsSuffix(a: seq<Record>, b: seq<Record>) {
    |a| <= |b| && a == b[|b| - |a|..]
  }

  lemma TailGrows(a: seq<Record>, b: seq<Record>, r: Record)
    requires IsSuffix(a, b)
    ensures IsSuffix(a + [r], b + [r])
  {
  }

  /** The scan's block is the tail of the audit's last block, and is there exactly when that is. */
  lemma {:induction false} ScanIsTailOfLastGroup(lines: seq<Line>)
    ensures IsSuffix(LatestRun(lines), LastGroup(lines))
    ensures LatestRun(lines) == [] <==> LastGroup(lines) == []
    ensures Run(lines) != [] ==> Run(lines) == LatestRun(lines)
    ensures forall r | r in LastGroup(lines) :: LatestRun(lines) != [] && r.ts == LatestRun(lines)[0].ts
  {
    hide LastGroup, Run, LatestRun;
    if lines == [] {
      NoGroupYet();
    } else {
      var n := |lines| - 1;
      ScanIsTailOfLastGroup(lines[..n]);
      assert lines == lines[..n] + [lines[n]];
      TailStep(lines[..n], lines[n]);
    }
  }

  lemma TailStep(lines: seq<Line>, line: Line)
    requires IsSuffix(LatestRun(lines), LastGroup(lines))
    requires LatestRun(lines) == [] <==> LastGroup(lines) == []
    requires Run(lines) != [] ==> Run(lines) == LatestRun(lines)
    requires forall r | r in LastGroup(lines) :: LatestRun(lines) != [] && r.ts == LatestRun(lines)[0].ts
    ensures IsSuffix(LatestRun(lines + [line]), LastGroup(lines + [line]))
    ensures LatestRun(lines + [line]) == [] <==> LastGroup(lines + [line]) == []
    ensures Run(lines + [line]) != [] ==> Run(lines + [line]) == LatestRun(lines + [line])
    ensures forall r | r in LastGroup(lines + [line]) ::
              LatestRun(lines + [line]) != [] && r.ts == LatestRun(lines + [line])[0].ts
  {
    hide LastGroup, IsSuffix;
    LastGroupStep(lines, line);
    assert (lines + [line])[..|lines|] == lines;
    if line.Some? {
      var g := LastGroup(lines);
      if Run(lines) != [] && Run(lines)[0].ts == line.value.ts {
        TailGrows(Run(lines), g, line.value);
      } else if g != [] && g[0].ts == line.value.ts {
        LastIsSuffix(g, line.value);
      } else {
        LastIsSuffix([], line.value);
      }
    }
  }

  lemma LastIsSuffix(b: seq<Record>, r: Record)
    ensures IsSuffix([r], b + [r]) && IsSuffix([r], [r])
  {
  }

  /** So the daemon never takes for bonding a line that the audit's last block does not show
      active, and both name the same timestamp. */
  lemma ScanWithinAudit(lines: seq<Line>, line: nat)
    ensures Parse(lines).Latest? <==> BlocksOf(Groups(lines)) != []
    ensures Parse(lines).Latest? ==>
              var blocks := BlocksOf(Groups(lines));
              && Parse(lines).ts == blocks[|blocks| - 1].ts
              && Parse(lines).active <= blocks[|blocks| - 1].active
              && (Parse(lines).IsLineActive(line) ==> line in blocks[|blocks| - 1].active)
  {
    hide Groups, LatestRun, ActiveLines, Flatten, Matches;
    ScanIsTailOfLastGroup(lines);
    GroupsPartitionTheLog(lines);
    var groups := Groups(lines);
    assert groups != [] ==> groups[|groups| - 1] in groups;
    if LatestRun(lines) != [] {
      var a, b := LatestRun(lines), LastGroup(lines);
      assert a[0] == b[|b| - |a|] && b[0] in b;
      SuffixIsWithin(a, b);
    }
  }

  lemma SuffixIsWithin(a: seq<Record>, b: seq<Record>)
    requires IsSuffix(a, b)
    ensures ActiveLines(a) <= ActiveLines(b)
  {
    forall r | r in a ensures r in b {
      var i :| 0 <= i < |a| && a[i] == r;
      assert b[|b| - |a| + i] == r;
    }
  }

  /** A line of the last block: no later matching line has another timestamp. */
  predicate InLastBlock(lines: seq<Line>, i: nat)
    requires i < |lines|
  {
    lines[i].Some? && forall k | i <= k < |lines| && lines[k].Some? :: lines[k].value.ts == lines[i].value.ts
  }

  /** A line that does not match sits inside the last block. */
  ghost predicate Interrupted(lines: seq<Line>) {
    exists i: nat, j: nat, k: nat | i < j < k < |lines| :: InLastBlock(lines, i) && lines[j].None? && lines[k].Some?
  }

  /** The two readings collect the same lines if and only if no other line sits inside the last
      block. */
  lemma {:induction false} ScanEqualsAuditExactlyWhenUnbroken(lines: seq<Line>)
    ensures LatestRun(lines) == LastGroup(lines) <==> !Interrupted(lines)
  {
    if lines != [] {
      var n := |lines| - 1;
      var before := lines[..n];
      assert lines == before + [lines[n]];
      ScanEqualsAuditExactlyWhenUnbroken(before);
      LastGroupStep(before, lines[n]);
      ScanIsTailOfLastGroup(before);
      LastGroupShows(before);
      InterruptedStep(before, lines[n]);
    }
  }

  lemma InLastBlockStep(lines: seq<Line>, line: Line, i: nat)
    requires i < |lines|
    ensures InLastBlock(lines + [line], i) <==>
            InLastBlock(lines, i) && (line.Some? ==> line.value.ts == lines[i].value.ts)
  {
    var all := lines + [line];
    assert all[i] == lines[i] && all[|lines|] == line;
    if InLastBlock(all, i) {
      forall k | i <= k < |lines| && lines[k].Some? ensures lines[k].value.ts == lines[i].value.ts {
        assert all[k] == lines[k];
      }
    }
  }

  /** The timestamp of the last block can be read off any of its lines, and it has one. */
  lemma {:induction false} LastGroupShows(lines: seq<Line>)
    ensures forall i: nat | i < |lines| && InLastBlock(lines, i) ::
              LastGroup(lines) != [] && LastGroup(lines)[0].ts == lines[i].value.ts
    ensures LastGroup(lines) != [] ==> exists i: nat | i < |lines| :: InLastBlock(lines, i)
  {
    hide Groups;
    if lines == [] {
      NoGroupYet();
    } else {
      var n := |lines| - 1;
      var before := lines[..n];
      assert lines == before + [lines[n]];
      LastGroupShows(before);
      LastGroupStep(before, lines[n]);
      if lines[n].None? {
        forall i: nat | i < n ensures InLastBlock(lines, i) <==> InLastBlock(before, i) {
          InLastBlockStep(before, lines[n], i);
        }
      } else {
        assert InLastBlock(lines, n);
      }
    }
  }

  lemma NoGroupYet()
    ensures LastGroup([]) == [] && Run([]) == [] && LatestRun([]) == []
  {
  }

  /** One more line interrupts the last block only by resuming it. */
  lemma InterruptedStep(lines: seq<Line>, line: Line)
    ensures line.None? ==> (Interrupted(lines + [line]) <==> Interrupted(lines))
    ensures line.Some? && (LastGroup(lines) == [] || LastGroup(lines)[0].ts != line.value.ts) ==>
              !Interrupted(lines + [line])
    ensures line.Some? && LastGroup(lines) != [] && LastGroup(lines)[0].ts == line.value.ts ==>
              (Interrupted(lines + [line]) <==> Interrupted(lines) || lines[|lines| - 1].None?)
  {
    hide InLastBlock, LastGroup;
    LastGroupShows(lines);
    if Interrupted(lines + [line]) {
      StaysInterrupted(lines, line);
    }
    if Interrupted(lines) && (line.Some? ==> LastGroup(lines)[0].ts == line.value.ts) {
      WasInterrupted(lines, line);
    }
    if line.Some? && LastGroup(lines) != [] && LastGroup(lines)[0].ts == line.value.ts && lines[|lines| - 1].None? {
      NowInterrupted(lines, line);
    }
  }

  lemma StaysInterrupted(lines: seq<Line>, line: Line)
    requires Interrupted(lines + [line])
    ensures line.None? ==> Interrupted(lines)
    ensures line.Some? ==> LastGroup(lines) != [] && LastGroup(lines)[0].ts == line.value.ts
    ensures Interrupted(lines) || lines[|lines| - 1].None?
  {
    hide InLastBlock, LastGroup;
    var all, n := lines + [line], |lines|;
    var i: nat, j: nat, k: nat :| i < j < k < |all| && InLastBlock(all, i) && all[j].None? && all[k].Some?;
    InLastBlockStep(lines, line, i);
    LastGroupShows(lines);
    assert lines[j].None?;
    if k < n {
      assert lines[k].Some?;
    } else if lines[n - 1].Some? {
      assert InLastBlock(lines, i) && lines[j].None? && lines[n - 1].Some? && j < n - 1;
    }
  }

  lemma WasInterrupted(lines: seq<Line>, line: Line)
    requires Interrupted(lines) && (line.Some? ==> LastGroup(lines) != [] && LastGroup(lines)[0].ts == line.value.ts)
    ensures Interrupted(lines + [line])
  {
    hide InLastBlock, LastGroup;
    var i: nat, j: nat, k: nat :| i < j < k < |lines| && InLastBlock(lines, i) && lines[j].None? && lines[k].Some?;
    InLastBlockStep(lines, line, i);
    LastGroupShows(lines);
    var all := lines + [line];
    assert all[j].None? && all[k].Some?;
  }

  lemma NowInterrupted(lines: seq<Line>, line: Line)
    requires line.Some? && LastGroup(lines) != [] && LastGroup(lines)[0].ts == line.value.ts
    requires lines != [] && lines[|lines| - 1].None?
    ensures Interrupted(lines + [line])
  {
    hide LastGroup;
    LastGroupShows(lines);
    var i: nat :| i < |lines| && InLastBlock(lines, i);
    InLastBlockStep(lines, line, i);
    var all, n := lines + [line], |lines|;
    assert all[n - 1].None? && all[n].Some?;
  }

  ghost predicate ShowsRecord(lines: seq<Line>, i: nat, r: Record) {
    i < |lines| && InLastBlock(lines, i) && lines[i].value == r
  }

  /** No other line stands between line i and the last line that matches. */
  ghost predicate Unbroken(lines: seq<Line>, i: nat) {
    forall j, k | i < j < k < |lines| && lines[k].Some? :: lines[j].Some?
  }

  lemma {:induction false} LastGroupHas(lines: seq<Line>, r: Record)
    ensures r in LastGroup(lines) <==> exists i :: ShowsRecord(lines, i, r)
  {
    hide LastGroup, InLastBlock;
    if lines == [] {
      NoGroupYet();
    } else {
      var n := |lines| - 1;
      var before, line := lines[..n], lines[n];
      assert lines == before + [line];
      LastGroupHas(before, r);
      LastGroupStep(before, line);
      LastGroupShows(before);
      forall i: nat | i < n ensures ShowsRecord(lines, i, r) <==>
                                    ShowsRecord(before, i, r) && (line.Some? ==> line.value.ts == r.ts)
      {
        InLastBlockStep(before, line, i);
      }
      LastIsShown(lines, r);
      assert r in LastGroup(before) ==> exists i :: ShowsRecord(before, i, r);
    }
  }

  lemma LastIsShown(lines: seq<Line>, r: Record)
    requires lines != []
    ensures ShowsRecord(lines, |lines| - 1, r) <==> lines[|lines| - 1] == Some(r)
  {
  }

  lemma LatestRunHas(lines: seq<Line>, r: Record)
    ensures r in LatestRun(lines) <==> exists i :: ShowsRecord(lines, i, r) && Unbroken(lines, i)
  {
    hide LatestRun;
    ABlockOrNone(lines);
    if lo: nat, hi: nat :| IsLatestBlock(lines, lo, hi) {
      ScanReturnsTheLatestBlock(lines, lo, hi);
      forall i: nat ensures i < |lines| && InLastBlock(lines, i) && Unbroken(lines, i) <==> lo <= i < hi {
        LatestBlockLines(lines, lo, hi, i);
      }
      if r in LatestRun(lines) {
        var j :| 0 <= j < hi - lo && Values(lines[lo..hi])[j] == r;
        assert ShowsRecord(lines, lo + j, r);
      }
      if i: nat :| ShowsRecord(lines, i, r) && Unbroken(lines, i) {
        assert Values(lines[lo..hi])[i - lo] == r;
      }
    }
  }

  lemma LatestBlockLines(lines: seq<Line>, lo: nat, hi: nat, i: nat)
    requires IsLatestBlock(lines, lo, hi)
    ensures i < |lines| && InLastBlock(lines, i) && Unbroken(lines, i) <==> lo <= i < hi
  {
    if i < lo {
      var before, first := lines[lo - 1], lines[lo];
    }
  }

  /** The last block shows a modem line active. */
  ghost predicate Shown(lines: seq<Line>, line: nat) {
    exists i, r :: ShowsRecord(lines, i, r) && r.active && r.line == line
  }

  /** It does so after the last other line that sits inside it. */
  ghost predicate ShownUnbroken(lines: seq<Line>, line: nat) {
    exists i, r :: ShowsRecord(lines, i, r) && Unbroken(lines, i) && r.active && r.line == line
  }

  lemma AuditShows(lines: seq<Line>, line: nat)
    ensures line in ActiveLines(LastGroup(lines)) <==> Shown(lines, line)
  {
    hide LastGroup, ShowsRecord;
    if line in ActiveLines(LastGroup(lines)) {
      var r :| r in LastGroup(lines) && r.active && r.line == line;
      LastGroupHas(lines, r);
    }
    if i: nat, r :| ShowsRecord(lines, i, r) && r.active && r.line == line {
      LastGroupHas(lines, r);
    }
  }

  lemma ScanShows(lines: seq<Line>, line: nat)
    ensures line in ActiveLines(LatestRun(lines)) <==> ShownUnbroken(lines, line)
  {
    hide LatestRun, ShowsRecord, Unbroken;
    if line in ActiveLines(LatestRun(lines)) {
      var r :| r in LatestRun(lines) && r.active && r.line == line;
      LatestRunHas(lines, r);
    }
    if i: nat, r :| ShowsRecord(lines, i, r) && Unbroken(lines, i) && r.active && r.line == line {
      LatestRunHas(lines, r);
    }
  }

  /** The daemon and the audit agree on which modem lines are active if and only if every one that
      the last block shows active is shown active after the last interruption. */
  lemma ActiveSetsAgreeExactlyWhenShownUnbroken(lines: seq<Line>)
    requires Parse(lines).Latest?
    ensures var blocks := BlocksOf(Groups(lines));
            && blocks != []
            && (Parse(lines).active == blocks[|blocks| - 1].active <==>
                forall line | Shown(lines, line) :: ShownUnbroken(lines, line))
  {
    hide Groups, LatestRun, Shown, ShownUnbroken, ActiveLines;
    ScanWithinAudit(lines, 0);
    var scan, audit := ActiveLines(LatestRun(lines)), ActiveLines(LastGroup(lines));
    forall line ensures (line in audit <==> Shown(lines, line)) && (line in scan <==> ShownUnbroken(lines, line)) {
      AuditShows(lines, line);
      ScanShows(lines, line);
    }
    assert scan == audit <==> forall line <- audit :: line in scan;
  }

  /** A log in which the two disagree about a line: another program's line splits the burst. */
  lemma SplitBurstHidesALine()
    ensures exists lines: seq<Line>, line: nat ::
              && !Parse(lines).IsLineActive(line) && Groups(lines) != []
              && line in BlocksOf(Groups(lines))[|Groups(lines)| - 1].active
  {
    var a, b := Record("t", 1, true), Record("t", 2, true);
    var lines: seq<Line> := [Some(a), None, Some(b)];
    var one, two: seq<Line> := lines[..1], lines[..2];
    assert two[..1] == one && one[..0] == [] && Groups([]) == [];
    assert Groups(one) == AddTo([], a) == [[a]];
    assert Groups(two) == [[a]];
    assert [a] + [b] == [a, b] && [[a]][..0] + [[a, b]] == [[a, b]];
    assert AddTo([[a]], b) == [[a, b]];
    assert Groups(lines) == [[a, b]];
    assert a in [a, b];
    assert 1 in BlocksOf(Groups(lines))[0].active;
    assert Run(lines) == [b];
    assert !Parse(lines).IsLineActive(1);
  }

  // ---------------------------------------------------------------- the block in force at an event

  /** The last block in file order that is not later than the event, if any. */
  ghost predicate IsLastNotLater(blocks: seq<Block>, when: string -> int, event: int, index: int) {
    && -1 <= index < |blocks|
    && (index >= 0 ==> when(blocks[index].ts) <= event)
    && forall j | index < j < |blocks| :: when(blocks[j].ts) > event
  }

  /** No block that is not later than the event comes after one that is. */
  ghost predicate InOrder(blocks: seq<Block>, when: string -> int, event: int) {
    forall i, j | 0 <= i < j < |blocks| && when(blocks[i].ts) > event :: when(blocks[j].ts) > event
  }

  /** How many blocks come before the first later one. */
  function NotLaterPrefix(blocks: seq<Block>, when: string -> int, event: int): (k: nat)
    ensures k <= |blocks| && (k < |blocks| ==> when(blocks[k].ts) > event)
    ensures forall j | 0 <= j < k :: when(blocks[j].ts) <= event
  {
    if blocks == [] then 0
    else
      var n := |blocks| - 1;
      var k := NotLaterPrefix(blocks[..n], when, event);
      if k == n && when(blocks[n].ts) <= event then n + 1 else k
  }

  /** The loop stops at the first later block. */
  method FindContemporaneousBlock(blocks: seq<Block>, when: string -> int, event: int) returns (latest: Option<Block>)
    ensures var k := NotLaterPrefix(blocks, when, event);
            latest == if k > 0 then Some(blocks[k - 1]) else None
  {
    latest := None;
    for i := 0 to |blocks|
      invariant NotLaterPrefix(blocks, when, event) >= i
      invariant latest == if i > 0 then Some(blocks[i - 1]) else None
    {
      if when(blocks[i].ts) <= event {
        latest := Some(blocks[i]);
      } else {
        return;
      }
    }
  }

  /** So it finds the last block in file order that is not later than the event if and only if
      such blocks come first. */
  lemma FoundBlockIsLastExactlyWhenInOrder(blocks: seq<Block>, when: string -> int, event: int)
    ensures IsLastNotLater(blocks, when, event, NotLaterPrefix(blocks, when, event) - 1) <==>
            InOrder(blocks, when, event)
  {
    var k := NotLaterPrefix(blocks, when, event);
    if InOrder(blocks, when, event) && k < |blocks| {
      assert forall j | k < j < |blocks| :: when(blocks[j].ts) > event;
    }
  }

  /** In a log whose timestamps never go back, that is the latest block not after the event. */
  lemma SortedLogsAreInOrder(blocks: seq<Block>, when: string -> int, event: int, index: int)
    requires forall i, j | 0 <= i < j < |blocks| :: when(blocks[i].ts) <= when(blocks[j].ts)
    requires IsLastNotLater(blocks, when, event, index)
    ensures InOrder(blocks, when, event)
    ensures forall b | b in blocks && when(b.ts) <= event :: index >= 0 && when(b.ts) <= when(blocks[index].ts)
  {
  }
}
