/** Escalation through the reset ladder, driven by per-kind counters. */
module Ladder {
  import opened Wire

  datatype Choice = Run(kind: ActionKind) | LadderExhausted

  const RUNGS: seq<ActionKind> := [SoftReset, ModemReset, UsbReset]

  predicate OnLadder(k: ActionKind) {
    k in RUNGS
  }

  function RungIndex(k: ActionKind): (i: nat)
    requires OnLadder(k)
    ensures i < 3 && RUNGS[i] == k
  {
    if k == SoftReset then 0 else if k == ModemReset then 1 else 2
  }

  function Ceiling(cfg: Settings, k: ActionKind): int
    requires OnLadder(k)
  {
    if k == SoftReset then cfg.maxSoft else if k == ModemReset then cfg.maxModem else cfg.maxUsb
  }

  function WalkFrom(i: nat, counters: map<ActionKind, int>, cfg: Settings): Choice
    requires i <= 3
    decreases 3 - i
  {
    if i == 3 then LadderExhausted
    else if Count(counters, RUNGS[i]) >= Ceiling(cfg, RUNGS[i]) then WalkFrom(i + 1, counters, cfg)
    else Run(RUNGS[i])
  }

  function SelectRung(base: ActionKind, counters: map<ActionKind, int>, cfg: Settings): Choice {
    if !OnLadder(base) then Run(base) else WalkFrom(RungIndex(base), counters, cfg)
  }

  /** Resets still allowed on the rungs from index `i` upward. */
  function Headroom(i: nat, counters: map<ActionKind, int>, cfg: Settings): (h: nat)
    requires i <= 3
    decreases 3 - i
  {
    if i == 3 then 0
    else
      var left := Ceiling(cfg, RUNGS[i]) - Count(counters, RUNGS[i]);
      (if left > 0 then left else 0) + Headroom(i + 1, counters, cfg)
  }

  /** Every ladder counter is at or below its ceiling. */
  ghost predicate WithinCeilings(counters: map<ActionKind, int>, cfg: Settings) {
    forall k | OnLadder(k) :: Count(counters, k) <= Ceiling(cfg, k)
  }

  /** The chosen rung is the first one at or above the base with headroom; the ladder is
      exhausted exactly when no rung from the base up has any. */
  lemma SelectRungFindsFirstOpenRung(base: ActionKind, counters: map<ActionKind, int>, cfg: Settings)
    requires OnLadder(base)
    ensures SelectRung(base, counters, cfg).LadderExhausted? <==> Headroom(RungIndex(base), counters, cfg) == 0
    ensures SelectRung(base, counters, cfg).Run? ==>
              var k := SelectRung(base, counters, cfg).kind;
              && OnLadder(k)
              && RungIndex(base) <= RungIndex(k)
              && Count(counters, k) < Ceiling(cfg, k)
              && forall j | RungIndex(base) <= j < RungIndex(k) ::
                   Count(counters, RUNGS[j]) >= Ceiling(cfg, RUNGS[j])
  {
    WalkFromFindsFirst(RungIndex(base), counters, cfg);
  }

  lemma {:induction false} WalkFromFindsFirst(i: nat, counters: map<ActionKind, int>, cfg: Settings)
    requires i <= 3
    ensures WalkFrom(i, counters, cfg).LadderExhausted? <==> Headroom(i, counters, cfg) == 0
    ensures WalkFrom(i, counters, cfg).Run? ==>
              var k := WalkFrom(i, counters, cfg).kind;
              && OnLadder(k)
              && i <= RungIndex(k)
              && Count(counters, k) < Ceiling(cfg, k)
              && forall j | i <= j < RungIndex(k) :: Count(counters, RUNGS[j]) >= Ceiling(cfg, RUNGS[j])
    decreases 3 - i
  {
    if i < 3 {
      WalkFromFindsFirst(i + 1, counters, cfg);
    }
  }

  /** As counters grow the chosen rung never steps down, and once exhausted it stays so. */
  lemma SelectRungNeverStepsDown(base: ActionKind, before: map<ActionKind, int>, after: map<ActionKind, int>,
                                 cfg: Settings)
    requires OnLadder(base)
    requires forall k | OnLadder(k) :: Count(before, k) <= Count(after, k)
    ensures SelectRung(base, before, cfg).LadderExhausted? ==> SelectRung(base, after, cfg).LadderExhausted?
    ensures SelectRung(base, before, cfg).Run? && SelectRung(base, after, cfg).Run? ==>
              && OnLadder(SelectRung(base, before, cfg).kind) && OnLadder(SelectRung(base, after, cfg).kind)
              && RungIndex(SelectRung(base, before, cfg).kind) <= RungIndex(SelectRung(base, after, cfg).kind)
  {
    SelectRungFindsFirstOpenRung(base, before, cfg);
    SelectRungFindsFirstOpenRung(base, after, cfg);
    WalkMonotone(RungIndex(base), before, after, cfg);
  }

  lemma {:induction false} WalkMonotone(i: nat, before: map<ActionKind, int>, after: map<ActionKind, int>,
                                        cfg: Settings)
    requires i <= 3
    requires forall k | OnLadder(k) :: Count(before, k) <= Count(after, k)
    ensures WalkFrom(i, before, cfg).LadderExhausted? ==> WalkFrom(i, after, cfg).LadderExhausted?
    decreases 3 - i
  {
    if i < 3 {
      assert OnLadder(RUNGS[i]);
      WalkMonotone(i + 1, before, after, cfg);
    }
  }

  /** Running an open rung uses up exactly one unit of the headroom of every base at or below
      it, and none of the headroom above it. */
  lemma {:induction false} BumpUsesOneHeadroom(i: nat, k: ActionKind, counters: map<ActionKind, int>, cfg: Settings)
    requires i <= 3 && OnLadder(k) && Count(counters, k) < Ceiling(cfg, k)
    ensures Headroom(i, counters[k := Count(counters, k) + 1], cfg) ==
            Headroom(i, counters, cfg) - (if i <= RungIndex(k) then 1 else 0)
    decreases 3 - i
  {
    if i < 3 {
      BumpUsesOneHeadroom(i + 1, k, counters, cfg);
    }
  }

  lemma {:induction false} HeadroomFrame(i: nat, k: ActionKind, n: int, counters: map<ActionKind, int>, cfg: Settings)
    requires i <= 3 && !OnLadder(k)
    ensures Headroom(i, counters[k := n], cfg) == Headroom(i, counters, cfg)
    decreases 3 - i
  {
    if i < 3 {
      assert OnLadder(RUNGS[i]);
      HeadroomFrame(i + 1, k, n, counters, cfg);
    }
  }
}
