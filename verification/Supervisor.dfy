/** `restart_on_crash`: re-entering a crashed event source with growing, capped delays. */
module Supervisor {
  /** `backoffs` is the delay envelope; its last entry is the cap. */
  datatype Supervision = Supervision(backoffs: seq<real>, resetAfter: real)
  {
    predicate Valid() {
      backoffs != [] && forall i | 0 <= i < |backoffs| :: 0.0 <= backoffs[i] <= Cap()
    }

    function Cap(): real
      requires backoffs != []
    {
      backoffs[|backoffs| - 1]
    }

    function Delay(attempt: nat): real
      requires backoffs != []
    {
      backoffs[if attempt <= |backoffs| - 1 then attempt else |backoffs| - 1]
    }
  }

  const Defaults := Supervision([1.0, 2.0, 4.0, 8.0, 60.0], 300.0)

  /** How one run of the source ends. A sleep takes `oversleep` longer than asked for. */
  datatype FactoryRun = Crashes(uptime: real, oversleep: real) | Returns | Cancelled
  {
    predicate Timed() { Crashes? ==> uptime >= 0.0 && oversleep >= 0.0 }
  }

  datatype CrashEvent = CrashEvent(restartAttempt: nat, backoffSeconds: real)

  predicate AllCrash(runs: seq<FactoryRun>) {
    forall i | 0 <= i < |runs| :: runs[i].Crashes? && runs[i].Timed()
  }

  // ---------------------------------------------------------------- specification

  /** The attempt counter once these crashes have been handled. */
  function AttemptAfter(cfg: Supervision, runs: seq<FactoryRun>): nat
    requires AllCrash(runs)
  {
    if runs == [] then 0
    else
      var n := |runs| - 1;
      (if runs[n].uptime >= cfg.resetAfter then 0 else AttemptAfter(cfg, runs[..n])) + 1
  }

  /** The time from the start to the end of the sleep after the last of these crashes. */
  function Elapsed(cfg: Supervision, runs: seq<FactoryRun>): real
    requires AllCrash(runs) && cfg.backoffs != []
  {
    if runs == [] then 0.0
    else
      var n := |runs| - 1;
      Elapsed(cfg, runs[..n]) + runs[n].uptime + cfg.Delay(AttemptAfter(cfg, runs) - 1) + runs[n].oversleep
  }

  /** The structured events, one for each crash: the attempt number and the delay then slept. */
  function EventsOf(cfg: Supervision, runs: seq<FactoryRun>): seq<CrashEvent>
    requires AllCrash(runs) && cfg.backoffs != []
  {
    if runs == [] then []
    else
      var attempt := AttemptAfter(cfg, runs);
      EventsOf(cfg, runs[..|runs| - 1]) + [CrashEvent(attempt, cfg.Delay(attempt - 1))]
  }

  /** The loop, over any script of runs of the source: it stops at the first one that does not
      crash, or goes on past the script. */
  method RestartOnCrash(cfg: Supervision, runs: seq<FactoryRun>)
    returns (handled: nat, clock: real, events: seq<CrashEvent>)
    requires cfg.backoffs != [] && forall i | 0 <= i < |runs| :: runs[i].Timed()
    ensures handled <= |runs| && AllCrash(runs[..handled]) && (handled < |runs| ==> !runs[handled].Crashes?)
    ensures clock == Elapsed(cfg, runs[..handled])
    ensures events == EventsOf(cfg, runs[..handled])
  {
    var attempt := 0;
    handled, clock, events := 0, 0.0, [];
    while handled < |runs|
      invariant handled <= |runs| && AllCrash(runs[..handled])
      invariant attempt == AttemptAfter(cfg, runs[..handled]) && clock == Elapsed(cfg, runs[..handled])
      invariant events == EventsOf(cfg, runs[..handled])
    {
      var run := runs[handled];
      if !run.Crashes? {
        return;
      }
      assert runs[..handled + 1][..handled] == runs[..handled];
      if run.uptime >= cfg.resetAfter {
        attempt := 0;
      }
      var delay := cfg.Delay(attempt);
      events := events + [CrashEvent(attempt + 1, delay)];
      attempt := attempt + 1;
      clock := clock + run.uptime + delay + run.oversleep;
      handled := handled + 1;
    }
    assert runs[..handled] == runs;
  }

  /** The counter is the number of crashes since the last long uptime, that one included. */
  lemma {:induction false} AttemptCountsSinceLongRun(cfg: Supervision, runs: seq<FactoryRun>, last: nat)
    requires AllCrash(runs) && last <= |runs|
    requires forall i | last < i < |runs| :: runs[i].uptime < cfg.resetAfter
    requires last < |runs| ==> runs[last].uptime >= cfg.resetAfter
    ensures last < |runs| ==> AttemptAfter(cfg, runs) == |runs| - last
    ensures (forall i | 0 <= i < |runs| :: runs[i].uptime < cfg.resetAfter) ==> AttemptAfter(cfg, runs) == |runs|
  {
    if runs != [] {
      var n := |runs| - 1;
      AttemptCountsSinceLongRun(cfg, runs[..n], if last <= n then last else n);
    }
  }

  /** The i-th event carries that count, and the delay by which the clock then moved on. */
  lemma {:induction false} EventReportsTheSleep(cfg: Supervision, runs: seq<FactoryRun>, i: nat)
    requires AllCrash(runs) && cfg.backoffs != [] && i < |runs|
    ensures |EventsOf(cfg, runs)| == |runs|
    ensures var e := EventsOf(cfg, runs)[i];
            && e.restartAttempt == AttemptAfter(cfg, runs[..i + 1])
            && Elapsed(cfg, runs[..i + 1]) ==
               Elapsed(cfg, runs[..i]) + runs[i].uptime + e.backoffSeconds + runs[i].oversleep
  {
    var n := |runs| - 1;
    if i < n {
      EventReportsTheSleep(cfg, runs[..n], i);
      assert runs[..n][..i + 1] == runs[..i + 1] && runs[..n][..i] == runs[..i];
    } else {
      assert runs[..n + 1] == runs;
      if n > 0 {
        EventReportsTheSleep(cfg, runs[..n], 0);
      }
    }
  }

  /** The delay after the n-th crash of a streak, the crash after a long uptime being its first, is
      the n-th of the envelope, and its last for every later one. */
  lemma DelayFollowsTheEnvelope(cfg: Supervision, runs: seq<FactoryRun>, last: nat)
    requires AllCrash(runs) && cfg.backoffs != [] && last < |runs|
    requires forall i | last < i < |runs| :: runs[i].uptime < cfg.resetAfter
    requires last == 0 || runs[last].uptime >= cfg.resetAfter
    ensures var n := |runs| - last;
            && |EventsOf(cfg, runs)| == |runs|
            && EventsOf(cfg, runs)[|runs| - 1] ==
               CrashEvent(n, cfg.backoffs[if n <= |cfg.backoffs| then n - 1 else |cfg.backoffs| - 1])
            && Elapsed(cfg, runs) ==
               Elapsed(cfg, runs[..|runs| - 1]) + runs[|runs| - 1].uptime + runs[|runs| - 1].oversleep
               + cfg.backoffs[if n <= |cfg.backoffs| then n - 1 else |cfg.backoffs| - 1]
  {
    EventReportsTheSleep(cfg, runs, 0);
    if runs[last].uptime >= cfg.resetAfter {
      AttemptCountsSinceLongRun(cfg, runs, last);
    } else {
      AttemptCountsSinceLongRun(cfg, runs, |runs|);
    }
  }

  // ---------------------------------------------------------------- amortised restart rate

  /** What the first `attempt` delays fall short of the cap. */
  function Shortfall(cfg: Supervision, attempt: nat): real
    requires cfg.backoffs != []
  {
    if attempt == 0 then 0.0 else Shortfall(cfg, attempt - 1) + (cfg.Cap() - cfg.Delay(attempt - 1))
  }

  function Deficit(cfg: Supervision): real
    requires cfg.backoffs != []
  {
    Shortfall(cfg, |cfg.backoffs|)
  }

  lemma {:induction false} ShortfallAtMostDeficit(cfg: Supervision, attempt: nat)
    requires cfg.Valid()
    ensures 0.0 <= Shortfall(cfg, attempt) <= Deficit(cfg)
    ensures attempt >= |cfg.backoffs| ==> Shortfall(cfg, attempt) == Deficit(cfg)
  {
    ShortfallGrows(cfg, 0, attempt);
    if attempt < |cfg.backoffs| {
      ShortfallGrows(cfg, attempt, |cfg.backoffs|);
    } else {
      ShortfallFlat(cfg, attempt);
    }
  }

  lemma {:induction false} ShortfallGrows(cfg: Supervision, a: nat, b: nat)
    requires cfg.Valid() && a <= b
    ensures Shortfall(cfg, a) <= Shortfall(cfg, b)
    decreases b - a
  {
    if a < b {
      ShortfallGrows(cfg, a, b - 1);
    }
  }

  lemma {:induction false} ShortfallFlat(cfg: Supervision, attempt: nat)
    requires cfg.Valid() && attempt >= |cfg.backoffs|
    ensures Shortfall(cfg, attempt) == Deficit(cfg)
    decreases attempt
  {
    if attempt > |cfg.backoffs| {
      ShortfallFlat(cfg, attempt - 1);
    }
  }

  function Times(n: nat, x: real): real { n as real * x }

  lemma TimesNext(n: nat, x: real)
    ensures Times(n + 1, x) == Times(n, x) + x
  {
  }

  lemma TimesNone(x: real)
    ensures Times(0, x) == 0.0
  {
  }

  lemma TimesAdd(m: nat, n: nat, x: real)
    ensures Times(m + n, x) == Times(m, x) + Times(n, x)
  {
  }

  /** After the m-th crash's sleep, at least m caps have gone by, less a fixed allowance. */
  predicate KeepsPace(cfg: Supervision, runs: seq<FactoryRun>)
    requires cfg.backoffs != [] && AllCrash(runs)
  {
    Elapsed(cfg, runs) >= Times(|runs|, cfg.Cap()) - Deficit(cfg)
  }

  /** The configurations that keep that pace however crashes and long uptimes are mixed: a reset
      must be paid for by an uptime no shorter than what the early delays lose; a threshold that
      every crash meets leaves the first delay alone, which must then be the cap. */
  predicate Paced(cfg: Supervision)
    requires cfg.backoffs != []
  {
    if cfg.resetAfter > 0.0 then cfg.resetAfter >= Deficit(cfg) else cfg.backoffs[0] == cfg.Cap()
  }

  lemma {:induction false} Amortised(cfg: Supervision, runs: seq<FactoryRun>)
    requires cfg.Valid() && AllCrash(runs) && cfg.resetAfter > 0.0 && cfg.resetAfter >= Deficit(cfg)
    ensures Elapsed(cfg, runs) >= Times(|runs|, cfg.Cap()) - Shortfall(cfg, AttemptAfter(cfg, runs))
  {
    if runs != [] {
      var n := |runs| - 1;
      Amortised(cfg, runs[..n]);
      TimesNext(n, cfg.Cap());
      ShortfallAtMostDeficit(cfg, AttemptAfter(cfg, runs[..n]));
      assert Shortfall(cfg, 1) == cfg.Cap() - cfg.Delay(0);
    }
  }

  lemma {:induction false} FirstDelayOnly(cfg: Supervision, runs: seq<FactoryRun>)
    requires cfg.Valid() && AllCrash(runs) && cfg.resetAfter <= 0.0 && cfg.backoffs[0] == cfg.Cap()
    ensures Elapsed(cfg, runs) >= Times(|runs|, cfg.Cap())
  {
    if runs != [] {
      var n := |runs| - 1;
      FirstDelayOnly(cfg, runs[..n]);
      TimesNext(n, cfg.Cap());
      assert AttemptAfter(cfg, runs) == 1 && cfg.Delay(0) == cfg.Cap();
    }
  }

  /** The restart rate, exactly: the pace is kept in every run if and only if `Paced`. */
  lemma RestartRate(cfg: Supervision)
    requires cfg.Valid()
    ensures Paced(cfg) <==> forall runs: seq<FactoryRun> | AllCrash(runs) :: KeepsPace(cfg, runs)
  {
    if Paced(cfg) {
      forall runs: seq<FactoryRun> | AllCrash(runs) ensures KeepsPace(cfg, runs) {
        ShortfallAtMostDeficit(cfg, AttemptAfter(cfg, runs));
        if cfg.resetAfter > 0.0 {
          Amortised(cfg, runs);
        } else {
          FirstDelayOnly(cfg, runs);
        }
      }
    } else {
      var runs := TooFast(cfg);
      assert AllCrash(runs) && !KeepsPace(cfg, runs);
    }
  }

  /** With the shipped envelope, the m-th crash's sleep ends no earlier than 60 m - 225 seconds. */
  lemma DefaultRestartRate(runs: seq<FactoryRun>)
    requires AllCrash(runs)
    ensures Elapsed(Defaults, runs) >= 60.0 * |runs| as real - 225.0
  {
    var cfg := Defaults;
    assert Shortfall(cfg, 2) == 117.0;
    assert Shortfall(cfg, 4) == 225.0;
    assert Deficit(cfg) == 225.0;
    RestartRate(cfg);
    assert KeepsPace(cfg, runs);
  }

  // ---------------------------------------------------------------- when the pace fails

  /** `n` crashes at once. */
  function Quick(n: nat): (runs: seq<FactoryRun>)
    ensures |runs| == n && AllCrash(runs)
  {
    seq(n, _ => Crashes(0.0, 0.0))
  }

  /** Quick crashes after `before` cost the next delays only. */
  lemma {:induction false} QuickCrashes(cfg: Supervision, before: seq<FactoryRun>, n: nat)
    requires cfg.Valid() && AllCrash(before) && cfg.resetAfter > 0.0
    ensures AllCrash(before + Quick(n))
    ensures AttemptAfter(cfg, before + Quick(n)) == AttemptAfter(cfg, before) + n
    ensures Elapsed(cfg, before + Quick(n)) ==
            Elapsed(cfg, before) + Times(n, cfg.Cap())
            - (Shortfall(cfg, AttemptAfter(cfg, before) + n) - Shortfall(cfg, AttemptAfter(cfg, before)))
  {
    hide Times, Elapsed, AttemptAfter, Quick;
    if n == 0 {
      assert before + Quick(0) == before;
      TimesNone(cfg.Cap());
    } else {
      QuickCrashes(cfg, before, n - 1);
      OneMoreQuick(cfg, before + Quick(n - 1));
      QuickNext(before, n - 1);
      TimesNext(n - 1, cfg.Cap());
    }
  }

  lemma QuickNext(before: seq<FactoryRun>, n: nat)
    ensures before + Quick(n + 1) == before + Quick(n) + [Crashes(0.0, 0.0)]
  {
  }

  lemma OneMoreQuick(cfg: Supervision, runs: seq<FactoryRun>)
    requires cfg.Valid() && AllCrash(runs) && cfg.resetAfter > 0.0
    ensures var more := runs + [Crashes(0.0, 0.0)];
            && AllCrash(more)
            && AttemptAfter(cfg, more) == AttemptAfter(cfg, runs) + 1
            && Elapsed(cfg, more) == Elapsed(cfg, runs) + cfg.Delay(AttemptAfter(cfg, runs))
  {
    var more := runs + [Crashes(0.0, 0.0)];
    assert more[..|runs|] == runs;
  }

  /** A threshold that every crash meets: always the first delay. */
  lemma {:induction false} QuickResets(cfg: Supervision, n: nat)
    requires cfg.Valid() && cfg.resetAfter <= 0.0
    ensures Elapsed(cfg, Quick(n)) == Times(n, cfg.backoffs[0])
  {
    if n > 0 {
      QuickResets(cfg, n - 1);
      assert Quick(n)[..n - 1] == Quick(n - 1);
      TimesNext(n - 1, cfg.backoffs[0]);
    }
  }

  /** A run that falls behind: crash through the whole envelope, stay up just long enough to
      reset, and crash through it again. */
  lemma TooFast(cfg: Supervision) returns (runs: seq<FactoryRun>)
    requires cfg.Valid() && !Paced(cfg)
    ensures AllCrash(runs) && !KeepsPace(cfg, runs)
  {
    if cfg.resetAfter > 0.0 {
      runs := TwoRounds(cfg);
    } else {
      var gain, d := cfg.Cap() - cfg.backoffs[0], Deficit(cfg);
      ShortfallAtMostDeficit(cfg, 0);
      var n := (d / gain).Floor + 1;
      assert n as real > d / gain;
      Cleared(n as real, d, gain);
      QuickResets(cfg, n);
      runs := Quick(n);
    }
  }

  lemma Cleared(n: real, d: real, gain: real)
    requires gain > 0.0 && n > d / gain
    ensures n * gain > d
  {
    assert (n - d / gain) * gain > 0.0;
  }

  lemma TwoRounds(cfg: Supervision) returns (runs: seq<FactoryRun>)
    requires cfg.Valid() && 0.0 < cfg.resetAfter < Deficit(cfg)
    ensures AllCrash(runs) && !KeepsPace(cfg, runs)
  {
    hide Times, Elapsed, AttemptAfter, Shortfall;
    var n, cap := |cfg.backoffs|, cfg.Cap();
    var up := LongRunAfterQuick(cfg, n);
    QuickCrashes(cfg, up, n - 1);
    runs := up + Quick(n - 1);
    assert |runs| == (n + 1) + (n - 1);
    TimesNext(n, cap);
    TimesAdd(n + 1, n - 1, cap);
  }

  /** Crash through the whole envelope, then stay up just long enough to reset. */
  lemma LongRunAfterQuick(cfg: Supervision, n: nat) returns (up: seq<FactoryRun>)
    requires cfg.Valid() && n == |cfg.backoffs| && cfg.resetAfter > 0.0
    ensures |up| == n + 1 && AllCrash(up) && AttemptAfter(cfg, up) == 1
    ensures Elapsed(cfg, up) ==
            Times(n, cfg.Cap()) - Deficit(cfg) + cfg.resetAfter + (cfg.Cap() - Shortfall(cfg, 1))
  {
    hide Times;
    QuickCrashes(cfg, [], n);
    assert [] + Quick(n) == Quick(n);
    up := Quick(n) + [Crashes(cfg.resetAfter, 0.0)];
    assert up[..n] == Quick(n);
    assert AttemptAfter(cfg, up) == 1;
    assert Shortfall(cfg, 1) == cfg.Cap() - cfg.Delay(0);
  }
}
