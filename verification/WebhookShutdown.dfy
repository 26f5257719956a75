/** Which envelopes a shutdown may lose: the exact condition, at the drain's flush, over everything
    that can happen after it. */
module WebhookShutdown {
  import opened Wire
  import opened Webhook
  import opened WebhookRuns

  /** What happens from a state on, in any interleaving. */
  ghost predicate Follows(cfg: PosterConfig, s: Sys, rest: seq<Sys>) {
    && |rest| > 0 && rest[0] == s
    && forall i | 0 < i < |rest| :: Step(cfg, rest[i - 1], rest[i])
  }

  predicate Shut(s: Sys) {
    s.runner.Exited? && s.drainer.Drained?
  }

  predicate Accounted(s: Sys, id: nat) {
    Occurs(s.core.sent, id) + OccursInDrops(s.core.drops, id) >= 1
  }

  /** The consumer has the envelope and may yet put it back. */
  predicate AtRisk(s: Sys, id: nat) {
    RunnerHas(s, id) && (s.runner.AwaitingRoom? || s.runner.item.attemptsLeft >= 2)
  }

  /** The drain's last step has just been made. */
  ghost predicate FlushedAt(cfg: PosterConfig, run: seq<Sys>, i: nat) {
    IsRun(cfg, run) && 0 < i < |run| && Enabled(cfg, run[i - 1], Flush) && run[i] == Fire(cfg, run[i - 1], Flush)
  }

  /** Accounted for, or sure to be: the attempt under way is the last one. */
  predicate Safe(s: Sys, id: nat) {
    && s.drainer.Drained?
    && (Accounted(s, id) || (RunnerHas(s, id) && !s.runner.AwaitingRoom? && s.runner.item.attemptsLeft <= 1))
  }

  lemma SafeStep(cfg: PosterConfig, s: Sys, m: Move, id: nat)
    requires Safe(s, id) && Enabled(cfg, s, m)
    ensures Safe(Fire(cfg, s, m), id)
  {
    hide Occurs, OccursInDrops, Delay, FlushAll;
    match m {
      case Offer => DropsAppend(s.core.drops, Drop(s.core.offered, 0, QueueFull), id);
      case PostSucceeds => OccursAppend(s.core.sent, s.runner.item.id, id);
      case PostFails => DropsAppend(s.core.drops, Drop(s.runner.item.id, cfg.retries, RetryExhausted), id);
      case _ =>
    }
  }

  lemma {:induction false} SafeStays(cfg: PosterConfig, s: Sys, rest: seq<Sys>, i: nat, id: nat)
    requires Follows(cfg, s, rest) && i < |rest| && Safe(s, id)
    ensures Safe(rest[i], id)
  {
    hide Safe, Fire, Enabled;
    if i > 0 {
      SafeStays(cfg, s, rest, i - 1, id);
      assert Step(cfg, rest[i - 1], rest[i]);
      var m :| Enabled(cfg, rest[i - 1], m) && rest[i] == Fire(cfg, rest[i - 1], m);
      SafeStep(cfg, rest[i - 1], m, id);
    }
  }

  /** Left where nobody will take it: to be put back by a stopped consumer, or in the queue and
      not the next item of a consumer that is still getting one. */
  predicate Stranded(s: Sys, id: nat) {
    && s.drainer.Drained? && s.core.stopped && id < s.core.offered && !Accounted(s, id)
    && ((RunnerHas(s, id) && s.runner.AwaitingRoom?)
        || (OccursInItems(s.core.queue, id) >= 1 && !RunnerHas(s, id)
            && (s.runner.Getting? && s.core.queue != [] ==> s.core.queue[0].id != id)))
  }

  lemma StrandedStep(cfg: PosterConfig, s: Sys, m: Move, id: nat)
    requires Stranded(s, id) && Enabled(cfg, s, m)
    ensures Stranded(Fire(cfg, s, m), id)
  {
    hide Occurs, OccursInDrops, OccursInItems, Delay, FlushAll;
    var c := s.core;
    EmptyHasNone(id);
    match m {
      case Offer =>
        DropsAppend(c.drops, Drop(c.offered, 0, QueueFull), id);
        ItemsAppend(c.queue, Item(c.offered, cfg.retries, s.now), id);
      case Get => ItemsHead(c.queue, id);
      case PostSucceeds => OccursAppend(c.sent, s.runner.item.id, id);
      case PostFails =>
        DropsAppend(c.drops, Drop(s.runner.item.id, cfg.retries, RetryExhausted), id);
        if AfterFailure(cfg, s.runner.item, s.now).Some? {
          ItemsAppend(c.queue, AfterFailure(cfg, s.runner.item, s.now).value, id);
        }
      case RoomAppears => ItemsAppend(c.queue, s.runner.item, id);
      case _ =>
    }
  }

  lemma {:induction false} StrandedStays(cfg: PosterConfig, s: Sys, rest: seq<Sys>, i: nat, id: nat)
    requires Follows(cfg, s, rest) && i < |rest| && Stranded(s, id)
    ensures Stranded(rest[i], id)
  {
    hide Stranded, Fire, Enabled;
    if i > 0 {
      StrandedStays(cfg, s, rest, i - 1, id);
      assert Step(cfg, rest[i - 1], rest[i]);
      var m :| Enabled(cfg, rest[i - 1], m) && rest[i] == Fire(cfg, rest[i - 1], m);
      StrandedStep(cfg, rest[i - 1], m, id);
    }
  }

  /** A drain once begun has stopped the poster. */
  lemma {:induction false} DrainStops(cfg: PosterConfig, run: seq<Sys>, i: nat)
    requires IsRun(cfg, run) && i < |run|
    ensures !run[i].drainer.NotDraining? ==> run[i].core.stopped
  {
    if i > 0 {
      DrainStops(cfg, run, i - 1);
      assert Step(cfg, run[i - 1], run[i]);
      var m :| Enabled(cfg, run[i - 1], m) && run[i] == Fire(cfg, run[i - 1], m);
      DrainStopsStep(cfg, run[i - 1], m);
    }
  }

  lemma DrainStopsStep(cfg: PosterConfig, s: Sys, m: Move)
    requires Enabled(cfg, s, m) && (!s.drainer.NotDraining? ==> s.core.stopped)
    ensures !Fire(cfg, s, m).drainer.NotDraining? ==> Fire(cfg, s, m).core.stopped
  {
    hide Delay, FlushAll;
    if m.Flush? {
      FlushReportsAll(cfg, s.core);
    }
  }

  lemma Before(cfg: PosterConfig, s: Sys, m: Move, rest: seq<Sys>)
    requires Enabled(cfg, s, m) && Follows(cfg, Fire(cfg, s, m), rest)
    ensures Follows(cfg, s, [s] + rest) && ([s] + rest)[|rest|] == rest[|rest| - 1]
  {
    hide Fire;
    Joined(cfg, s, m, Fire(cfg, s, m));
    var all := [s] + rest;
    forall i | 0 < i < |all| ensures Step(cfg, all[i - 1], all[i]) {
      if i > 1 {
        assert Step(cfg, rest[i - 2], rest[i - 1]);
      }
    }
  }

  lemma LeaveLoop(cfg: PosterConfig, s: Sys) returns (rest: seq<Sys>)
    requires s.runner.AtLoopTest? && s.core.stopped && s.drainer.Drained?
    ensures Follows(cfg, s, rest) && Shut(rest[|rest| - 1]) && rest[|rest| - 1].core == s.core
  {
    var e := Fire(cfg, s, LoopTest);
    assert Follows(cfg, e, [e]);
    Before(cfg, s, LoopTest, [e]);
    rest := [s, e];
    assert rest == [s] + [e];
  }

  /** One attempt and out: sent, or put back where it stays. */
  lemma LastAttempt(cfg: PosterConfig, s: Sys, success: bool) returns (rest: seq<Sys>)
    requires s.runner.Posting? && s.core.stopped && s.drainer.Drained? && s.core.queue == []
    requires s.runner.item.attemptsLeft >= 2
    ensures Follows(cfg, s, rest) && Shut(rest[|rest| - 1])
    ensures var e := rest[|rest| - 1];
            if success then e.core.sent == s.core.sent + [s.runner.item.id]
            else e.core.sent == s.core.sent && e.core.drops == s.core.drops
  {
    var m := if success then PostSucceeds else PostFails;
    var tail := LeaveLoop(cfg, Fire(cfg, s, m));
    Before(cfg, s, m, tail);
    rest := [s] + tail;
  }

  lemma WaitAndAttempt(cfg: PosterConfig, s: Sys, success: bool) returns (rest: seq<Sys>)
    requires (s.runner.Holding? || s.runner.Posting?) && s.core.stopped && s.drainer.Drained? && s.core.queue == []
    requires s.runner.item.attemptsLeft >= 2
    ensures Follows(cfg, s, rest) && Shut(rest[|rest| - 1])
    ensures var e := rest[|rest| - 1];
            if success then e.core.sent == s.core.sent + [s.runner.item.id]
            else e.core.sent == s.core.sent && e.core.drops == s.core.drops
  {
    if s.runner.Posting? {
      rest := LastAttempt(cfg, s, success);
    } else {
      var wait := Pass(if s.runner.item.nextRetry > s.now then s.runner.item.nextRetry - s.now else 0.0);
      var w := Fire(cfg, s, wait);
      var tail := LastAttempt(cfg, Fire(cfg, w, StartPost), success);
      Before(cfg, w, StartPost, tail);
      Before(cfg, s, wait, [w] + tail);
      rest := [s] + ([w] + tail);
    }
  }

  /** What the flush leaves. */
  lemma AfterFlush(cfg: PosterConfig, run: seq<Sys>, i: nat, id: nat)
    requires FlushedAt(cfg, run, i) && id < run[i].core.offered
    ensures var s := run[i];
            && s.drainer.Drained? && s.core.stopped && s.core.queue == []
            && (RunnerHas(s, id) <==> !Accounted(s, id))
  {
    RunKeepsInv(cfg, run, i);
    DrainStops(cfg, run, i);
    FlushReportsAll(cfg, run[i - 1].core);
    assert Places(run[i], id) == 1;
  }

  /** What a shutdown loses, exactly: an envelope offered before the drain's flush can end neither
      sent nor reported if and only if, at the flush, the consumer has it and is to put it back or
      has an attempt left after the one under way. */
  lemma LostExactlyWhenAtRisk(cfg: PosterConfig, run: seq<Sys>, i: nat, id: nat)
    requires FlushedAt(cfg, run, i) && id < run[i].core.offered
    ensures AtRisk(run[i], id) <==>
            exists rest: seq<Sys> ::
              Follows(cfg, run[i], rest) && Shut(rest[|rest| - 1]) && !Accounted(rest[|rest| - 1], id)
  {
    hide Fire, Enabled, Occurs, OccursInDrops;
    AfterFlush(cfg, run, i, id);
    if AtRisk(run[i], id) {
      var rest := LoseIt(cfg, run[i], id);
      assert Follows(cfg, run[i], rest) && Shut(rest[|rest| - 1]) && !Accounted(rest[|rest| - 1], id);
    } else {
      forall rest: seq<Sys> | Follows(cfg, run[i], rest) && Shut(rest[|rest| - 1])
        ensures Accounted(rest[|rest| - 1], id)
      {
        SafeStays(cfg, run[i], rest, |rest| - 1, id);
      }
    }
  }

  lemma LoseIt(cfg: PosterConfig, s: Sys, id: nat) returns (rest: seq<Sys>)
    requires s.drainer.Drained? && s.core.stopped && s.core.queue == [] && AtRisk(s, id) && !Accounted(s, id)
    ensures Follows(cfg, s, rest) && Shut(rest[|rest| - 1]) && !Accounted(rest[|rest| - 1], id)
  {
    hide Occurs, OccursInDrops;
    if s.runner.AwaitingRoom? {
      var e := Fire(cfg, s, RoomAppears);
      var tail := LeaveLoop(cfg, e);
      Before(cfg, s, RoomAppears, tail);
      rest := [s] + tail;
    } else {
      rest := WaitAndAttempt(cfg, s, false);
    }
  }

  /** Of those at risk, one awaiting room is always lost; any other may as well be sent. */
  lemma AtRiskEitherWay(cfg: PosterConfig, run: seq<Sys>, i: nat, id: nat)
    requires FlushedAt(cfg, run, i) && id < run[i].core.offered && AtRisk(run[i], id)
    ensures run[i].runner.AwaitingRoom? ==>
              forall rest: seq<Sys> | Follows(cfg, run[i], rest) :: !Accounted(rest[|rest| - 1], id)
    ensures !run[i].runner.AwaitingRoom? ==>
              exists rest: seq<Sys> ::
                Follows(cfg, run[i], rest) && Shut(rest[|rest| - 1]) && Accounted(rest[|rest| - 1], id)
  {
    hide Fire, Enabled, Occurs, OccursInDrops;
    AfterFlush(cfg, run, i, id);
    var s := run[i];
    if s.runner.AwaitingRoom? {
      forall rest: seq<Sys> | Follows(cfg, s, rest) ensures !Accounted(rest[|rest| - 1], id) {
        StrandedStays(cfg, s, rest, |rest| - 1, id);
      }
    } else {
      var rest := WaitAndAttempt(cfg, s, true);
      OccursAppend(s.core.sent, id, id);
      assert Follows(cfg, s, rest) && Shut(rest[|rest| - 1]) && Accounted(rest[|rest| - 1], id);
    }
  }

  /** An envelope offered only after the flush is ever accounted for if and only if it is dropped
      at once, the queue being full, or the consumer is still getting an item and it is the
      first. */
  lemma LateOfferAccountedExactlyWhenNext(cfg: PosterConfig, run: seq<Sys>, i: nat)
    requires IsRun(cfg, run) && i < |run| && run[i].drainer.Drained?
    ensures var s, id := run[i], run[i].core.offered;
            (exists rest: seq<Sys> :: Follows(cfg, Fire(cfg, s, Offer), rest) && Accounted(rest[|rest| - 1], id)) <==>
            Full(cfg, s.core) || (s.runner.Getting? && s.core.queue == [])
  {
    hide Fire, Occurs, OccursInDrops, OccursInItems;
    var s, id := run[i], run[i].core.offered;
    var e := Fire(cfg, s, Offer);
    RunKeepsInv(cfg, run, i);
    DrainStops(cfg, run, i);
    assert Places(s, id) == 0;
    LateOffer(cfg, s);
    if Full(cfg, s.core) {
      assert Follows(cfg, e, [e]) && Accounted([e][0], id);
    } else if s.runner.Getting? && s.core.queue == [] {
      var rest := TakeAndSend(cfg, e);
      OccursAppend(e.core.sent, id, id);
      assert Follows(cfg, e, rest) && Accounted(rest[|rest| - 1], id);
    } else {
      forall rest: seq<Sys> | Follows(cfg, e, rest) ensures !Accounted(rest[|rest| - 1], id) {
        StrandedStays(cfg, e, rest, |rest| - 1, id);
      }
    }
  }

  lemma LateOffer(cfg: PosterConfig, s: Sys)
    requires s.drainer.Drained? && s.core.stopped && Places(s, s.core.offered) == 0
    ensures var e, id := Fire(cfg, s, Offer), s.core.offered;
            && (Full(cfg, s.core) ==> Accounted(e, id))
            && (!Full(cfg, s.core) && !(s.runner.Getting? && s.core.queue == []) ==> Stranded(e, id))
            && (!Full(cfg, s.core) && s.core.queue == [] ==> e.core.queue == [Item(id, cfg.retries, s.now)])
            && e.runner == s.runner && e.drainer == s.drainer && e.now == s.now && e.core.stopped
            && (!Full(cfg, s.core) ==> !Accounted(e, id))
  {
    hide Occurs, OccursInDrops, OccursInItems;
    var id := s.core.offered;
    DropsAppend(s.core.drops, Drop(id, 0, QueueFull), id);
    ItemsAppend(s.core.queue, Item(id, cfg.retries, s.now), id);
    if s.core.queue != [] {
      ItemCounts(s.core.queue, 0);
    }
  }

  lemma TakeAndSend(cfg: PosterConfig, s: Sys) returns (rest: seq<Sys>)
    requires s.runner.Getting? && s.core.stopped && s.drainer.Drained? && s.core.queue != []
    requires s.core.queue[0].nextRetry <= s.now
    ensures Follows(cfg, s, rest) && Shut(rest[|rest| - 1])
    ensures rest[|rest| - 1].core.sent == s.core.sent + [s.core.queue[0].id]
  {
    var a := Fire(cfg, s, Get);
    var b := Fire(cfg, a, StartPost);
    var tail := LeaveLoop(cfg, Fire(cfg, b, PostSucceeds));
    Before(cfg, b, PostSucceeds, tail);
    Before(cfg, a, StartPost, [b] + tail);
    Before(cfg, s, Get, [a] + ([b] + tail));
    rest := [s] + ([a] + ([b] + tail));
  }

  /** Unless it is dropped at once, it can also end unaccounted for. */
  lemma LateOfferCanBeLost(cfg: PosterConfig, run: seq<Sys>, i: nat)
    requires IsRun(cfg, run) && i < |run| && run[i].drainer.Drained? && !Full(cfg, run[i].core)
    requires run[i].runner.Getting? && run[i].core.queue == []
    ensures var s, id := run[i], run[i].core.offered;
            exists rest: seq<Sys> :: Follows(cfg, Fire(cfg, s, Offer), rest) && Shut(rest[|rest| - 1])
                                     && !Accounted(rest[|rest| - 1], id)
  {
    hide Fire, Occurs, OccursInDrops, OccursInItems;
    var s, id := run[i], run[i].core.offered;
    var e := Fire(cfg, s, Offer);
    RunKeepsInv(cfg, run, i);
    DrainStops(cfg, run, i);
    assert Places(s, id) == 0;
    LateOffer(cfg, s);
    var rest := TimeOut(cfg, e);
    assert Follows(cfg, e, rest) && Shut(rest[|rest| - 1]) && !Accounted(rest[|rest| - 1], id);
  }

  lemma TimeOut(cfg: PosterConfig, s: Sys) returns (rest: seq<Sys>)
    requires s.runner.Getting? && s.core.stopped && s.drainer.Drained?
    ensures Follows(cfg, s, rest) && Shut(rest[|rest| - 1]) && rest[|rest| - 1].core == s.core
  {
    var tail := LeaveLoop(cfg, Fire(cfg, s, GetTimesOut));
    Before(cfg, s, GetTimesOut, tail);
    rest := [s] + tail;
  }
}
