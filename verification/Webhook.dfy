/** The webhook poster: a bounded queue fed by the daemon cycle, one background consumer with
    retry and requeue, and a shutdown drain, interleaved at every await. */
module Webhook {
  import opened Wire

  datatype Item = Item(id: nat, attemptsLeft: int, nextRetry: real)

  datatype DropReason = QueueFull | RetryExhausted | DrainTimeout | DrainBudgetExhausted

  /** A `WebhookDropped` event; `attempts` is the number it reports. */
  datatype Drop = Drop(id: nat, attempts: int, reason: DropReason)

  datatype PosterConfig = PosterConfig(retries: nat, maxQueue: int, backoff: seq<real>)
  {
    predicate Valid() { backoff != [] }
  }

  /** What the poster object and its two sinks hold. Envelopes are numbered in the order they are
      offered; `sent` and `attempts` are the delivery log, by envelope. The two counts are those of
      the delivery metric. */
  datatype Core = Core(
    queue: seq<Item>,
    stopped: bool,
    offered: nat,
    sent: seq<nat>,
    drops: seq<Drop>,
    attempts: seq<nat>,
    sentCount: nat,
    droppedCount: nat)

  const EmptyCore := Core([], false, 0, [], [], [], 0, 0)

  predicate Full(cfg: PosterConfig, c: Core) {
    cfg.maxQueue > 0 && |c.queue| >= cfg.maxQueue
  }

  // ---------------------------------------------------------------- atomic pieces

  function EnqueueCore(cfg: PosterConfig, c: Core, now: real): Core {
    var id := c.offered;
    if Full(cfg, c) then
      c.(offered := id + 1, drops := c.drops + [Drop(id, 0, QueueFull)], droppedCount := c.droppedCount + 1)
    else c.(offered := id + 1, queue := c.queue + [Item(id, cfg.retries, now)])
  }

  function BackoffIndex(cfg: PosterConfig, attemptsLeft: int): int {
    var index := cfg.retries - attemptsLeft - 1;
    if index <= |cfg.backoff| - 1 then index else |cfg.backoff| - 1
  }

  /** The delay at that index; `WebhookRuns.BackoffIndexInRange` shows it always exists. */
  function Delay(cfg: PosterConfig, attemptsLeft: int): real {
    var i := BackoffIndex(cfg, attemptsLeft);
    if 0 <= i < |cfg.backoff| then cfg.backoff[i] else 0.0
  }

  /** After a failed attempt: given up, or the item to put back. */
  function AfterFailure(cfg: PosterConfig, item: Item, now: real): Option<Item> {
    var left := item.attemptsLeft - 1;
    if left <= 0 then None else Some(item.(attemptsLeft := left, nextRetry := now + Delay(cfg, left)))
  }

  function GiveUp(cfg: PosterConfig, c: Core, item: Item): Core {
    c.(drops := c.drops + [Drop(item.id, cfg.retries, RetryExhausted)], droppedCount := c.droppedCount + 1)
  }

  function Attempting(c: Core, item: Item): Core {
    c.(attempts := c.attempts + [item.id])
  }

  function Sent(c: Core, item: Item): Core {
    c.(sent := c.sent + [item.id], sentCount := c.sentCount + 1)
  }

  function Put(c: Core, item: Item): Core {
    c.(queue := c.queue + [item])
  }

  function TakeFirst(c: Core): Core
    requires c.queue != []
  {
    c.(queue := c.queue[1..])
  }

  function DrainDrop(cfg: PosterConfig, c: Core, item: Item, reason: DropReason): Core {
    c.(drops := c.drops + [Drop(item.id, cfg.retries - item.attemptsLeft, reason)], droppedCount := c.droppedCount + 1)
  }

  /** The second drain loop, which does not await. */
  function FlushAll(cfg: PosterConfig, c: Core): Core
    decreases |c.queue|
  {
    if c.queue == [] then c else FlushAll(cfg, DrainDrop(cfg, TakeFirst(c), c.queue[0], DrainBudgetExhausted))
  }

  // ---------------------------------------------------------------- the object

  class WebhookPoster {
    const cfg: PosterConfig
    const hasUrl: bool
    var queue: seq<Item>
    var stopped: bool
    var offered: nat
    var sent: seq<nat>
    var drops: seq<Drop>
    var attempts: seq<nat>
    var sentCount: nat
    var droppedCount: nat

    constructor (cfg: PosterConfig, hasUrl: bool)
      requires cfg.Valid()
      ensures this.cfg == cfg && this.hasUrl == hasUrl && Contents() == EmptyCore
    {
      this.cfg, this.hasUrl := cfg, hasUrl;
      queue, stopped, offered, sent, drops, attempts := [], false, 0, [], [], [];
      sentCount, droppedCount := 0, 0;
    }

    function Contents(): Core
      reads this
    {
      Core(queue, stopped, offered, sent, drops, attempts, sentCount, droppedCount)
    }

    method Enqueue(now: real)
      modifies this
      ensures Contents() == if hasUrl then EnqueueCore(cfg, old(Contents()), now) else old(Contents())
      ensures hasUrl && (cfg.maxQueue <= 0 || |old(queue)| < cfg.maxQueue) ==>
                queue == old(queue) + [Item(old(offered), cfg.retries, now)] && drops == old(drops)
      ensures hasUrl && 0 < cfg.maxQueue <= |old(queue)| ==>
                queue == old(queue) && drops == old(drops) + [Drop(old(offered), 0, QueueFull)]
    {
      if !hasUrl {
        return;
      }
      var id := offered;
      offered := offered + 1;
      if cfg.maxQueue > 0 && |queue| >= cfg.maxQueue {
        droppedCount := droppedCount + 1;
        drops := drops + [Drop(id, 0, QueueFull)];
      } else {
        queue := queue + [Item(id, cfg.retries, now)];
      }
    }

    method Stop()
      modifies this
      ensures Contents() == old(Contents()).(stopped := true)
    {
      stopped := true;
    }

    /** One attempt on a taken item, up to the point where it is put back. A `Some` result is the
        item for which the consumer now awaits room in the queue. */
    method AttemptOrRequeue(item: Item, success: bool, now: real) returns (requeue: Option<Item>)
      requires cfg.Valid() && item.attemptsLeft <= cfg.retries
      modifies this
      ensures success ==> requeue == None && Contents() == Sent(Attempting(old(Contents()), item), item)
      ensures !success ==> requeue == AfterFailure(cfg, item, now)
      ensures !success && requeue.None? ==> Contents() == GiveUp(cfg, Attempting(old(Contents()), item), item)
      ensures !success && requeue.Some? ==> Contents() == Attempting(old(Contents()), item)
    {
      attempts := attempts + [item.id];
      if success {
        sentCount := sentCount + 1;
        sent := sent + [item.id];
        return None;
      }
      var left := item.attemptsLeft - 1;
      if left <= 0 {
        droppedCount := droppedCount + 1;
        drops := drops + [Drop(item.id, cfg.retries, RetryExhausted)];
        return None;
      }
      var attemptIndex := cfg.retries - left - 1;
      var delay := cfg.backoff[if attemptIndex <= |cfg.backoff| - 1 then attemptIndex else |cfg.backoff| - 1];
      requeue := Some(item.(attemptsLeft := left, nextRetry := now + delay));
    }

    /** The drain with nothing else running: `outcomes[i]` and `clock[i]` are the result of the
        i-th attempt and the time after it. Always ends, with the queue empty; items are tried
        once each, in order, as long as the budget lasts, and every one is sent or reported. */
    method Drain(start: real, budget: real, outcomes: seq<bool>, clock: seq<real>) returns (tried: nat)
      requires |outcomes| >= |queue| && |clock| >= |queue|
      modifies this
      ensures queue == [] && stopped && offered == old(offered)
      ensures tried <= |old(queue)|
      ensures tried < |old(queue)| ==> TimeAt(start, clock, tried) >= start + budget
      ensures forall i | 0 <= i < tried :: TimeAt(start, clock, i) < start + budget
      ensures attempts == old(attempts) + Ids(old(queue)[..tried])
      ensures sent == old(sent) + Ids(Chosen(old(queue)[..tried], outcomes[..tried], true))
      ensures drops == old(drops)
                       + DrainReports(cfg, Chosen(old(queue)[..tried], outcomes[..tried], false), DrainTimeout)
                       + DrainReports(cfg, old(queue)[tried..], DrainBudgetExhausted)
      ensures sentCount - old(sentCount) == |sent| - |old(sent)|
      ensures droppedCount - old(droppedCount) == |drops| - |old(drops)|
    {
      hide Ids, Chosen, DrainReports, FlushAll;
      stopped := true;
      var deadline, now := start + budget, start;
      tried := 0;
      DrainStart(cfg, queue, outcomes);
      ghost var all := queue;
      while queue != [] && now < deadline
        invariant tried <= |all| && queue == all[tried..] && now == TimeAt(start, clock, tried)
        invariant stopped && offered == old(offered)
        invariant forall i | 0 <= i < tried :: TimeAt(start, clock, i) < deadline
        invariant attempts == old(attempts) + Ids(all[..tried])
        invariant sent == old(sent) + Ids(Chosen(all[..tried], outcomes[..tried], true))
        invariant drops == old(drops) + DrainReports(cfg, Chosen(all[..tried], outcomes[..tried], false), DrainTimeout)
        invariant sentCount - old(sentCount) == |sent| - |old(sent)|
        invariant droppedCount - old(droppedCount) == |drops| - |old(drops)|
        decreases |queue|
      {
        var item := queue[0];
        queue := queue[1..];
        DrainOne(item, outcomes[tried]);
        TriedStep(cfg, all, outcomes, tried);
        now := clock[tried];
        tried := tried + 1;
      }
      FlushRest();
    }

    /** The drain's single attempt on one item. */
    method DrainOne(item: Item, success: bool)
      modifies this`attempts, this`sent, this`drops, this`sentCount, this`droppedCount
      ensures Contents() ==
              var tried := Attempting(old(Contents()), item);
              if success then Sent(tried, item) else DrainDrop(cfg, tried, item, DrainTimeout)
    {
      attempts := attempts + [item.id];
      if success {
        sentCount := sentCount + 1;
        sent := sent + [item.id];
      } else {
        droppedCount := droppedCount + 1;
        drops := drops + [Drop(item.id, cfg.retries - item.attemptsLeft, DrainTimeout)];
      }
    }

    /** Reports everything the budget left over. */
    method FlushRest()
      modifies this`queue, this`drops, this`droppedCount
      ensures Contents() == FlushAll(cfg, old(Contents()))
      ensures droppedCount - old(droppedCount) == |drops| - |old(drops)|
      ensures queue == [] && drops == old(drops) + DrainReports(cfg, old(queue), DrainBudgetExhausted)
    {
      hide FlushAll, DrainReports;
      ghost var all, i := queue, 0;
      FlushStart(cfg, all);
      while queue != []
        invariant i <= |all| && queue == all[i..]
        invariant drops == old(drops) + DrainReports(cfg, all[..i], DrainBudgetExhausted)
        invariant FlushAll(cfg, Contents()) == FlushAll(cfg, old(Contents()))
        invariant droppedCount - old(droppedCount) == |drops| - |old(drops)|
        decreases |queue|
      {
        var item := queue[0];
        FlushStep(cfg, Contents(), all, i);
        queue := queue[1..];
        droppedCount := droppedCount + 1;
        drops := drops + [Drop(item.id, cfg.retries - item.attemptsLeft, DrainBudgetExhausted)];
        i := i + 1;
      }
      FlushEnd(cfg, Contents());
      assert all[..i] == all;
    }
  }

  lemma FlushStart(cfg: PosterConfig, all: seq<Item>)
    ensures DrainReports(cfg, all[..0], DrainBudgetExhausted) == []
  {
  }

  lemma FlushEnd(cfg: PosterConfig, c: Core)
    requires c.queue == []
    ensures FlushAll(cfg, c) == c
  {
  }

  /** One more item reported, on both sides. */
  lemma FlushStep(cfg: PosterConfig, c: Core, all: seq<Item>, i: nat)
    requires i < |all| && c.queue == all[i..]
    ensures FlushAll(cfg, c) == FlushAll(cfg, DrainDrop(cfg, TakeFirst(c), all[i], DrainBudgetExhausted))
    ensures c.queue[1..] == all[i + 1..]
    ensures DrainReports(cfg, all[..i + 1], DrainBudgetExhausted) ==
            DrainReports(cfg, all[..i], DrainBudgetExhausted)
            + [Drop(all[i].id, cfg.retries - all[i].attemptsLeft, DrainBudgetExhausted)]
  {
    assert all[..i + 1] == all[..i] + [all[i]];
    ReportsStep(cfg, all[..i], all[i], DrainBudgetExhausted);
  }

  lemma DrainStart(cfg: PosterConfig, all: seq<Item>, outcomes: seq<bool>)
    requires |outcomes| >= |all|
    ensures Ids(all[..0]) == [] && Ids(Chosen(all[..0], outcomes[..0], true)) == []
    ensures DrainReports(cfg, Chosen(all[..0], outcomes[..0], false), DrainTimeout) == []
  {
  }

  /** How the three lists of a drain grow with one more attempt. */
  lemma TriedStep(cfg: PosterConfig, all: seq<Item>, outcomes: seq<bool>, n: nat)
    requires n < |all| && |outcomes| >= |all|
    ensures var item, ok := all[n], outcomes[n];
            var hit, miss := Chosen(all[..n], outcomes[..n], true), Chosen(all[..n], outcomes[..n], false);
            && Ids(all[..n + 1]) == Ids(all[..n]) + [item.id]
            && Ids(Chosen(all[..n + 1], outcomes[..n + 1], true)) == Ids(hit) + (if ok then [item.id] else [])
            && DrainReports(cfg, Chosen(all[..n + 1], outcomes[..n + 1], false), DrainTimeout) ==
               DrainReports(cfg, miss, DrainTimeout)
               + (if ok then [] else [Drop(item.id, cfg.retries - item.attemptsLeft, DrainTimeout)])
  {
    hide Ids, Chosen, DrainReports;
    assert all[..n + 1] == all[..n] + [all[n]] && outcomes[..n + 1] == outcomes[..n] + [outcomes[n]];
    IdsStep(all[..n], all[n]);
    ChosenStep(all[..n], all[n], outcomes[..n], outcomes[n], true);
    ChosenStep(all[..n], all[n], outcomes[..n], outcomes[n], false);
    IdsStep(Chosen(all[..n], outcomes[..n], true), all[n]);
    ReportsStep(cfg, Chosen(all[..n], outcomes[..n], false), all[n], DrainTimeout);
  }

  function TimeAt(start: real, clock: seq<real>, i: nat): real
    requires i <= |clock|
  {
    if i == 0 then start else clock[i - 1]
  }

  function Ids(items: seq<Item>): seq<nat> {
    if items == [] then [] else Ids(items[..|items| - 1]) + [items[|items| - 1].id]
  }

  function Chosen(items: seq<Item>, flags: seq<bool>, wanted: bool): seq<Item>
    requires |items| == |flags|
  {
    if items == [] then []
    else
      var n := |items| - 1;
      Chosen(items[..n], flags[..n], wanted) + (if flags[n] == wanted then [items[n]] else [])
  }

  function DrainReports(cfg: PosterConfig, items: seq<Item>, reason: DropReason): seq<Drop> {
    if items == [] then []
    else
      var last := items[|items| - 1];
      DrainReports(cfg, items[..|items| - 1], reason) + [Drop(last.id, cfg.retries - last.attemptsLeft, reason)]
  }

  lemma IdsStep(items: seq<Item>, item: Item)
    ensures Ids(items + [item]) == Ids(items) + [item.id]
  {
    assert (items + [item])[..|items|] == items;
  }

  lemma ChosenStep(items: seq<Item>, item: Item, flags: seq<bool>, flag: bool, wanted: bool)
    requires |items| == |flags|
    ensures Chosen(items + [item], flags + [flag], wanted) ==
            if flag == wanted then Chosen(items, flags, wanted) + [item] else Chosen(items, flags, wanted)
  {
    assert (items + [item])[..|items|] == items && (flags + [flag])[..|flags|] == flags;
    assert Chosen(items, flags, wanted) + [] == Chosen(items, flags, wanted);
  }

  lemma ReportsStep(cfg: PosterConfig, items: seq<Item>, item: Item, reason: DropReason)
    ensures DrainReports(cfg, items + [item], reason) ==
            DrainReports(cfg, items, reason) + [Drop(item.id, cfg.retries - item.attemptsLeft, reason)]
  {
    assert (items + [item])[..|items|] == items;
  }
}
