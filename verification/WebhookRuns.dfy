/** Every interleaving of the cycle's `enqueue`, the consumer task and the shutdown drain. */
module WebhookRuns {
  import opened Wire
  import opened Webhook

  /** Where the consumer task is: at its loop test, awaiting an item, waiting for an item's retry
      time, posting, awaiting room to put an item back, or gone. */
  datatype Runner = AtLoopTest | Getting | Holding(item: Item) | Posting(item: Item) | AwaitingRoom(item: Item) | Exited

  datatype Drainer = NotDraining | Draining(deadline: real) | DrainPosting(item: Item, until: real) | Drained

  datatype Sys = Sys(core: Core, runner: Runner, drainer: Drainer, now: real)

  datatype Move =
    | Pass(seconds: real)
    | Offer
    | LoopTest | GetTimesOut | Get | StartPost | PostSucceeds | PostFails | RoomAppears
    | StartDrain(budget: real) | DrainTake | DrainSucceeds | DrainFails | Flush

  predicate Enabled(cfg: PosterConfig, s: Sys, m: Move) {
    match m
    case Pass(seconds) => seconds >= 0.0
    case Offer => true
    case LoopTest => s.runner.AtLoopTest?
    case GetTimesOut => s.runner.Getting?
    case Get => s.runner.Getting? && s.core.queue != []
    case StartPost => s.runner.Holding? && s.now >= s.runner.item.nextRetry
    case PostSucceeds => s.runner.Posting?
    case PostFails => s.runner.Posting?
    case RoomAppears => s.runner.AwaitingRoom? && !Full(cfg, s.core)
    case StartDrain(_) => s.drainer.NotDraining?
    case DrainTake => s.drainer.Draining? && s.core.queue != [] && s.now < s.drainer.deadline
    case DrainSucceeds => s.drainer.DrainPosting?
    case DrainFails => s.drainer.DrainPosting?
    case Flush => s.drainer.Draining? && (s.core.queue == [] || s.now >= s.drainer.deadline)
  }

  function Fire(cfg: PosterConfig, s: Sys, m: Move): Sys
    requires Enabled(cfg, s, m)
  {
    match m
    case Pass(seconds) => s.(now := s.now + seconds)
    case Offer => s.(core := EnqueueCore(cfg, s.core, s.now))
    case LoopTest => s.(runner := if s.core.stopped then Exited else Getting)
    case GetTimesOut => s.(runner := AtLoopTest)
    case Get => s.(core := TakeFirst(s.core), runner := Holding(s.core.queue[0]))
    case StartPost => s.(core := Attempting(s.core, s.runner.item), runner := Posting(s.runner.item))
    case PostSucceeds => s.(core := Sent(s.core, s.runner.item), runner := AtLoopTest)
    case PostFails => (
      match AfterFailure(cfg, s.runner.item, s.now)
      case None => s.(core := GiveUp(cfg, s.core, s.runner.item), runner := AtLoopTest)
      case Some(again) =>
        if Full(cfg, s.core) then s.(runner := AwaitingRoom(again))
        else s.(core := Put(s.core, again), runner := AtLoopTest))
    case RoomAppears => s.(core := Put(s.core, s.runner.item), runner := AtLoopTest)
    case StartDrain(budget) => s.(core := s.core.(stopped := true), drainer := Draining(s.now + budget))
    case DrainTake =>
      s.(core := Attempting(TakeFirst(s.core), s.core.queue[0]),
         drainer := DrainPosting(s.core.queue[0], s.drainer.deadline))
    case DrainSucceeds => s.(core := Sent(s.core, s.drainer.item), drainer := Draining(s.drainer.until))
    case DrainFails =>
      s.(core := DrainDrop(cfg, s.core, s.drainer.item, DrainTimeout), drainer := Draining(s.drainer.until))
    case Flush => s.(core := FlushAll(cfg, s.core), drainer := Drained)
  }

  const Initial := Sys(EmptyCore, AtLoopTest, NotDraining, 0.0)

  // ---------------------------------------------------------------- the invariant

  function Occurs(ids: seq<nat>, id: nat): nat {
    if ids == [] then 0 else Occurs(ids[..|ids| - 1], id) + (if ids[|ids| - 1] == id then 1 else 0)
  }

  function OccursInItems(items: seq<Item>, id: nat): nat {
    if items == [] then 0 else OccursInItems(items[..|items| - 1], id) + (if items[|items| - 1].id == id then 1 else 0)
  }

  function OccursInDrops(drops: seq<Drop>, id: nat): nat {
    if drops == [] then 0 else OccursInDrops(drops[..|drops| - 1], id) + (if drops[|drops| - 1].id == id then 1 else 0)
  }

  predicate RunnerHas(s: Sys, id: nat) {
    (s.runner.Holding? || s.runner.Posting? || s.runner.AwaitingRoom?) && s.runner.item.id == id
  }

  predicate DrainerHas(s: Sys, id: nat) {
    s.drainer.DrainPosting? && s.drainer.item.id == id
  }

  /** How often an envelope is to be found: delivered, reported dropped, queued, in flight. */
  function Places(s: Sys, id: nat): nat {
    Occurs(s.core.sent, id) + OccursInDrops(s.core.drops, id) + OccursInItems(s.core.queue, id)
    + (if RunnerHas(s, id) then 1 else 0) + (if DrainerHas(s, id) then 1 else 0)
  }

  /** Every envelope ever offered is in exactly one place, and no other is anywhere. */
  ghost predicate Conserved(s: Sys) {
    forall id: nat :: Places(s, id) == if id < s.core.offered then 1 else 0
  }

  /** Delivery attempts made for an envelope. */
  function Made(c: Core, id: nat): nat {
    Occurs(c.attempts, id)
  }

  /** An item not being posted: its remaining attempts account for those made, and it has one
      left unless it was never tried. */
  predicate Resting(cfg: PosterConfig, c: Core, item: Item) {
    && Made(c, item.id) == cfg.retries - item.attemptsLeft
    && (item.attemptsLeft >= 1 || item.attemptsLeft == cfg.retries == 0)
  }

  /** An item being posted: the current attempt is already logged. */
  predicate BeingPosted(cfg: PosterConfig, c: Core, item: Item) {
    && Made(c, item.id) == cfg.retries - item.attemptsLeft + 1
    && item.attemptsLeft <= cfg.retries
    && (item.attemptsLeft >= 1 || item.attemptsLeft == cfg.retries == 0)
  }

  function MaxAttempts(cfg: PosterConfig): nat {
    if cfg.retries >= 1 then cfg.retries else 1
  }

  /** The attempts a drop event leaves out: the drain's own attempt, and the single one made when
      no retry is configured. */
  function Unreported(cfg: PosterConfig, d: Drop): nat {
    if d.reason == DrainTimeout || (d.reason == RetryExhausted && cfg.retries == 0) then 1 else 0
  }

  ghost predicate ItemsAgree(cfg: PosterConfig, s: Sys) {
    && (forall i | 0 <= i < |s.core.queue| :: Resting(cfg, s.core, s.core.queue[i]))
    && (s.runner.Holding? || s.runner.AwaitingRoom? ==> Resting(cfg, s.core, s.runner.item))
    && (s.runner.Posting? ==> BeingPosted(cfg, s.core, s.runner.item))
    && (s.drainer.DrainPosting? ==> BeingPosted(cfg, s.core, s.drainer.item))
  }

  ghost predicate DropsAgree(cfg: PosterConfig, c: Core) {
    forall i | 0 <= i < |c.drops| :: Made(c, c.drops[i].id) == c.drops[i].attempts + Unreported(cfg, c.drops[i])
  }

  ghost predicate TriesAgree(cfg: PosterConfig, c: Core) {
    forall id: nat :: Made(c, id) <= if id < c.offered then MaxAttempts(cfg) else 0
  }

  ghost predicate Bounded(cfg: PosterConfig, s: Sys) {
    cfg.maxQueue > 0 ==> |s.core.queue| <= cfg.maxQueue
  }

  ghost predicate Inv(cfg: PosterConfig, s: Sys) {
    Conserved(s) && ItemsAgree(cfg, s) && DropsAgree(cfg, s.core) && TriesAgree(cfg, s.core) && Bounded(cfg, s)
  }

  // ---------------------------------------------------------------- counting

  lemma OccursAppend(ids: seq<nat>, x: nat, id: nat)
    ensures Occurs(ids + [x], id) == Occurs(ids, id) + (if x == id then 1 else 0)
  {
    assert (ids + [x])[..|ids|] == ids;
  }

  lemma ItemsAppend(items: seq<Item>, x: Item, id: nat)
    ensures OccursInItems(items + [x], id) == OccursInItems(items, id) + (if x.id == id then 1 else 0)
  {
    assert (items + [x])[..|items|] == items;
  }

  lemma DropsAppend(drops: seq<Drop>, x: Drop, id: nat)
    ensures OccursInDrops(drops + [x], id) == OccursInDrops(drops, id) + (if x.id == id then 1 else 0)
  {
    assert (drops + [x])[..|drops|] == drops;
  }

  lemma {:induction false} ItemsHead(items: seq<Item>, id: nat)
    requires items != []
    ensures OccursInItems(items, id) == (if items[0].id == id then 1 else 0) + OccursInItems(items[1..], id)
  {
    var n := |items| - 1;
    if n > 0 {
      ItemsHead(items[..n], id);
      assert items[..n][1..] == items[1..][..n - 1];
    }
  }

  lemma {:induction false} ItemCounts(items: seq<Item>, i: nat)
    requires i < |items|
    ensures OccursInItems(items, items[i].id) >= 1
  {
    if i < |items| - 1 {
      ItemCounts(items[..|items| - 1], i);
    }
  }

  lemma {:induction false} DropCounts(drops: seq<Drop>, i: nat)
    requires i < |drops|
    ensures OccursInDrops(drops, drops[i].id) >= 1
  {
    if i < |drops| - 1 {
      DropCounts(drops[..|drops| - 1], i);
    }
  }

  /** The flush reports every queued item once, in order, and touches nothing else. */
  lemma {:induction false} FlushReportsAll(cfg: PosterConfig, c: Core)
    ensures FlushAll(cfg, c) ==
            c.(queue := [], drops := c.drops + DrainReports(cfg, c.queue, DrainBudgetExhausted),
               droppedCount := c.droppedCount + |c.queue|)
    decreases |c.queue|
  {
    if c.queue == [] {
      assert c.drops + [] == c.drops;
    } else {
      var d := Drop(c.queue[0].id, cfg.retries - c.queue[0].attemptsLeft, DrainBudgetExhausted);
      FlushReportsAll(cfg, DrainDrop(cfg, TakeFirst(c), c.queue[0], DrainBudgetExhausted));
      ReportsHead(cfg, c.queue, DrainBudgetExhausted);
      assert c.drops + [d] + DrainReports(cfg, c.queue[1..], DrainBudgetExhausted)
          == c.drops + ([d] + DrainReports(cfg, c.queue[1..], DrainBudgetExhausted));
    }
  }

  lemma {:induction false} ReportsHead(cfg: PosterConfig, items: seq<Item>, reason: DropReason)
    requires items != []
    ensures DrainReports(cfg, items, reason) ==
            [Drop(items[0].id, cfg.retries - items[0].attemptsLeft, reason)] + DrainReports(cfg, items[1..], reason)
  {
    var n := |items| - 1;
    if n > 0 {
      ReportsHead(cfg, items[..n], reason);
      assert items[..n][1..] == items[1..][..n - 1];
    }
  }

  lemma {:induction false} ReportsCount(cfg: PosterConfig, drops: seq<Drop>, items: seq<Item>, reason: DropReason,
                                        id: nat)
    ensures OccursInDrops(drops + DrainReports(cfg, items, reason), id) ==
            OccursInDrops(drops, id) + OccursInItems(items, id)
  {
    if items == [] {
      assert drops + DrainReports(cfg, items, reason) == drops;
    } else {
      var n := |items| - 1;
      var d := Drop(items[n].id, cfg.retries - items[n].attemptsLeft, reason);
      ReportsCount(cfg, drops, items[..n], reason, id);
      assert drops + DrainReports(cfg, items, reason) == drops + DrainReports(cfg, items[..n], reason) + [d];
      DropsAppend(drops + DrainReports(cfg, items[..n], reason), d, id);
    }
  }

  lemma {:induction false} ReportsAt(cfg: PosterConfig, items: seq<Item>, reason: DropReason)
    ensures |DrainReports(cfg, items, reason)| == |items|
    ensures forall i | 0 <= i < |items| ::
              DrainReports(cfg, items, reason)[i] == Drop(items[i].id, cfg.retries - items[i].attemptsLeft, reason)
  {
    if items != [] {
      ReportsAt(cfg, items[..|items| - 1], reason);
    }
  }

  // ---------------------------------------------------------------- steps keep the invariant

  /** Conservation of one envelope in one step. */
  lemma PlacesStep(cfg: PosterConfig, s: Sys, m: Move, id: nat)
    requires Enabled(cfg, s, m)
    requires Places(s, id) == if id < s.core.offered then 1 else 0
    ensures Places(Fire(cfg, s, m), id) == if id < Fire(cfg, s, m).core.offered then 1 else 0
  {
    hide Occurs, OccursInItems, OccursInDrops, Delay;
    var c := s.core;
    match m {
      case Offer =>
        DropsAppend(c.drops, Drop(c.offered, 0, QueueFull), id);
        ItemsAppend(c.queue, Item(c.offered, cfg.retries, s.now), id);
      case Get => ItemsHead(c.queue, id);
      case DrainTake => ItemsHead(c.queue, id);
      case PostSucceeds => OccursAppend(c.sent, s.runner.item.id, id);
      case PostFails =>
        DropsAppend(c.drops, Drop(s.runner.item.id, cfg.retries, RetryExhausted), id);
        if AfterFailure(cfg, s.runner.item, s.now).Some? {
          ItemsAppend(c.queue, AfterFailure(cfg, s.runner.item, s.now).value, id);
        }
      case RoomAppears => ItemsAppend(c.queue, s.runner.item, id);
      case DrainSucceeds => OccursAppend(c.sent, s.drainer.item.id, id);
      case DrainFails =>
        DropsAppend(c.drops, Drop(s.drainer.item.id, cfg.retries - s.drainer.item.attemptsLeft, DrainTimeout), id);
      case Flush =>
        FlushReportsAll(cfg, c);
        ReportsCount(cfg, c.drops, c.queue, DrainBudgetExhausted, id);
        EmptyHasNone(id);
      case _ =>
    }
  }

  lemma EmptyHasNone(id: nat)
    ensures OccursInItems([], id) == 0
  {
  }

  /** Starting a post on an item taken from the one place it was in. */
  lemma PostBegins(cfg: PosterConfig, s: Sys, e: Sys, item: Item)
    requires Conserved(s) && ItemsAgree(cfg, s) && DropsAgree(cfg, s.core) && TriesAgree(cfg, s.core)
    requires Resting(cfg, s.core, item) && Places(s, item.id) >= 1
    requires OccursInItems(e.core.queue, item.id) == 0 && OccursInDrops(s.core.drops, item.id) == 0
    requires e.core.attempts == s.core.attempts + [item.id] && e.core.drops == s.core.drops
    requires e.core.offered == s.core.offered
    requires forall i | 0 <= i < |e.core.queue| :: Resting(cfg, s.core, e.core.queue[i])
    ensures DropsAgree(cfg, e.core) && TriesAgree(cfg, e.core) && BeingPosted(cfg, e.core, item)
    ensures forall i | 0 <= i < |e.core.queue| :: Resting(cfg, e.core, e.core.queue[i])
    ensures forall id: nat | id != item.id :: Made(e.core, id) == Made(s.core, id)
  {
    hide Occurs, OccursInItems, OccursInDrops, Places;
    assert item.id < s.core.offered;
    forall id: nat ensures Made(e.core, id) == Made(s.core, id) + (if id == item.id then 1 else 0) {
      OccursAppend(s.core.attempts, item.id, id);
    }
    forall i: nat | i < |e.core.queue| ensures e.core.queue[i].id != item.id { ItemCounts(e.core.queue, i); }
    forall i: nat | i < |e.core.drops| ensures e.core.drops[i].id != item.id { DropCounts(e.core.drops, i); }
  }

  lemma AgreeStart(cfg: PosterConfig, s: Sys)
    requires Inv(cfg, s) && Enabled(cfg, s, StartPost)
    ensures var e := Fire(cfg, s, StartPost);
            ItemsAgree(cfg, e) && DropsAgree(cfg, e.core) && TriesAgree(cfg, e.core)
  {
    hide Occurs, OccursInItems, OccursInDrops, TriesAgree, DropsAgree;
    var item := s.runner.item;
    assert Places(s, item.id) == if item.id < s.core.offered then 1 else 0;
    if s.drainer.DrainPosting? {
      assert Places(s, s.drainer.item.id) == if s.drainer.item.id < s.core.offered then 1 else 0;
    }
    PostBegins(cfg, s, Fire(cfg, s, StartPost), item);
  }

  lemma AgreeDrainTake(cfg: PosterConfig, s: Sys)
    requires Inv(cfg, s) && Enabled(cfg, s, DrainTake)
    ensures var e := Fire(cfg, s, DrainTake);
            ItemsAgree(cfg, e) && DropsAgree(cfg, e.core) && TriesAgree(cfg, e.core)
  {
    hide Occurs, OccursInItems, OccursInDrops, TriesAgree, DropsAgree;
    var item := s.core.queue[0];
    assert Places(s, item.id) == if item.id < s.core.offered then 1 else 0;
    ItemCounts(s.core.queue, 0);
    ItemsHead(s.core.queue, item.id);
    if s.runner.Holding? || s.runner.Posting? || s.runner.AwaitingRoom? {
      assert Places(s, s.runner.item.id) == if s.runner.item.id < s.core.offered then 1 else 0;
    }
    PostBegins(cfg, s, Fire(cfg, s, DrainTake), item);
  }

  /** Moves that post nothing leave every envelope's attempts as they were. */
  lemma AttemptsKept(cfg: PosterConfig, s: Sys, m: Move)
    requires Enabled(cfg, s, m) && !m.StartPost? && !m.DrainTake?
    ensures Fire(cfg, s, m).core.attempts == s.core.attempts
  {
    hide Delay, FlushAll;
    if m.Flush? {
      FlushReportsAll(cfg, s.core);
    }
  }

  lemma TriesKept(cfg: PosterConfig, s: Sys, m: Move)
    requires TriesAgree(cfg, s.core) && Enabled(cfg, s, m) && !m.StartPost? && !m.DrainTake?
    ensures TriesAgree(cfg, Fire(cfg, s, m).core)
  {
    hide Occurs, Delay, FlushAll;
    AttemptsKept(cfg, s, m);
    if m.Flush? {
      FlushReportsAll(cfg, s.core);
    }
    var e := Fire(cfg, s, m);
    forall id: nat ensures Made(e.core, id) == Made(s.core, id) {}
  }

  lemma AgreeFlush(cfg: PosterConfig, s: Sys)
    requires ItemsAgree(cfg, s) && DropsAgree(cfg, s.core) && Enabled(cfg, s, Flush)
    ensures var e := Fire(cfg, s, Flush); ItemsAgree(cfg, e) && DropsAgree(cfg, e.core)
  {
    hide Occurs, Delay, FlushAll, DrainReports;
    FlushReportsAll(cfg, s.core);
    ReportsAt(cfg, s.core.queue, DrainBudgetExhausted);
    AttemptsKept(cfg, s, Flush);
    var e := Fire(cfg, s, Flush);
    forall id: nat ensures Made(e.core, id) == Made(s.core, id) {}
  }

  lemma AgreePostFails(cfg: PosterConfig, s: Sys)
    requires ItemsAgree(cfg, s) && DropsAgree(cfg, s.core) && Enabled(cfg, s, PostFails)
    ensures var e := Fire(cfg, s, PostFails); ItemsAgree(cfg, e) && DropsAgree(cfg, e.core)
  {
    hide Occurs, Delay, FlushAll, DrainReports;
    var e := Fire(cfg, s, PostFails);
    forall id: nat ensures Made(e.core, id) == Made(s.core, id) {}
  }

  lemma AgreeOther(cfg: PosterConfig, s: Sys, m: Move)
    requires ItemsAgree(cfg, s) && DropsAgree(cfg, s.core) && TriesAgree(cfg, s.core) && Enabled(cfg, s, m)
    requires !m.StartPost? && !m.DrainTake? && !m.Flush? && !m.PostFails?
    requires forall id: nat | id >= s.core.offered :: Made(s.core, id) == 0
    ensures var e := Fire(cfg, s, m); ItemsAgree(cfg, e) && DropsAgree(cfg, e.core)
  {
    hide Occurs, Delay, FlushAll, DrainReports, TriesAgree;
    AttemptsKept(cfg, s, m);
    var e := Fire(cfg, s, m);
    forall id: nat ensures Made(e.core, id) == Made(s.core, id) {}
  }

  lemma StepKeepsInv(cfg: PosterConfig, s: Sys, m: Move)
    requires Inv(cfg, s) && Enabled(cfg, s, m)
    ensures Inv(cfg, Fire(cfg, s, m))
  {
    hide ItemsAgree, DropsAgree, Places, Made, FlushAll, Delay;
    forall id: nat ensures Places(Fire(cfg, s, m), id) == if id < Fire(cfg, s, m).core.offered then 1 else 0 {
      PlacesStep(cfg, s, m, id);
    }
    if m.StartPost? {
      AgreeStart(cfg, s);
    } else if m.DrainTake? {
      AgreeDrainTake(cfg, s);
    } else {
      TriesKept(cfg, s, m);
      if m.Flush? {
        AgreeFlush(cfg, s);
        FlushReportsAll(cfg, s.core);
      } else if m.PostFails? {
        AgreePostFails(cfg, s);
      } else {
        AgreeOther(cfg, s, m);
      }
    }
  }

  /** One enabled move leads from `s` to `e`. */
  ghost predicate Step(cfg: PosterConfig, s: Sys, e: Sys) {
    exists m :: Enabled(cfg, s, m) && e == Fire(cfg, s, m)
  }

  /** A run: states joined by enabled moves, in any interleaving. */
  ghost predicate IsRun(cfg: PosterConfig, run: seq<Sys>) {
    && cfg.Valid() && |run| > 0 && run[0] == Initial
    && forall i | 0 < i < |run| :: Step(cfg, run[i - 1], run[i])
  }

  lemma {:induction false} RunKeepsInv(cfg: PosterConfig, run: seq<Sys>, i: nat)
    requires IsRun(cfg, run) && i < |run|
    ensures Inv(cfg, run[i])
  {
    hide Inv, Fire, Enabled;
    if i == 0 {
      StartHoldsInv(cfg);
    } else {
      RunKeepsInv(cfg, run, i - 1);
      assert Step(cfg, run[i - 1], run[i]);
      var m :| Enabled(cfg, run[i - 1], m) && run[i] == Fire(cfg, run[i - 1], m);
      StepKeepsInv(cfg, run[i - 1], m);
    }
  }

  lemma StartHoldsInv(cfg: PosterConfig)
    ensures Inv(cfg, Initial)
  {
  }

  // ---------------------------------------------------------------- theorems

  /** Conservation, over every interleaving: each of the envelopes offered so far has exactly one
      fate; the queue keeps its bound. */
  lemma EveryEnvelopeIsInOnePlace(cfg: PosterConfig, run: seq<Sys>, i: nat, id: nat)
    requires IsRun(cfg, run) && i < |run|
    ensures Places(run[i], id) == if id < run[i].core.offered then 1 else 0
    ensures cfg.maxQueue > 0 ==> |run[i].core.queue| <= cfg.maxQueue
  {
    RunKeepsInv(cfg, run, i);
  }

  function Flying(s: Sys): nat {
    (if s.runner.Holding? || s.runner.Posting? || s.runner.AwaitingRoom? then 1 else 0)
    + (if s.drainer.DrainPosting? then 1 else 0)
  }

  /** The counts of the delivery metric are those of the events, and all envelopes add up. */
  predicate Totals(s: Sys) {
    && s.core.sentCount == |s.core.sent| && s.core.droppedCount == |s.core.drops|
    && s.core.offered == s.core.sentCount + s.core.droppedCount + |s.core.queue| + Flying(s)
  }

  lemma TotalsStep(cfg: PosterConfig, s: Sys, m: Move)
    requires Enabled(cfg, s, m) && Totals(s)
    ensures Totals(Fire(cfg, s, m))
  {
    hide Delay, FlushAll, DrainReports;
    if m.Flush? {
      FlushReportsAll(cfg, s.core);
      ReportsAt(cfg, s.core.queue, DrainBudgetExhausted);
    }
  }

  /** The totals: enqueue calls with a URL are those counted sent, those counted dropped, the
      queued and the in-flight; `dropped` is the number of drop events, `sent` of deliveries. */
  lemma {:induction false} TotalsAddUp(cfg: PosterConfig, run: seq<Sys>, i: nat)
    requires IsRun(cfg, run) && i < |run|
    ensures Totals(run[i])
  {
    hide Fire, Enabled, Totals;
    if i == 0 {
      TotalsAtStart();
    } else {
      TotalsAddUp(cfg, run, i - 1);
      assert Step(cfg, run[i - 1], run[i]);
      var m :| Enabled(cfg, run[i - 1], m) && run[i] == Fire(cfg, run[i - 1], m);
      TotalsStep(cfg, run[i - 1], m);
    }
  }

  lemma TotalsAtStart()
    ensures Totals(Initial)
  {
  }

  /** Each envelope gets at most max(1, retries) delivery attempts, the drain's included. */
  lemma AttemptsAreBounded(cfg: PosterConfig, run: seq<Sys>, i: nat, id: nat)
    requires IsRun(cfg, run) && i < |run|
    ensures Made(run[i].core, id) <= MaxAttempts(cfg)
  {
    RunKeepsInv(cfg, run, i);
  }

  /** A drop event reports the attempts truly made if and only if it is not the drain's own
      failed attempt, nor a give-up with no retry configured; those report one too few. */
  lemma DropEventsReportAttempts(cfg: PosterConfig, run: seq<Sys>, i: nat, j: nat)
    requires IsRun(cfg, run) && i < |run| && j < |run[i].core.drops|
    ensures var d := run[i].core.drops[j];
            && (d.attempts == Made(run[i].core, d.id) <==>
                  d.reason != DrainTimeout && !(d.reason == RetryExhausted && cfg.retries == 0))
            && Made(run[i].core, d.id) - d.attempts in {0, 1}
  {
    RunKeepsInv(cfg, run, i);
    assert Made(run[i].core, run[i].core.drops[j].id)
        == run[i].core.drops[j].attempts + Unreported(cfg, run[i].core.drops[j]);
  }

  /** The backoff lookup after any failed post is in range, and is the delay of that attempt's
      number, the last delay serving for all later ones. */
  lemma BackoffIndexInRange(cfg: PosterConfig, run: seq<Sys>, i: nat)
    requires IsRun(cfg, run) && i < |run| && run[i].runner.Posting? && run[i].runner.item.attemptsLeft > 1
    ensures var item := run[i].runner.item;
            var k := BackoffIndex(cfg, item.attemptsLeft - 1);
            && 0 <= k < |cfg.backoff|
            && k == (if Made(run[i].core, item.id) <= |cfg.backoff|
                     then Made(run[i].core, item.id) - 1 else |cfg.backoff| - 1)
            && AfterFailure(cfg, item, run[i].now).Some?
            && AfterFailure(cfg, item, run[i].now).value.nextRetry == run[i].now + cfg.backoff[k]
  {
    RunKeepsInv(cfg, run, i);
  }

  // ---------------------------------------------------------------- the blocked consumer

  /** At the bound, over every run: an envelope offered is queued, and nothing dropped, if and only if
      the queue is unbounded or holds fewer than its bound, and otherwise it is dropped and the queue
      stays; and a failed attempt with a retry left suspends the consumer if and only if exactly as
      many envelopes as the bound are queued. */
  lemma QueueActsAtItsBound(cfg: PosterConfig, run: seq<Sys>, i: nat)
    requires IsRun(cfg, run) && i < |run|
    ensures var c, e := run[i].core, Fire(cfg, run[i], Offer).core;
            var room := cfg.maxQueue <= 0 || |c.queue| < cfg.maxQueue;
            && (room ==> e.queue == c.queue + [Item(c.offered, cfg.retries, run[i].now)] && e.drops == c.drops)
            && (!room ==> |c.queue| == cfg.maxQueue && e.queue == c.queue
                          && e.drops == c.drops + [Drop(c.offered, 0, QueueFull)])
    ensures run[i].runner.Posting? && AfterFailure(cfg, run[i].runner.item, run[i].now).Some? ==>
              (Fire(cfg, run[i], PostFails).runner.AwaitingRoom? <==>
                 cfg.maxQueue > 0 && |run[i].core.queue| == cfg.maxQueue)
    ensures Enabled(cfg, run[i], RoomAppears) <==>
              run[i].runner.AwaitingRoom? && (cfg.maxQueue <= 0 || |run[i].core.queue| < cfg.maxQueue)
  {
    hide Conserved, ItemsAgree, DropsAgree, TriesAgree, IsRun;
    RunKeepsInv(cfg, run, i);
  }

  lemma OnlyOffersFillUp(cfg: PosterConfig, s: Sys, m: Move)
    requires Enabled(cfg, s, m) && !m.Offer?
    ensures var e := Fire(cfg, s, m);
            s.core.drops <= e.core.drops
            && forall j | |s.core.drops| <= j < |e.core.drops| :: e.core.drops[j].reason != QueueFull
  {
    hide Delay, FlushAll;
    if m.Flush? {
      FlushReportsAll(cfg, s.core);
      ReportsAt(cfg, s.core.queue, DrainBudgetExhausted);
    }
  }

  /** Every queue-full event of every run was made by an offer, with exactly the bound queued. */
  lemma QueueFullMeansAtTheBound(cfg: PosterConfig, run: seq<Sys>, i: nat, j: nat)
    requires IsRun(cfg, run) && 0 < i < |run|
    requires |run[i - 1].core.drops| <= j < |run[i].core.drops| && run[i].core.drops[j].reason == QueueFull
    ensures cfg.maxQueue > 0 && |run[i - 1].core.queue| == cfg.maxQueue
    ensures run[i].core.drops[j].id == run[i - 1].core.offered
  {
    hide Fire, Enabled, EnqueueCore, Full;
    assert Step(cfg, run[i - 1], run[i]);
    var m :| Enabled(cfg, run[i - 1], m) && run[i] == Fire(cfg, run[i - 1], m);
    if m.Offer? {
      QueueActsAtItsBound(cfg, run, i - 1);
    } else {
      OnlyOffersFillUp(cfg, run[i - 1], m);
    }
  }

  /** Once suspended on a full queue, the consumer stays so: until a drain starts, no step of
      anyone delivers, tries or frees anything, and every further envelope is dropped. */
  lemma BlockedConsumerStaysBlocked(cfg: PosterConfig, s: Sys, m: Move)
    requires s.runner.AwaitingRoom? && Full(cfg, s.core) && s.drainer.NotDraining?
    requires Enabled(cfg, s, m) && !m.StartDrain?
    ensures var e := Fire(cfg, s, m);
            && e.runner == s.runner && e.drainer.NotDraining? && e.core.queue == s.core.queue && Full(cfg, e.core)
            && e.core.sent == s.core.sent && e.core.attempts == s.core.attempts
            && |e.core.drops| - |s.core.drops| == e.core.offered - s.core.offered
  {
  }

  ghost predicate StepWithoutDrain(cfg: PosterConfig, s: Sys, e: Sys) {
    exists m :: Enabled(cfg, s, m) && !m.StartDrain? && e == Fire(cfg, s, m)
  }

  /** So it is stuck for good without a drain. */
  lemma {:induction false} BlockedForever(cfg: PosterConfig, states: seq<Sys>, i: nat)
    requires i < |states| && states[0].runner.AwaitingRoom?
    requires Full(cfg, states[0].core) && states[0].drainer.NotDraining?
    requires forall j | 0 < j < |states| :: StepWithoutDrain(cfg, states[j - 1], states[j])
    ensures states[i].runner == states[0].runner && states[i].core.sent == states[0].core.sent
    ensures states[i].core.attempts == states[0].core.attempts && states[i].core.queue == states[0].core.queue
    ensures Full(cfg, states[i].core) && states[i].drainer.NotDraining?
  {
    hide Fire, Enabled;
    if i > 0 {
      BlockedForever(cfg, states, i - 1);
      assert StepWithoutDrain(cfg, states[i - 1], states[i]);
      var m :| Enabled(cfg, states[i - 1], m) && !m.StartDrain? && states[i] == Fire(cfg, states[i - 1], m);
      BlockedConsumerStaysBlocked(cfg, states[i - 1], m);
    }
  }

  lemma Joined(cfg: PosterConfig, s: Sys, m: Move, e: Sys)
    requires Enabled(cfg, s, m) && Fire(cfg, s, m) == e
    ensures Step(cfg, s, e)
  {
  }

  /** The opening moves of both runs below: one envelope is offered, taken and being posted. */
  function Opening(k: nat): Sys {
    var a := Item(0, 3, 0.0);
    if k == 0 then Initial
    else if k == 1 then Sys(Core([a], false, 1, [], [], [], 0, 0), AtLoopTest, NotDraining, 0.0)
    else if k == 2 then Sys(Core([a], false, 1, [], [], [], 0, 0), Getting, NotDraining, 0.0)
    else if k == 3 then Sys(Core([], false, 1, [], [], [], 0, 0), Holding(a), NotDraining, 0.0)
    else Sys(Core([], false, 1, [], [], [0], 0, 0), Posting(a), NotDraining, 0.0)
  }

  lemma OpeningIsRun(cfg: PosterConfig, k: nat)
    requires cfg.retries == 3 && cfg.maxQueue > 0 && k < 4
    ensures Step(cfg, Opening(k), Opening(k + 1))
  {
    if k == 0 {
      Joined(cfg, Opening(0), Offer, Opening(1));
    } else if k == 1 {
      Joined(cfg, Opening(1), LoopTest, Opening(2));
    } else if k == 2 {
      Joined(cfg, Opening(2), Get, Opening(3));
    } else {
      Joined(cfg, Opening(3), StartPost, Opening(4));
    }
  }

  /** With a one-place queue: while the first envelope is posted, a second fills the queue, and
      the first attempt fails. */
  function Blocking(k: nat): Sys {
    var b := Item(1, 3, 0.0);
    if k <= 4 then Opening(k)
    else if k == 5 then Sys(Core([b], false, 2, [], [], [0], 0, 0), Posting(Item(0, 3, 0.0)), NotDraining, 0.0)
    else Sys(Core([b], false, 2, [], [], [0], 0, 0), AwaitingRoom(Item(0, 2, 1.0)), NotDraining, 0.0)
  }

  lemma BlockingIsRun(cfg: PosterConfig, k: nat)
    requires cfg == PosterConfig(3, 1, [1.0]) && k < 6
    ensures Step(cfg, Blocking(k), Blocking(k + 1))
  {
    if k < 4 {
      OpeningIsRun(cfg, k);
    } else if k == 4 {
      Joined(cfg, Blocking(4), Offer, Blocking(5));
    } else {
      Joined(cfg, Blocking(5), PostFails, Blocking(6));
    }
  }

  lemma ConsumerCanBlock()
    ensures exists cfg: PosterConfig, run: seq<Sys> :: IsRun(cfg, run) && run[|run| - 1].runner.AwaitingRoom?
              && Full(cfg, run[|run| - 1].core) && run[|run| - 1].drainer.NotDraining?
  {
    hide Step;
    var cfg := PosterConfig(3, 1, [1.0]);
    var run := seq(7, k requires 0 <= k => Blocking(k));
    forall k: nat | k < 6 ensures Step(cfg, run[k], run[k + 1]) { BlockingIsRun(cfg, k); }
    assert IsRun(cfg, run) && run[|run| - 1] == Blocking(6);
  }

  // ---------------------------------------------------------------- shutdown

  /** A drain between two attempts always has exactly one way on: it takes the next envelope while one
      is queued and its budget has not run out, and reports the rest otherwise. */
  lemma DrainTakesOrFlushes(cfg: PosterConfig, s: Sys)
    requires s.drainer.Draining?
    ensures Enabled(cfg, s, DrainTake) <==> s.core.queue != [] && s.now < s.drainer.deadline
    ensures Enabled(cfg, s, Flush) <==> !Enabled(cfg, s, DrainTake)
  {
  }

  /** A drain that finds the consumer without an item leaves nothing unreported. */
  lemma QuietDrainReportsEverything(cfg: PosterConfig, run: seq<Sys>, i: nat, id: nat)
    requires IsRun(cfg, run) && i < |run| && Enabled(cfg, run[i], Flush)
    requires !run[i].runner.Holding? && !run[i].runner.Posting? && !run[i].runner.AwaitingRoom?
    ensures var e := Fire(cfg, run[i], Flush);
            && e.core.queue == []
            && (id < e.core.offered ==> Occurs(e.core.sent, id) + OccursInDrops(e.core.drops, id) == 1)
  {
    RunKeepsInv(cfg, run, i);
    StepKeepsInv(cfg, run[i], Flush);
    FlushReportsAll(cfg, run[i].core);
    var e := Fire(cfg, run[i], Flush);
    assert Places(e, id) == if id < e.core.offered then 1 else 0;
  }

  /** After shutdown, with the drain done and the consumer gone, an envelope is unreported if and
      only if it is in the queue, and it stays there whatever happens next. */
  lemma UnreportedAfterShutdown(cfg: PosterConfig, run: seq<Sys>, i: nat, id: nat, m: Move)
    requires IsRun(cfg, run) && i < |run| && id < run[i].core.offered
    requires run[i].runner.Exited? && run[i].drainer.Drained?
    ensures Occurs(run[i].core.sent, id) + OccursInDrops(run[i].core.drops, id) == 0 <==>
            OccursInItems(run[i].core.queue, id) == 1
    ensures Enabled(cfg, run[i], m) ==>
              var e := Fire(cfg, run[i], m);
              && e.runner.Exited? && e.drainer.Drained?
              && run[i].core.queue <= e.core.queue && e.core.sent == run[i].core.sent
  {
    RunKeepsInv(cfg, run, i);
    assert Places(run[i], id) == 1;
  }

  /** The drain starts while the attempt is in flight and finishes on the empty queue; then the
      attempt fails, is put back, and the consumer leaves. */
  function Losing(k: nat): Sys {
    var a, again := Item(0, 3, 0.0), Item(0, 2, 1.0);
    if k <= 4 then Opening(k)
    else if k == 5 then Sys(Core([], true, 1, [], [], [0], 0, 0), Posting(a), Draining(3.0), 0.0)
    else if k == 6 then Sys(Core([], true, 1, [], [], [0], 0, 0), Posting(a), Drained, 0.0)
    else if k == 7 then Sys(Core([again], true, 1, [], [], [0], 0, 0), AtLoopTest, Drained, 0.0)
    else Sys(Core([again], true, 1, [], [], [0], 0, 0), Exited, Drained, 0.0)
  }

  lemma LosingIsRun(cfg: PosterConfig, k: nat)
    requires cfg == PosterConfig(3, 100, [1.0, 4.0, 16.0]) && k < 8
    ensures Step(cfg, Losing(k), Losing(k + 1))
  {
    if k < 4 {
      OpeningIsRun(cfg, k);
    } else if k == 4 {
      Joined(cfg, Losing(4), StartDrain(3.0), Losing(5));
    } else if k == 5 {
      Joined(cfg, Losing(5), Flush, Losing(6));
    } else if k == 6 {
      Joined(cfg, Losing(6), PostFails, Losing(7));
    } else {
      Joined(cfg, Losing(7), LoopTest, Losing(8));
    }
  }

  /** That can happen: an attempt is in flight while the drain finishes, then fails and is put
      back, and nobody is left to take it. */
  lemma InFlightAttemptCanBeLost()
    ensures exists cfg: PosterConfig, run: seq<Sys> :: IsRun(cfg, run) && LostInQueue(run[|run| - 1])
  {
    hide Step;
    var cfg := PosterConfig(3, 100, [1.0, 4.0, 16.0]);
    var run := seq(9, k requires 0 <= k => Losing(k));
    forall k: nat | k < 8 ensures Step(cfg, run[k], run[k + 1]) { LosingIsRun(cfg, k); }
    assert IsRun(cfg, run) && run[|run| - 1] == Losing(8);
  }

  /** Shut down, with the only envelope neither delivered nor reported. */
  predicate LostInQueue(s: Sys) {
    && s.runner.Exited? && s.drainer.Drained?
    && s.core.offered == 1 && |s.core.queue| == 1 && s.core.sent == [] && s.core.drops == []
  }
}
