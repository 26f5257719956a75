/** The cycle timer: a deadline kept on a grid fixed at boot, moved on after every cycle. */
module CycleScheduler {
  import opened Wire

  // ---------------------------------------------------------------- specification

  function Max(a: int, b: int): int { if a >= b then a else b }

  /** The length of `k` intervals. */
  function Span(interval: real, k: int): real { interval * k as real }

  /** How many intervals one `advance` at time `now` moves the deadline. */
  function Jump(deadline: real, interval: real, now: real): int
    requires interval > 0.0
  {
    Max(1, ((now - deadline) / interval).Floor + 1)
  }

  /** The closed form of `advance`. */
  function Advanced(deadline: real, interval: real, now: real): real
    requires interval > 0.0
  {
    deadline + Span(interval, Jump(deadline, interval, now))
  }

  class Scheduler {
    const interval: real
    var nextDeadline: real

    ghost predicate Valid() { interval > 0.0 }

    constructor (interval: real, now: real)
      requires interval > 0.0
      ensures this.interval == interval && Valid() && nextDeadline == now + interval
    {
      this.interval, nextDeadline := interval, now + interval;
    }

    /** The checked construction: a non-positive interval is refused. */
    static method Create(interval: real, now: real) returns (r: Option<Scheduler>)
      ensures r.Some? <==> interval > 0.0
      ensures r.Some? ==> fresh(r.value) && r.value.Valid() && r.value.interval == interval
                          && r.value.nextDeadline == now + interval
    {
      if interval <= 0.0 {
        return None;
      }
      var s := new Scheduler(interval, now);
      r := Some(s);
    }

    predicate Overran(now: real)
      reads this
    {
      now > nextDeadline + interval
    }

    method Advance(now: real)
      requires Valid()
      modifies this
      ensures nextDeadline == Advanced(old(nextDeadline), interval, now)
    {
      ghost var k := 1;
      nextDeadline := nextDeadline + interval;
      while nextDeadline <= now
        invariant k >= 1 && nextDeadline == old(nextDeadline) + Span(interval, k)
        invariant k > 1 ==> old(nextDeadline) + Span(interval, k - 1) <= now
        decreases ((now - nextDeadline) / interval).Floor + 1
      {
        OneFewer(now - nextDeadline, interval);
        nextDeadline := nextDeadline + interval;
        k := k + 1;
      }
      JumpIs(old(nextDeadline), interval, now, k);
    }
  }

  // ---------------------------------------------------------------- arithmetic

  lemma OneFewer(gap: real, interval: real)
    requires interval > 0.0 && gap >= 0.0
    ensures ((gap - interval) / interval).Floor == (gap / interval).Floor - 1
    ensures (gap / interval).Floor >= 0
  {
    var q := gap / interval;
    Unique(gap - interval, interval, q - 1.0);
    Quotient(gap, interval, 0);
  }

  lemma Unique(gap: real, interval: real, q: real)
    requires interval > 0.0 && q * interval == gap
    ensures gap / interval == q
  {
    assert (gap / interval) * interval == gap;
    assert (gap / interval - q) * interval == 0.0;
  }

  lemma SpanAdd(interval: real, i: int, j: int)
    ensures Span(interval, i + j) == Span(interval, i) + Span(interval, j)
    ensures Span(interval, 1) == interval
    ensures interval > 0.0 && i >= j ==> Span(interval, i) >= Span(interval, j)
  {
  }

  /** The quotient is at least `k` exactly when the dividend is at least `k` intervals. */
  lemma Quotient(gap: real, interval: real, k: int)
    requires interval > 0.0
    ensures (gap / interval).Floor >= k <==> gap >= Span(interval, k)
  {
    var q := gap / interval;
    assert gap == q * interval;
    if q >= k as real {
      assert (q - k as real) * interval >= 0.0;
    } else {
      assert (k as real - q) * interval > 0.0;
    }
  }

  lemma JumpIs(deadline: real, interval: real, now: real, k: int)
    requires interval > 0.0 && k >= 1
    requires deadline + Span(interval, k) > now
    requires k > 1 ==> deadline + Span(interval, k - 1) <= now
    ensures Jump(deadline, interval, now) == k
  {
    Quotient(now - deadline, interval, k);
    Quotient(now - deadline, interval, k - 1);
  }

  // ---------------------------------------------------------------- one call

  /** The new deadline is the first one after `now` among those at least one interval on. */
  lemma AdvanceIsLeast(deadline: real, interval: real, now: real, k: int)
    requires interval > 0.0
    ensures Advanced(deadline, interval, now) > now && Jump(deadline, interval, now) >= 1
    ensures k >= 1 && deadline + Span(interval, k) > now ==> k >= Jump(deadline, interval, now)
  {
    var j := Jump(deadline, interval, now);
    Quotient(now - deadline, interval, j);
    Quotient(now - deadline, interval, k);
  }

  /** It is within one interval of `now` if and only if the call came at or after the deadline. */
  lemma WithinOneIntervalExactlyWhenDue(deadline: real, interval: real, now: real)
    requires interval > 0.0
    ensures Advanced(deadline, interval, now) <= now + interval <==> now >= deadline
  {
    var j := Jump(deadline, interval, now);
    Quotient(now - deadline, interval, j - 1);
    Quotient(now - deadline, interval, 0);
    SpanAdd(interval, j - 1, 1);
  }

  /** A cycle overran exactly when a call at that time would skip a deadline, but for the very
      moment one interval late; any later call then skips one as well. */
  lemma OverrunSkipsADeadline(s: Scheduler, now: real, later: real)
    requires s.Valid() && later >= now
    ensures s.Overran(now) <==> Jump(s.nextDeadline, s.interval, now) >= 2 && now != s.nextDeadline + s.interval
    ensures s.Overran(now) ==> Jump(s.nextDeadline, s.interval, later) >= 2
  {
    Quotient(now - s.nextDeadline, s.interval, 1);
    Quotient(later - s.nextDeadline, s.interval, 1);
  }

  // ---------------------------------------------------------------- runs

  /** The deadline after the calls made at these times. */
  function DeadlineAfter(boot: real, interval: real, calls: seq<real>): real
    requires interval > 0.0
  {
    if calls == [] then boot + interval
    else Advanced(DeadlineAfter(boot, interval, calls[..|calls| - 1]), interval, calls[|calls| - 1])
  }

  /** Its place on the grid. */
  function GridIndex(boot: real, interval: real, calls: seq<real>): int
    requires interval > 0.0
  {
    if calls == [] then 1
    else
      var n := |calls| - 1;
      GridIndex(boot, interval, calls[..n]) + Jump(DeadlineAfter(boot, interval, calls[..n]), interval, calls[n])
  }

  /** Deadlines stay on the boot grid, move on at every call, and are ahead of it. */
  lemma {:induction false} DeadlinesStayOnGrid(boot: real, interval: real, calls: seq<real>)
    requires interval > 0.0
    ensures DeadlineAfter(boot, interval, calls) == boot + Span(interval, GridIndex(boot, interval, calls))
    ensures GridIndex(boot, interval, calls) >= 1 + |calls|
    ensures calls != [] ==>
              && DeadlineAfter(boot, interval, calls) > calls[|calls| - 1]
              && DeadlineAfter(boot, interval, calls)
                 >= DeadlineAfter(boot, interval, calls[..|calls| - 1]) + interval
  {
    hide Span, Jump;
    SpanAdd(interval, 0, 1);
    if calls != [] {
      var n := |calls| - 1;
      DeadlinesStayOnGrid(boot, interval, calls[..n]);
      AdvanceIsLeast(DeadlineAfter(boot, interval, calls[..n]), interval, calls[n], 1);
      var i := GridIndex(boot, interval, calls[..n]);
      var j := Jump(DeadlineAfter(boot, interval, calls[..n]), interval, calls[n]);
      SpanAdd(interval, i, j);
      SpanAdd(interval, j, 1);
    }
  }

  /** Calls before the deadline since the last call that was due. */
  function EarlyCalls(boot: real, interval: real, calls: seq<real>): nat
    requires interval > 0.0
  {
    if calls == [] then 0
    else
      var n := |calls| - 1;
      if calls[n] >= DeadlineAfter(boot, interval, calls[..n]) then 0 else EarlyCalls(boot, interval, calls[..n]) + 1
  }

  ghost predicate Forward(boot: real, calls: seq<real>) {
    forall i | 0 <= i < |calls| :: boot <= calls[i] && (i > 0 ==> calls[i - 1] <= calls[i])
  }

  /** How far ahead the deadline can run: one interval, and one more for each early wake. */
  lemma {:induction false} LeadIsBoundedByEarlyCalls(boot: real, interval: real, calls: seq<real>)
    requires interval > 0.0 && Forward(boot, calls)
    ensures DeadlineAfter(boot, interval, calls)
            <= (if calls == [] then boot else calls[|calls| - 1])
               + Span(interval, 1 + EarlyCalls(boot, interval, calls))
  {
    hide Span, Jump, Advanced;
    SpanAdd(interval, 0, 1);
    if calls != [] {
      var n := |calls| - 1;
      LeadIsBoundedByEarlyCalls(boot, interval, calls[..n]);
      var deadline := DeadlineAfter(boot, interval, calls[..n]);
      WithinOneIntervalExactlyWhenDue(deadline, interval, calls[n]);
      if calls[n] < deadline {
        EarlyMovesOne(deadline, interval, calls[n]);
        var e := EarlyCalls(boot, interval, calls[..n]);
        SpanAdd(interval, 1 + e, 1);
      }
    }
  }

  lemma EarlyMovesOne(deadline: real, interval: real, now: real)
    requires interval > 0.0 && now < deadline
    ensures Advanced(deadline, interval, now) == deadline + interval
  {
    Quotient(now - deadline, interval, 0);
  }

  function Repeated(now: real, n: nat): (calls: seq<real>)
    ensures |calls| == n
  {
    seq(n, _ => now)
  }

  /** And it does: after `n` wakes at one moment before the deadline it is `n` intervals further. */
  lemma {:induction false} EarlyWakesAccumulate(boot: real, interval: real, now: real, n: nat)
    requires interval > 0.0 && boot <= now < boot + interval
    ensures DeadlineAfter(boot, interval, Repeated(now, n)) == boot + Span(interval, n + 1)
    ensures EarlyCalls(boot, interval, Repeated(now, n)) == n
  {
    hide Span, Jump, Advanced;
    SpanAdd(interval, 0, 1);
    if n > 0 {
      EarlyWakesAccumulate(boot, interval, now, n - 1);
      assert Repeated(now, n)[..n - 1] == Repeated(now, n - 1);
      SpanAdd(interval, n, 1);
      EarlyMovesOne(boot + Span(interval, n), interval, now);
    }
  }
}
