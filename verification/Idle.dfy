/** The connection idle watchdog (src/idle.rs). Times are milliseconds since the connection
    was accepted; sleeps are exact. */
module IdleWatchdog {
  import opened Common

  /** What happens on a connection: useful I/O, a request starting, a request ending. */
  datatype Event = Touch(t: nat) | Begin(t: nat) | End(t: nat)

  predicate Ordered(ev: seq<Event>) { forall i, j :: 0 <= i <= j < |ev| ==> ev[i].t <= ev[j].t }

  /** The cell `last_ms` as seen at time `t`. */
  function LastAt(ev: seq<Event>, t: nat): (last: nat)
    ensures last <= t
  {
    if ev == [] then 0
    else if ev[|ev| - 1].Touch? && ev[|ev| - 1].t <= t then ev[|ev| - 1].t
    else LastAt(ev[..|ev| - 1], t)
  }

  /** The cell `in_flight` as seen at time `t`. */
  function InFlightAt(ev: seq<Event>, t: nat): int {
    if ev == [] then 0
    else
      var e := ev[|ev| - 1];
      InFlightAt(ev[..|ev| - 1], t) + if e.t > t || e.Touch? then 0 else if e.Begin? then 1 else -1
  }

  class Activity {
    var lastMs: nat
    var inFlight: int

    constructor ()
      ensures lastMs == 0 && inFlight == 0
    {
      lastMs, inFlight := 0, 0;
    }

    method Record(e: Event)
      modifies this
      ensures lastMs == (if e.Touch? then e.t else old(lastMs))
      ensures inFlight == old(inFlight) + (if e.Touch? then 0 else if e.Begin? then 1 else -1)
    {
      match e
      case Touch(t) => lastMs := t;
      case Begin(_) => inFlight := inFlight + 1;
      case End(_) => inFlight := inFlight - 1;
    }
  }

  lemma {:induction false} LaterEventsUnseen(ev: seq<Event>, n: nat, t: nat)
    requires n <= |ev| && Ordered(ev) && (n < |ev| ==> ev[n].t > t)
    ensures LastAt(ev, t) == LastAt(ev[..n], t) && InFlightAt(ev, t) == InFlightAt(ev[..n], t)
    decreases |ev| - n
  {
    if n < |ev| {
      var k := |ev| - 1;
      assert ev[n].t <= ev[k].t;
      if n < k {
        LaterEventsUnseen(ev[..k], n, t);
        assert ev[..k][..n] == ev[..n];
      }
    } else {
      assert ev[..n] == ev;
    }
  }

  /** The cells, fed with the events in order, hold what the history says at every moment. */
  method CellsAt(ev: seq<Event>, t: nat) returns (a: Activity)
    requires Ordered(ev)
    ensures fresh(a) && a.lastMs == LastAt(ev, t) && a.inFlight == InFlightAt(ev, t)
  {
    a := new Activity();
    var n := 0;
    while n < |ev| && ev[n].t <= t
      invariant n <= |ev| && fresh(a)
      invariant a.lastMs == LastAt(ev[..n], t) && a.inFlight == InFlightAt(ev[..n], t)
    {
      assert ev[..n + 1][..n] == ev[..n];
      a.Record(ev[n]);
      n := n + 1;
    }
    LaterEventsUnseen(ev, n, t);
  }

  function PollStep(idle: nat): nat {
    var tenth := idle / 10;
    if tenth < 50 then 50 else if tenth > 5000 then 5000 else tenth
  }

  /** A busy connection is polled every tenth of the window, but at least every five seconds
      and at most every 50 milliseconds. */
  lemma {:induction false} PollStepIs(idle: nat)
    ensures 50 <= PollStep(idle) <= 5000
    ensures 500 <= idle <= 50000 ==> PollStep(idle) * 10 <= idle < PollStep(idle) * 10 + 10
    ensures idle < 500 ==> PollStep(idle) == 50
    ensures idle > 50000 ==> PollStep(idle) == 5000
  {}

  lemma {:induction false} LastBounded(ev: seq<Event>, t: nat, bound: nat)
    requires forall i :: 0 <= i < |ev| && ev[i].Touch? ==> ev[i].t <= bound
    ensures LastAt(ev, t) <= bound
  {
    if ev != [] { LastBounded(ev[..|ev| - 1], t, bound); }
  }

  function Max(a: nat, b: nat): nat { if a < b then b else a }

  /** One check of the loop: `None` returns, `Some(t)` sleeps until `t`. */
  function Check(ev: seq<Event>, idle: nat, now: nat): Option<nat> {
    if InFlightAt(ev, now) > 0 then Some(now + PollStep(idle))
    else if now - LastAt(ev, now) >= idle then None
    else Some(LastAt(ev, now) + idle)
  }

  /** The times at which the loop checks, from the first on. */
  ghost predicate Checks(ev: seq<Event>, idle: nat, times: seq<nat>) {
    times != [] && forall i :: 0 <= i < |times| - 1 ==> Check(ev, idle, times[i]) == Some(times[i + 1])
  }

  /** The connection is idle at `t`: nothing in flight, and no useful I/O, nor the accept,
      within the window before. */
  ghost predicate Quiet(ev: seq<Event>, idle: nat, t: nat) {
    && InFlightAt(ev, t) <= 0 && idle <= t
    && forall i :: 0 <= i < |ev| && ev[i].Touch? && ev[i].t <= t ==> ev[i].t + idle <= t
  }

  /** `watch_idle`, started at `start` on a connection whose requests are over by `quietFrom`
      and whose last useful I/O is at `lastTouch`. It returns at the first of its checks that
      finds the connection idle, and by the end of the window after the last I/O or one poll
      step after the last request, whichever is later. */
  method WatchIdle(ev: seq<Event>, idle: nat, start: nat, ghost lastTouch: nat, ghost quietFrom: nat)
      returns (closed: nat, times: seq<nat>)
    requires Ordered(ev)
    requires forall i :: 0 <= i < |ev| && ev[i].Touch? ==> ev[i].t <= lastTouch
    requires forall t: nat :: t >= quietFrom ==> InFlightAt(ev, t) <= 0
    ensures Checks(ev, idle, times) && times[0] == start && times[|times| - 1] == closed
    ensures Quiet(ev, idle, closed) && forall i :: 0 <= i < |times| - 1 ==> !Quiet(ev, idle, times[i])
    ensures start <= closed
    ensures closed == start || closed <= lastTouch + idle || closed <= quietFrom + PollStep(idle)
  {
    var now := start;
    times := [now];
    ghost var bound := Max(start, Max(lastTouch + idle, quietFrom + PollStep(idle)));
    while true
      invariant start <= now <= bound
      invariant Checks(ev, idle, times) && times[0] == start && times[|times| - 1] == now
      decreases bound - now
    {
      if InFlightAt(ev, now) > 0 {
        now := now + PollStep(idle);
        times := times + [now];
        continue;
      }
      LastBounded(ev, now, lastTouch);
      var quiet := now - LastAt(ev, now);
      if quiet >= idle {
        ReturnsWhenQuiet(ev, idle, times);
        return now, times;
      }
      now := now + (idle - quiet);
      times := times + [now];
    }
  }

  lemma {:induction false} LastIsLatest(ev: seq<Event>, t: nat, i: nat)
    requires Ordered(ev) && i < |ev| && ev[i].Touch? && ev[i].t <= t
    ensures ev[i].t <= LastAt(ev, t)
  {
    if i < |ev| - 1 && !(ev[|ev| - 1].Touch? && ev[|ev| - 1].t <= t) {
      LastIsLatest(ev[..|ev| - 1], t, i);
    }
  }

  lemma {:induction false} LastHappened(ev: seq<Event>, t: nat)
    ensures LastAt(ev, t) == 0 || exists i :: 0 <= i < |ev| && ev[i].Touch? && ev[i].t == LastAt(ev, t)
  {
    if ev != [] {
      var n := |ev| - 1;
      if ev[n].Touch? && ev[n].t <= t {
        assert ev[n].t == LastAt(ev, t);
      } else {
        LastHappened(ev[..n], t);
        if LastAt(ev, t) != 0 {
          var i :| 0 <= i < n && ev[..n][i].Touch? && ev[..n][i].t == LastAt(ev, t);
          assert ev[i].t == LastAt(ev, t);
        }
      }
    }
  }

  /** A check returns exactly when the connection is idle. */
  lemma {:induction false} CheckIff(ev: seq<Event>, idle: nat, now: nat)
    requires Ordered(ev)
    ensures Check(ev, idle, now).None? <==> Quiet(ev, idle, now)
  {
    forall i | 0 <= i < |ev| && ev[i].Touch? && ev[i].t <= now ensures ev[i].t <= LastAt(ev, now) {
      LastIsLatest(ev, now, i);
    }
    LastHappened(ev, now);
  }

  /** On any history at all, even one that never falls quiet, the loop passes over every check
      that finds the connection active and returns at the first that finds it idle. */
  lemma {:induction false} ReturnsWhenQuiet(ev: seq<Event>, idle: nat, times: seq<nat>)
    requires Ordered(ev) && Checks(ev, idle, times)
    ensures forall i :: 0 <= i < |times| - 1 ==> !Quiet(ev, idle, times[i])
    ensures Check(ev, idle, times[|times| - 1]).None? <==> Quiet(ev, idle, times[|times| - 1])
  {
    forall i | 0 <= i < |times| - 1 ensures !Quiet(ev, idle, times[i]) {
      assert Check(ev, idle, times[i]) == Some(times[i + 1]);
      CheckIff(ev, idle, times[i]);
    }
    CheckIff(ev, idle, times[|times| - 1]);
  }

  /** Each sleep moves the clock on, so a busy connection is polled, not spun on. */
  lemma {:induction false} ChecksAdvance(ev: seq<Event>, idle: nat, times: seq<nat>, i: nat)
    requires Checks(ev, idle, times) && i < |times| - 1
    ensures times[i] < times[i + 1]
    ensures times[i + 1] <= times[i] + idle || times[i + 1] == times[i] + PollStep(idle)
  {
    var now := times[i];
    assert Check(ev, idle, now) == Some(times[i + 1]);
  }
}
