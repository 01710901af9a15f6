/** The concurrent request limiter (src/overload.rs): permit pool, bounded wait counter and
    saturation clock. Times are milliseconds since the limiter was built. */
module LimiterCells {
  import opened Common

  /** `since`: start of the overload streak, 0 when there is none. */
  datatype Cells = Cells(free: nat, queued: nat, since: nat)

  function Mark(c: Cells, now: nat): Cells {
    if c.since == 0 then c.(since := if now < 1 then 1 else now) else c
  }

  function Clear(c: Cells): Cells { c.(since := 0) }

  predicate ShouldShed(since: nat, shedAfter: Option<nat>, now: nat) {
    shedAfter.Some? && since != 0 && (if now < since then 0 else now - since) >= shedAfter.value
  }

  datatype Slot = Acquired | Rejected(retryAfter: nat)

  /** How the await on the semaphore ends. */
  datatype Waited = GotPermit | TimedOut

  class Limiter {
    const maxQueue: nat
    const retryAfter: nat
    const shedAfter: Option<nat>
    var free: nat
    var queued: nat
    var since: nat

    ghost function View(): Cells reads this { Cells(free, queued, since) }

    constructor (maxConcurrent: nat, maxQueue: nat, retryAfter: nat, shedAfter: Option<nat>)
      ensures View() == Cells(maxConcurrent, 0, 0)
      ensures this.maxQueue == maxQueue && this.retryAfter == retryAfter && this.shedAfter == shedAfter
    {
      this.maxQueue, this.retryAfter, this.shedAfter := maxQueue, retryAfter, shedAfter;
      free, queued, since := maxConcurrent, 0, 0;
    }

    method MarkSaturated(now: nat)
      modifies this
      ensures View() == Mark(old(View()), now)
    {
      if since == 0 { since := if now < 1 then 1 else now; }
    }

    method ClearSaturation()
      modifies this
      ensures View() == Clear(old(View()))
    {
      since := 0;
    }

    method Shed(now: nat) returns (b: bool)
      ensures b == ShouldShed(since, shedAfter, now)
    {
      if shedAfter.None? { return false; }
      if since == 0 { return false; }
      var lasted := if now < since then 0 else now - since;
      return lasted >= shedAfter.value;
    }

    /** `acquire`. `waited` is how the await ends, `meanwhile` the cells as all other requests
        leave them by then: this one is still counted, and only a free permit is granted. */
    method Acquire(now: nat, waited: Waited, meanwhile: Cells) returns (slot: Slot)
      requires meanwhile.queued > 0 && (waited == GotPermit ==> meanwhile.free > 0)
      modifies this
      ensures old(free) > 0 ==> slot == Acquired && View() == Clear(old(View())).(free := old(free) - 1)
      ensures old(free) == 0 && old(queued) >= maxQueue ==>
                slot == Rejected(retryAfter) && View() == Mark(old(View()), now)
      ensures old(free) == 0 && old(queued) < maxQueue && waited == GotPermit ==>
                slot == Acquired && View() == meanwhile.(free := meanwhile.free - 1, queued := meanwhile.queued - 1)
      ensures old(free) == 0 && old(queued) < maxQueue && waited == TimedOut ==>
                slot == Rejected(retryAfter) && View() == meanwhile.(queued := meanwhile.queued - 1)
    {
      if free > 0 {
        free := free - 1;
        ClearSaturation();
        return Acquired;
      }
      MarkSaturated(now);
      if maxQueue == 0 { return Rejected(retryAfter); }
      var depth := queued;
      queued := queued + 1;
      if depth >= maxQueue {
        queued := queued - 1;
        return Rejected(retryAfter);
      }
      free, queued, since := meanwhile.free, meanwhile.queued, meanwhile.since; // the await
      if waited == GotPermit { free := free - 1; }
      queued := queued - 1;
      return if waited == GotPermit then Acquired else Rejected(retryAfter);
    }
  }
}

/** The limiter under every interleaving of any number of requests, futures dropped at the
    await included. */
module LimiterProtocol {
  import opened Common
  import L = LimiterCells

  /** One request inside `acquire` (and holding or having given back its permit). */
  datatype Phase =
    | Arrived
    | FastGot               // permit taken on the fast path, streak not cleared yet
    | FastFailed            // no permit, streak not marked yet
    | Saturated             // about to join the queue
    | RollingBack           // counted in, found the queue full
    | Waiting               // at the await
    | Woken(permit: bool)   // await over, still counted
    | Holding
    | Turned                // rejected
    | Released
    | Abandoned             // the future was dropped at the await

  datatype Event = Marked(t: nat) | Cleared(t: nat)

  datatype Config = Config(maxConcurrent: nat, maxQueue: nat, shedAfter: Option<nat>)

  datatype State = State(cells: L.Cells, phases: seq<Phase>, now: nat, log: seq<Event>)

  datatype Action =
    | Arrive | TryAcquire(i: nat) | Clear(i: nat) | Mark(i: nat) | Join(i: nat) | RollBack(i: nat)
    | Grant(i: nat) | TimeOut(i: nat) | Leave(i: nat) | Abandon(i: nat) | Release(i: nat) | Tick

  predicate Init(cfg: Config, s: State) {
    s == State(L.Cells(cfg.maxConcurrent, 0, 0), [], 0, [])
  }

  predicate At(s: State, i: nat, p: Phase) { i < |s.phases| && s.phases[i] == p }

  predicate Enabled(s: State, a: Action) {
    match a
    case Arrive => true
    case TryAcquire(i) => At(s, i, Arrived)
    case Clear(i) => At(s, i, FastGot)
    case Mark(i) => At(s, i, FastFailed)
    case Join(i) => At(s, i, Saturated)
    case RollBack(i) => At(s, i, RollingBack) && s.cells.queued > 0
    case Grant(i) => At(s, i, Waiting) && s.cells.free > 0
    case TimeOut(i) => At(s, i, Waiting)
    case Leave(i) => i < |s.phases| && s.phases[i].Woken? && s.cells.queued > 0
    case Abandon(i) => At(s, i, Waiting)
    case Release(i) => At(s, i, Holding)
    case Tick => true
  }

  function Move(s: State, i: nat, p: Phase): State
    requires i < |s.phases|
  {
    s.(phases := s.phases[i := p])
  }

  function Apply(cfg: Config, s: State, a: Action): State
    requires Enabled(s, a)
  {
    match a
    case Arrive => s.(phases := s.phases + [Arrived])
    case TryAcquire(i) =>
      if s.cells.free > 0 then Move(s, i, FastGot).(cells := s.cells.(free := s.cells.free - 1))
      else Move(s, i, FastFailed)
    case Clear(i) => Move(s, i, Holding).(cells := L.Clear(s.cells), log := s.log + [Cleared(s.now)])
    case Mark(i) =>
      Move(s, i, if cfg.maxQueue == 0 then Turned else Saturated)
        .(cells := L.Mark(s.cells, s.now), log := s.log + [Marked(s.now)])
    case Join(i) =>
      Move(s, i, if s.cells.queued >= cfg.maxQueue then RollingBack else Waiting)
        .(cells := s.cells.(queued := s.cells.queued + 1))
    case RollBack(i) => Move(s, i, Turned).(cells := s.cells.(queued := s.cells.queued - 1))
    case Grant(i) => Move(s, i, Woken(true)).(cells := s.cells.(free := s.cells.free - 1))
    case TimeOut(i) => Move(s, i, Woken(false))
    case Leave(i) =>
      Move(s, i, if s.phases[i].permit then Holding else Turned).(cells := s.cells.(queued := s.cells.queued - 1))
    case Abandon(i) => Move(s, i, Abandoned)
    case Release(i) => Move(s, i, Released).(cells := s.cells.(free := s.cells.free + 1))
    case Tick => s.(now := s.now + 1)
  }

  ghost predicate Run(cfg: Config, tr: seq<State>, acts: seq<Action>) {
    && |tr| == |acts| + 1
    && forall i {:trigger acts[i]} :: 0 <= i < |acts| ==>
      Enabled(tr[i], acts[i]) && tr[i + 1] == Apply(cfg, tr[i], acts[i])
  }

  /** The environment is free: requests arrive at any time, time passes, and a wait may time
      out or be dropped whenever it lasts. */
  lemma {:induction false} EnvironmentIsFree(s: State, i: nat)
    ensures Enabled(s, Arrive) && Enabled(s, Tick)
    ensures At(s, i, Waiting) ==> Enabled(s, TimeOut(i)) && Enabled(s, Abandon(i))
    ensures At(s, i, Holding) ==> Enabled(s, Release(i))
  {}

  // ---- counting phases ----

  function Holds(p: Phase): nat { if p == FastGot || p == Holding || p == Woken(true) then 1 else 0 }
  function Waits(p: Phase): nat { if p == Waiting then 1 else 0 }
  function Leaving(p: Phase): nat { if p.Woken? then 1 else 0 }
  function Undoing(p: Phase): nat { if p == RollingBack then 1 else 0 }
  function Leaked(p: Phase): nat { if p == Abandoned then 1 else 0 }

  /** What the counter should count, and what the bound on the queue is about. */
  function Counted(p: Phase): nat { Waits(p) + Leaving(p) + Undoing(p) + Leaked(p) }
  function Admitted(p: Phase): nat { Waits(p) + Leaving(p) + Leaked(p) }

  function Tally(ps: seq<Phase>, f: Phase -> nat): nat {
    if ps == [] then 0 else Tally(ps[..|ps| - 1], f) + f(ps[|ps| - 1])
  }

  lemma {:induction false} TallyUpdate(ps: seq<Phase>, i: nat, p: Phase, f: Phase -> nat)
    requires i < |ps|
    ensures Tally(ps[i := p], f) == Tally(ps, f) - f(ps[i]) + f(p)
  {
    var n := |ps| - 1;
    if i == n {
      assert ps[i := p][..n] == ps[..n];
    } else {
      assert ps[i := p][..n] == ps[..n][i := p];
      TallyUpdate(ps[..n], i, p, f);
    }
  }

  lemma {:induction false} TallyMember(ps: seq<Phase>, i: nat, f: Phase -> nat)
    requires i < |ps|
    ensures f(ps[i]) <= Tally(ps, f)
  {
    if i < |ps| - 1 { TallyMember(ps[..|ps| - 1], i, f); }
  }

  lemma {:induction false} TallyPush(ps: seq<Phase>, f: Phase -> nat)
    ensures Tally(ps + [Arrived], f) == Tally(ps, f) + f(Arrived)
  {
    assert (ps + [Arrived])[..|ps|] == ps;
  }

  ghost predicate Inv(cfg: Config, s: State) {
    && s.cells.free + Tally(s.phases, Holds) == cfg.maxConcurrent
    && s.cells.queued == Tally(s.phases, Waits) + Tally(s.phases, Leaving)
      + Tally(s.phases, Undoing) + Tally(s.phases, Leaked)
    && Tally(s.phases, Waits) + Tally(s.phases, Leaving) + Tally(s.phases, Leaked) <= cfg.maxQueue
  }

  lemma {:induction false} MovedTallies(ps: seq<Phase>, i: nat, p: Phase)
    requires i < |ps|
    ensures var qs := ps[i := p];
            && Tally(qs, Holds) == Tally(ps, Holds) - Holds(ps[i]) + Holds(p)
            && Tally(qs, Waits) == Tally(ps, Waits) - Waits(ps[i]) + Waits(p)
            && Tally(qs, Leaving) == Tally(ps, Leaving) - Leaving(ps[i]) + Leaving(p)
            && Tally(qs, Undoing) == Tally(ps, Undoing) - Undoing(ps[i]) + Undoing(p)
            && Tally(qs, Leaked) == Tally(ps, Leaked) - Leaked(ps[i]) + Leaked(p)
  {
    TallyUpdate(ps, i, p, Holds);
    TallyUpdate(ps, i, p, Waits);
    TallyUpdate(ps, i, p, Leaving);
    TallyUpdate(ps, i, p, Undoing);
    TallyUpdate(ps, i, p, Leaked);
  }

  lemma {:induction false} ArrivalKeeps(cfg: Config, s: State)
    requires Inv(cfg, s)
    ensures Inv(cfg, Apply(cfg, s, Arrive))
  {
    var ps := s.phases;
    TallyPush(ps, Holds); TallyPush(ps, Waits); TallyPush(ps, Leaving); TallyPush(ps, Undoing); TallyPush(ps, Leaked);
  }

  /** One request moves from phase to phase and the cells follow. */
  lemma {:induction false} MoveKeeps(cfg: Config, s: State, s': State, i: nat, p: Phase)
    requires Inv(cfg, s) && i < |s.phases| && s'.phases == s.phases[i := p]
    requires s'.cells.free + Holds(p) == s.cells.free + Holds(s.phases[i])
    requires s'.cells.queued == s.cells.queued + Counted(p) - Counted(s.phases[i])
    requires Admitted(p) > Admitted(s.phases[i]) ==> s.cells.queued < cfg.maxQueue
    ensures Inv(cfg, s')
  {
    MovedTallies(s.phases, i, p);
  }

  lemma {:induction false} InvKept(cfg: Config, s: State, a: Action)
    requires Inv(cfg, s) && Enabled(s, a)
    ensures Inv(cfg, Apply(cfg, s, a))
  {
    if a == Arrive {
      ArrivalKeeps(cfg, s);
    } else if a != Tick {
      MoveKeeps(cfg, s, Apply(cfg, s, a), a.i, Apply(cfg, s, a).phases[a.i]);
    }
  }

  lemma {:induction false} InvAlong(cfg: Config, tr: seq<State>, acts: seq<Action>, i: nat)
    requires Run(cfg, tr, acts) && Init(cfg, tr[0]) && i < |tr|
    ensures Inv(cfg, tr[i])
  {
    if i > 0 {
      InvAlong(cfg, tr, acts, i - 1);
      InvKept(cfg, tr[i - 1], acts[i - 1]);
    }
  }

  // ---- safety over whole runs ----

  /** Permits are conserved, the wait queue is bounded, and the counter is the number of
      requests waiting, leaving or rolling back plus the waits whose future was dropped:
      nothing decrements for those, so each one lowers the usable queue for good. */
  lemma {:induction false} LimiterBounds(cfg: Config, tr: seq<State>, acts: seq<Action>, i: nat)
    requires Run(cfg, tr, acts) && Init(cfg, tr[0]) && i < |tr|
    ensures var s := tr[i];
      && s.cells.free + Tally(s.phases, Holds) == cfg.maxConcurrent
      && Tally(s.phases, Waits) + Tally(s.phases, Leaving) <= cfg.maxQueue - Tally(s.phases, Leaked)
      && s.cells.queued == Tally(s.phases, Waits) + Tally(s.phases, Leaving)
        + Tally(s.phases, Undoing) + Tally(s.phases, Leaked)
  {
    InvAlong(cfg, tr, acts, i);
  }

  /** The counter is the true queue depth exactly when no wait was ever dropped. */
  lemma {:induction false} DepthExactIff(cfg: Config, tr: seq<State>, acts: seq<Action>, i: nat)
    requires Run(cfg, tr, acts) && Init(cfg, tr[0]) && i < |tr|
    ensures var s := tr[i];
      s.cells.queued == Tally(s.phases, Waits) + Tally(s.phases, Leaving) + Tally(s.phases, Undoing)
      <==> (forall k :: 0 <= k < |s.phases| ==> s.phases[k] != Abandoned)
  {
    InvAlong(cfg, tr, acts, i);
    NoLeakIff(tr[i].phases);
  }

  lemma {:induction false} NoLeakIff(ps: seq<Phase>)
    ensures Tally(ps, Leaked) == 0 <==> forall k :: 0 <= k < |ps| ==> ps[k] != Abandoned
  {
    if ps != [] {
      var n := |ps| - 1;
      NoLeakIff(ps[..n]);
      assert forall k :: 0 <= k < n ==> ps[k] == ps[..n][k];
    }
  }

  /** The decrements of `queued` never meet zero. */
  lemma {:induction false} NoUnderflow(cfg: Config, tr: seq<State>, acts: seq<Action>, n: nat, i: nat)
    requires Run(cfg, tr, acts) && Init(cfg, tr[0]) && n < |tr| && i < |tr[n].phases|
    requires tr[n].phases[i] == RollingBack || tr[n].phases[i].Woken?
    ensures tr[n].cells.queued > 0
  {
    InvAlong(cfg, tr, acts, n);
    TallyMember(tr[n].phases, i, Undoing);
    TallyMember(tr[n].phases, i, Leaving);
  }

  lemma {:induction false} LeakStep(cfg: Config, s: State, a: Action)
    requires Enabled(s, a)
    ensures Tally(s.phases, Leaked) <= Tally(Apply(cfg, s, a).phases, Leaked)
  {
    if a == Arrive {
      TallyPush(s.phases, Leaked);
    } else if a != Tick {
      TallyUpdate(s.phases, a.i, Apply(cfg, s, a).phases[a.i], Leaked);
    }
  }

  lemma {:induction false} LeaksStay(cfg: Config, tr: seq<State>, acts: seq<Action>, i: nat, j: nat)
    requires Run(cfg, tr, acts) && i <= j < |tr|
    ensures Tally(tr[i].phases, Leaked) <= Tally(tr[j].phases, Leaked)
  {
    if i < j {
      LeaksStay(cfg, tr, acts, i, j - 1);
      LeakStep(cfg, tr[j - 1], acts[j - 1]);
    }
  }

  /** After `maxQueue` dropped waits the queue is closed for good: nobody ever waits again. */
  lemma {:induction false} QueueDies(cfg: Config, tr: seq<State>, acts: seq<Action>, i: nat, j: nat, k: nat)
    requires Run(cfg, tr, acts) && Init(cfg, tr[0]) && i <= j < |tr|
    requires Tally(tr[i].phases, Leaked) >= cfg.maxQueue && k < |tr[j].phases|
    ensures tr[j].phases[k] != Waiting
    ensures Enabled(tr[j], Join(k)) ==> Apply(cfg, tr[j], Join(k)).phases[k] == RollingBack
  {
    LeaksStay(cfg, tr, acts, i, j);
    InvAlong(cfg, tr, acts, j);
    TallyMember(tr[j].phases, k, Waits);
  }

  /** And that state is reached: with one permit and one queue place, a single dropped wait
      leaves the counter at 1 with nobody waiting and every permit free. */
  lemma {:induction false} DroppedWaitLeaks() returns (tr: seq<State>, acts: seq<Action>)
    ensures var cfg := Config(1, 1, None); Run(cfg, tr, acts) && Init(cfg, tr[0])
    ensures var s := tr[|acts|]; s.cells.free == 1 && s.cells.queued == 1 && s.phases == [Released, Abandoned]
  {
    var cfg := Config(1, 1, None);
    acts := [Arrive, Arrive, TryAcquire(0), Clear(0), TryAcquire(1), Mark(1), Join(1), Abandon(1), Release(0)];
    var log := [Cleared(0), Marked(0)];
    tr := [State(L.Cells(1, 0, 0), [], 0, []),
           State(L.Cells(1, 0, 0), [Arrived], 0, []),
           State(L.Cells(1, 0, 0), [Arrived, Arrived], 0, []),
           State(L.Cells(0, 0, 0), [FastGot, Arrived], 0, []),
           State(L.Cells(0, 0, 0), [Holding, Arrived], 0, [Cleared(0)]),
           State(L.Cells(0, 0, 0), [Holding, FastFailed], 0, [Cleared(0)]),
           State(L.Cells(0, 0, 1), [Holding, Saturated], 0, log),
           State(L.Cells(0, 1, 1), [Holding, Waiting], 0, log),
           State(L.Cells(0, 1, 1), [Holding, Abandoned], 0, log),
           State(L.Cells(1, 1, 1), [Released, Abandoned], 0, log)];
    forall i | 0 <= i < |acts| ensures Enabled(tr[i], acts[i]) && tr[i + 1] == Apply(cfg, tr[i], acts[i]) {
      assert Enabled(tr[i], acts[i]);
    }
  }

  // ---- one request through the steps ----

  /** The fast path: with a free permit two steps take it and end the streak. */
  lemma {:induction false} FastPath(cfg: Config, s: State, i: nat)
    requires At(s, i, Arrived) && s.cells.free > 0
    ensures var s1 := Apply(cfg, s, TryAcquire(i));
      Enabled(s1, Clear(i)) &&
      var s2 := Apply(cfg, s1, Clear(i));
      At(s2, i, Holding) && s2.cells == L.Clear(s.cells).(free := s.cells.free - 1)
  {}

  /** Without one the streak is marked, and the request waits exactly if there is a place: it is
      turned away at once without a queue, and rolls its count back if the queue is full. */
  lemma {:induction false} SlowPath(cfg: Config, s: State, i: nat) returns (s1: State, s2: State)
    requires At(s, i, Arrived) && s.cells.free == 0
    ensures s1 == Apply(cfg, s, TryAcquire(i)) && Enabled(s1, Mark(i)) && s2 == Apply(cfg, s1, Mark(i))
    ensures s2.cells == L.Mark(s.cells, s.now) && At(s2, i, if cfg.maxQueue == 0 then Turned else Saturated)
    ensures cfg.maxQueue > 0 && s.cells.queued < cfg.maxQueue ==>
      var s3 := Apply(cfg, s2, Join(i));
      At(s3, i, Waiting) && s3.cells == s2.cells.(queued := s.cells.queued + 1)
    ensures cfg.maxQueue > 0 && s.cells.queued >= cfg.maxQueue ==>
      var s3 := Apply(cfg, s2, Join(i));
      Enabled(s3, RollBack(i)) && At(Apply(cfg, s3, RollBack(i)), i, Turned)
      && Apply(cfg, s3, RollBack(i)).cells == s2.cells
  {
    s1 := Apply(cfg, s, TryAcquire(i));
    s2 := Apply(cfg, s1, Mark(i));
  }

  /** The end of a wait, whatever the others did meanwhile: with a permit the request holds it,
      after a timeout it is turned away, and either way its count is taken back. */
  lemma {:induction false} EndOfWait(cfg: Config, s: State, i: nat)
    requires At(s, i, Waiting) && s.cells.queued > 0
    ensures s.cells.free > 0 ==>
      var s2 := Apply(cfg, Apply(cfg, s, Grant(i)), Leave(i));
      At(s2, i, Holding) && s2.cells == s.cells.(free := s.cells.free - 1, queued := s.cells.queued - 1)
    ensures
      var s2 := Apply(cfg, Apply(cfg, s, TimeOut(i)), Leave(i));
      At(s2, i, Turned) && s2.cells == s.cells.(queued := s.cells.queued - 1)
  {}

  // ---- the overload streak ----

  ghost predicate Ordered(log: seq<Event>, now: nat) {
    && (forall n :: 0 <= n < |log| ==> log[n].t <= now)
    && (forall m, n :: 0 <= m <= n < |log| ==> log[m].t <= log[n].t)
  }

  /** The streak clock is what the log of marks and clears says. */
  ghost predicate ClockOf(log: seq<Event>, since: nat) {
    && (since == 0 <==> log == [] || log[|log| - 1].Cleared?)
    && (forall m :: StreakStart(log, m) ==> since == AtLeastOne(log[m].t))
  }

  ghost predicate LogInv(s: State) { Ordered(s.log, s.now) && ClockOf(s.log, s.cells.since) }

  function Elapsed(since: nat, now: nat): nat { if now < since then 0 else now - since }

  function AtLeastOne(t: nat): nat { if t < 1 then 1 else t }

  /** Event `m` is the first mark after the last clear. */
  ghost predicate StreakStart(log: seq<Event>, m: int) {
    && 0 <= m < |log| && (m == 0 || log[m - 1].Cleared?)
    && forall n :: m <= n < |log| ==> log[n].Marked?
  }

  lemma {:induction false} MarkClock(log: seq<Event>, c: L.Cells, t: nat)
    requires ClockOf(log, c.since)
    ensures ClockOf(log + [Marked(t)], L.Mark(c, t).since)
  {
    var log' := log + [Marked(t)];
    forall m | StreakStart(log', m) ensures L.Mark(c, t).since == AtLeastOne(log'[m].t) {
      if m < |log| {
        forall k | m <= k < |log| ensures log[k].Marked? { assert log'[k].Marked?; }
        assert StreakStart(log, m);
      }
    }
  }

  lemma {:induction false} ClearClock(log: seq<Event>, t: nat)
    ensures ClockOf(log + [Cleared(t)], 0)
  {
    var log' := log + [Cleared(t)];
    assert log'[|log|].Cleared?;
  }

  lemma {:induction false} LogKept(cfg: Config, s: State, a: Action)
    requires LogInv(s) && Enabled(s, a)
    ensures LogInv(Apply(cfg, s, a))
  {
    if a.Mark? {
      MarkClock(s.log, s.cells, s.now);
    } else if a.Clear? {
      ClearClock(s.log, s.now);
    }
  }

  lemma {:induction false} LogAlong(cfg: Config, tr: seq<State>, acts: seq<Action>, i: nat)
    requires Run(cfg, tr, acts) && Init(cfg, tr[0]) && i < |tr|
    ensures LogInv(tr[i])
  {
    if i > 0 {
      LogAlong(cfg, tr, acts, i - 1);
      LogKept(cfg, tr[i - 1], acts[i - 1]);
    }
  }

  /** A log whose last event is a mark has a streak start. */
  lemma {:induction false} FindStreak(log: seq<Event>) returns (m: nat)
    requires log != [] && log[|log| - 1].Marked?
    ensures StreakStart(log, m)
  {
    m := |log| - 1;
    while m > 0 && log[m - 1].Marked?
      invariant m < |log| && forall n :: m <= n < |log| ==> log[n].Marked?
    {
      m := m - 1;
    }
  }

  ghost predicate LongStreak(log: seq<Event>, m: int, threshold: nat, now: nat) {
    StreakStart(log, m) && Elapsed(AtLeastOne(log[m].t), now) >= threshold
  }

  lemma {:induction false} ShedFromLog(log: seq<Event>, since: nat, threshold: nat, now: nat)
    requires ClockOf(log, since)
    ensures L.ShouldShed(since, Some(threshold), now) <==> exists m :: LongStreak(log, m, threshold, now)
  {
    if since != 0 {
      var m := FindStreak(log);
      assert L.ShouldShed(since, Some(threshold), now) <==> LongStreak(log, m, threshold, now);
    } else {
      forall m ensures !StreakStart(log, m) {}
    }
  }

  /** Readiness drops exactly when the first refused fast path after the last clear lies at
      least the threshold back, millisecond zero counting as one. */
  lemma {:induction false} ShedIffStreakLong(cfg: Config, tr: seq<State>, acts: seq<Action>, i: nat)
    requires Run(cfg, tr, acts) && Init(cfg, tr[0]) && i < |tr|
    ensures L.ShouldShed(tr[i].cells.since, cfg.shedAfter, tr[i].now) <==>
      cfg.shedAfter.Some? && exists m :: LongStreak(tr[i].log, m, cfg.shedAfter.value, tr[i].now)
  {
    LogAlong(cfg, tr, acts, i);
    if cfg.shedAfter.Some? { ShedFromLog(tr[i].log, tr[i].cells.since, cfg.shedAfter.value, tr[i].now); }
  }

  lemma {:induction false} ClearIsOlder(log: seq<Event>, now: nat, since: nat, n: nat)
    requires Ordered(log, now) && ClockOf(log, since) && since != 0 && n < |log| && log[n].Cleared?
    ensures log[n].t <= since
  {
    var m := FindStreak(log);
    assert !(m <= n);
    assert log[n].t <= log[m].t;
  }

  /** So shedding implies that no clear happened within the last `shedAfter` milliseconds. */
  lemma {:induction false} ShedMeansNoRecentClear(cfg: Config, tr: seq<State>, acts: seq<Action>, i: nat, n: nat)
    requires Run(cfg, tr, acts) && Init(cfg, tr[0]) && i < |tr|
    requires L.ShouldShed(tr[i].cells.since, cfg.shedAfter, tr[i].now)
    requires n < |tr[i].log| && tr[i].log[n].Cleared?
    ensures tr[i].log[n].t + cfg.shedAfter.value <= tr[i].now
  {
    LogAlong(cfg, tr, acts, i);
    ClearIsOlder(tr[i].log, tr[i].now, tr[i].cells.since, n);
  }

  function Ticks(cfg: Config, s: State, n: nat): State { if n == 0 then s else Apply(cfg, Ticks(cfg, s, n - 1), Tick) }

  lemma {:induction false} TicksPass(cfg: Config, s: State, n: nat)
    ensures Ticks(cfg, s, n) == s.(now := s.now + n)
  {
    if n > 0 { TicksPass(cfg, s, n - 1); }
  }

  /** A streak that nobody clears does lead to shedding, once the threshold has passed. */
  lemma {:induction false} StreakSheds(cfg: Config, s: State, n: nat)
    requires s.cells.since != 0 && cfg.shedAfter.Some? && s.cells.since <= s.now + n
    ensures L.ShouldShed(s.cells.since, cfg.shedAfter, Ticks(cfg, s, n).now)
       <==> s.now + n >= s.cells.since + cfg.shedAfter.value
  {
    TicksPass(cfg, s, n);
  }

  /** And shedding lasts until the next clear. */
  lemma {:induction false} ShedUntilClear(cfg: Config, tr: seq<State>, acts: seq<Action>, i: nat, j: nat)
    requires Run(cfg, tr, acts) && i <= j < |tr|
    requires L.ShouldShed(tr[i].cells.since, cfg.shedAfter, tr[i].now)
    requires forall n :: i <= n < j ==> !acts[n].Clear?
    ensures L.ShouldShed(tr[j].cells.since, cfg.shedAfter, tr[j].now) && tr[j].cells.since == tr[i].cells.since
    ensures tr[i].now <= tr[j].now
  {
    if i < j {
      ShedUntilClear(cfg, tr, acts, i, j - 1);
      var s, a := tr[j - 1], acts[j - 1];
      assert Apply(cfg, s, a).cells.since == s.cells.since && s.now <= Apply(cfg, s, a).now;
    }
  }
}
