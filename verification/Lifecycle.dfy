/** The lifecycle of one request on the JS side (js/index.ts `#dispatch`/`#handleRequest`,
    js/pipeline.ts), as steps between two suspension points. User code is adversarial: it
    may mutate the context or fetch the body at any moment, call `next` any number of
    times, settle awaited promises either way, in any order, or never. */
module Lifecycle {
  import opened Common
  import opened ResponseContext

  /** The compiled chain of the route. `before` counts the hooks of the four "before"
      stages in stage order: the short-circuit test is the same after each of them. */
  datatype Config = Config(
    found: bool, before: nat, middleware: nat, onError: nat, onTimeout: nat,
    after: nat,              // preSerialization hooks, then onSend hooks
    onResponse: nat, timeout: bool, watchDisconnect: bool, strip: Strip)

  datatype Err = HttpErr(status: nat, message: string) | OtherErr

  datatype Settled = Resolved(value: Returned) | Rejected(err: Err)

  datatype Core = CoreNew | BeforeHook(i: nat) | InHandler | InOnion | ErrorHook(i: nat, err: Err) | CoreDone

  datatype Timer = TimerOff | Armed | TimeoutHook(i: nat) | TimerResolved

  datatype Main = MainNew | Racing | AfterHook(i: nat) | Sending | LastResort | Observing(i: nat) | Finished

  /** `index` is the captured variable of `runOnion`; `entered` lists the positions entered
      so far, `refused` counts the `next` calls that threw, `handlerLive` says that a handler
      started inside the onion has not settled yet. */
  datatype Onion = Onion(index: int, entered: seq<nat>, refused: nat, handlerLive: bool)

  datatype State = State(
    main: Main, core: Core, timer: Timer, onion: Onion, ctx: Ctx,
    pending: bool,            // the native entry of this ticket is still registered
    parts: bool,              // ... and still holds its body
    bodyIo: bool,             // BodyRef has resolved
    fired: seq<NativeResponse>,  // the `respond` calls that took effect
    latched: Option<Draft>)   // the draft at the moment the context was fixed

  datatype Action =
    | Start
    | UserMutates(op: Op)
    | UserTakesBody
    | CallNext(i: nat)
    | OnionHandlerSettles(s: Settled)
    | CoreSettles(s: Settled)
    | TimerFires
    | TimeoutHookSettles(ok: bool)
    | TimeoutCloses
    | RaceSettles
    | AfterHookSettles(s: Settled)
    | Send(accepted: bool)
    | SendLastResort
    | ObserverSettles(ok: bool)

  const INTERNAL := Text("Internal Server Error", Some(500))
  const LAST_RESORT := Native(500, map[], Some("Internal Server Error"), false)

  predicate Init(s: State) {
    && s.main == MainNew && s.core == CoreNew && s.timer == TimerOff && s.onion == Onion(-1, [], 0, false)
    && !s.ctx.finalized && !s.ctx.settled && s.ctx.draft.stream == None && s.ctx.draft.body == None
    && s.pending && s.parts && !s.bodyIo && s.fired == [] && s.latched == None
  }

  function DefaultError(c: Ctx, e: Err): Ctx {
    match e
    case HttpErr(st, msg) => Mutate(c, Text(if msg == "" then "Error" else msg, Some(st)))
    case OtherErr => Mutate(c, INTERNAL)
  }

  /** Where `runCore` suspends next once `i` "before" hooks have run. */
  function AfterBefore(cfg: Config, c: Ctx, i: nat): Core {
    if c.finalized then CoreDone
    else if i < cfg.before then BeforeHook(i)
    else if cfg.middleware == 0 then InHandler
    else InOnion
  }

  function HandleError(cfg: Config, s: State, e: Err): State {
    if cfg.onError == 0 then s.(core := CoreDone, ctx := DefaultError(s.ctx, e))
    else s.(core := ErrorHook(0, e))
  }

  /** `dispatch(i)`: refuses a position not beyond `index`, otherwise enters it; the
      position after the last middleware is the handler. */
  function Dispatch(cfg: Config, o: Onion, i: nat): Onion {
    if i <= o.index then o.(refused := o.refused + 1)
    else Onion(i, o.entered + [i], o.refused, o.handlerLive || i == cfg.middleware)
  }

  /** Moving on from the "before" hooks; reaching the onion enters position 0 at once. */
  function Advance(cfg: Config, s: State, i: nat): State {
    var core := AfterBefore(cfg, s.ctx, i);
    s.(core := core, onion := if core == InOnion then Dispatch(cfg, s.onion, 0) else s.onion)
  }

  function StepCore(cfg: Config, s: State, r: Settled): State {
    match s.core
    case BeforeHook(i) =>
      if r.Rejected? then HandleError(cfg, s, r.err)
      else Advance(cfg, s, i + 1)
    case InHandler =>
      if r.Rejected? then HandleError(cfg, s, r.err)
      else
        var s' := s.(ctx := ApplyReturn(s.ctx, r.value));
        if ApplyThrows(s.ctx, r.value) then HandleError(cfg, s', OtherErr) else s'.(core := CoreDone)
    case InOnion => if r.Rejected? then HandleError(cfg, s, r.err) else s.(core := CoreDone)
    case ErrorHook(i, e) =>
      if r.Rejected? then s.(core := CoreDone, ctx := DefaultError(s.ctx, r.err))
      else if i + 1 < cfg.onError then s.(core := ErrorHook(i + 1, e))
      else s.(core := CoreDone, ctx := if s.ctx.finalized then s.ctx else DefaultError(s.ctx, e))
    case _ => s
  }

  /** `BodyRef.get`: the first call takes the body out of the native entry. */
  function TakeBody(s: State): State {
    if s.bodyIo || !s.pending || !s.parts then s else s.(bodyIo := true, parts := false)
  }

  function Latch(s: State): State {
    s.(ctx := s.ctx.(settled := true), latched := if s.ctx.settled then s.latched else Some(s.ctx.draft))
  }

  /** The native `respond`: takes effect only while the entry is registered. */
  function Respond(s: State, r: NativeResponse): State {
    if s.pending then s.(pending := false, parts := false, fired := s.fired + [r]) else s
  }

  function AfterNext(cfg: Config, i: nat): Main { if i < cfg.after then AfterHook(i) else Sending }

  function ObserveNext(cfg: Config, i: nat): Main { if i < cfg.onResponse then Observing(i) else Finished }

  /** `buildNativeResponse` then `respond`. Reading the body bridge of a streamed response
      throws if there is none; `accepted` is whether the native layer accepts the values. */
  function SendResponse(cfg: Config, s: State, accepted: bool): State {
    var l := Latch(s);
    var b := if l.ctx.draft.stream.Some? then TakeBody(l) else l;
    if (b.ctx.draft.stream.Some? && !b.bodyIo) || !accepted then b.(main := LastResort)
    else Respond(b, NativeOf(b.ctx.draft, cfg.strip)).(main := ObserveNext(cfg, 0))
  }

  predicate Enabled(cfg: Config, s: State, a: Action) {
    match a
    case Start => s.main == MainNew
    case UserMutates(_) => s.main != MainNew
    case UserTakesBody => s.main != MainNew
    // The `next` given to position i - 1 exists once that position is a running middleware.
    case CallNext(i) => 1 <= i <= cfg.middleware && i - 1 in s.onion.entered
    case OnionHandlerSettles(_) => s.onion.handlerLive
    case CoreSettles(_) => s.core.BeforeHook? || s.core.InHandler? || s.core.InOnion? || s.core.ErrorHook?
    case TimerFires => s.timer == Armed
    case TimeoutHookSettles(_) => s.timer.TimeoutHook? && s.timer.i < cfg.onTimeout
    case TimeoutCloses => s.timer.TimeoutHook? && s.timer.i >= cfg.onTimeout
    case RaceSettles => s.main == Racing && (s.core == CoreDone || s.timer == TimerResolved)
    case AfterHookSettles(_) => s.main.AfterHook?
    case Send(_) => s.main == Sending
    case SendLastResort => s.main == LastResort
    case ObserverSettles(_) => s.main.Observing?
  }

  function Apply(cfg: Config, s: State, a: Action): State
    requires Enabled(cfg, s, a)
  {
    match a
    case Start =>
      if !cfg.found then Respond(s, LAST_RESORT).(main := Finished, core := CoreDone)
      else
        var w := if cfg.watchDisconnect then TakeBody(s) else s;
        if cfg.watchDisconnect && !w.bodyIo then w.(main := LastResort, core := CoreDone)
        else Advance(cfg, w.(main := Racing, timer := if cfg.timeout then Armed else TimerOff), 0)
    case UserMutates(op) => s.(ctx := Mutate(s.ctx, op))
    case UserTakesBody => TakeBody(s)
    case CallNext(i) => s.(onion := Dispatch(cfg, s.onion, i))
    case OnionHandlerSettles(r) =>
      s.(onion := s.onion.(handlerLive := false),
         ctx := if r.Resolved? then ApplyReturn(s.ctx, r.value) else s.ctx)
    case CoreSettles(r) => StepCore(cfg, s, r)
    case TimerFires => s.(timer := TimeoutHook(0))
    case TimeoutHookSettles(ok) => s.(timer := TimeoutHook(if ok then s.timer.i + 1 else cfg.onTimeout))
    case TimeoutCloses =>
      var t := s.(timer := TimerResolved,
                  ctx := if s.ctx.finalized then s.ctx else Mutate(s.ctx, Text("Gateway Timeout", Some(504))));
      Latch(t)
    case RaceSettles =>
      s.(main := AfterNext(cfg, 0), timer := if s.timer == Armed then TimerOff else s.timer)
    case AfterHookSettles(r) =>
      if r.Resolved? then s.(main := AfterNext(cfg, s.main.i + 1))
      else s.(main := Sending,
              ctx := if s.ctx.finalized then s.ctx
                     else DefaultError(s.ctx.(draft := s.ctx.draft.(body := None)), r.err))
    case Send(accepted) => SendResponse(cfg, s, accepted)
    case SendLastResort => Respond(s, LAST_RESORT).(main := Finished)
    case ObserverSettles(ok) => s.(main := if ok then ObserveNext(cfg, s.main.i + 1) else Finished)
  }

  ghost predicate Run(cfg: Config, tr: seq<State>, acts: seq<Action>) {
    && |tr| == |acts| + 1
    && forall i {:trigger acts[i]} :: 0 <= i < |acts| ==>
      Enabled(cfg, tr[i], acts[i]) && tr[i + 1] == Apply(cfg, tr[i], acts[i])
  }

  /** User code is free: once the dispatch has begun it may mutate the context and fetch the
      body at any moment, every awaited piece of it may settle either way, and a middleware may
      call its `next` as often as it likes. */
  lemma {:induction false} UserIsFree(cfg: Config, s: State)
    requires s.main != MainNew
    ensures forall op :: Enabled(cfg, s, UserMutates(op))
    ensures Enabled(cfg, s, UserTakesBody)
    ensures s.onion.handlerLive ==> forall r :: Enabled(cfg, s, OnionHandlerSettles(r))
    ensures s.core != CoreNew && s.core != CoreDone ==> forall r :: Enabled(cfg, s, CoreSettles(r))
    ensures s.main.AfterHook? ==> forall r :: Enabled(cfg, s, AfterHookSettles(r))
    ensures s.main.Observing? ==> forall ok :: Enabled(cfg, s, ObserverSettles(ok))
    ensures forall i: nat :: i in s.onion.entered && i < cfg.middleware ==> Enabled(cfg, s, CallNext(i + 1))
  {}

  // ---- the invariant ----

  ghost predicate Open(m: Main) { m == MainNew || m == Racing || m.AfterHook? || m == Sending || m == LastResort }

  ghost predicate Positions(cfg: Config, s: State) {
    && (s.main == MainNew ==> Init(s))
    && (s.main != MainNew ==> s.core != CoreNew)
    && (s.main != MainNew && s.main != Finished ==> cfg.found)
    && (s.core.BeforeHook? ==> s.core.i < cfg.before) && (s.core.ErrorHook? ==> s.core.i < cfg.onError)
    && (s.timer.TimeoutHook? ==> s.timer.i <= cfg.onTimeout)
    && (s.main.AfterHook? ==> s.main.i < cfg.after) && (s.main.Observing? ==> s.main.i < cfg.onResponse)
    && (s.timer == Armed ==> s.main == Racing)
    && (s.main == Racing && cfg.timeout ==> s.timer != TimerOff)
  }

  ghost predicate OnionInv(cfg: Config, s: State) {
    && -1 <= s.onion.index <= cfg.middleware
    && s.onion.entered == seq(s.onion.index + 1, i => i)
    && (s.onion.handlerLive ==> s.onion.index == cfg.middleware)
    && (s.core == CoreNew || s.core.BeforeHook? ==> s.onion.index == -1)
  }

  ghost predicate Answer(cfg: Config, s: State) {
    && (s.pending <==> Open(s.main))
    && |s.fired| == (if s.pending then 0 else 1)
    && (s.pending ==> s.parts == !s.bodyIo)
    && s.latched == (if s.ctx.settled then Some(s.ctx.draft) else None)
    && (s.ctx.settled && (s.main == Racing || s.main.AfterHook? || s.main == Sending) ==> s.ctx.finalized)
    && (!s.pending ==>
          || s.fired == [LAST_RESORT]
          || (s.ctx.settled && s.fired == [NativeOf(s.ctx.draft, cfg.strip)]
            && (s.ctx.draft.stream.Some? ==> s.bodyIo)))
  }

  ghost predicate Inv(cfg: Config, s: State) { Positions(cfg, s) && OnionInv(cfg, s) && Answer(cfg, s) }

  lemma {:induction false} StartPositions(cfg: Config, s: State)
    requires Positions(cfg, s) && s.main == MainNew
    ensures Positions(cfg, Apply(cfg, s, Start))
  {}

  lemma {:induction false} CorePositions(cfg: Config, s: State, r: Settled)
    requires Positions(cfg, s) && Enabled(cfg, s, CoreSettles(r))
    ensures Positions(cfg, StepCore(cfg, s, r))
  {}

  lemma {:induction false} SendPositions(cfg: Config, s: State, accepted: bool)
    requires Positions(cfg, s) && s.main == Sending
    ensures Positions(cfg, SendResponse(cfg, s, accepted))
  {}

  /** Steps of the main coroutine once it is past the race. */
  predicate Closing(a: Action) { a.RaceSettles? || a.AfterHookSettles? || a.SendLastResort? || a.ObserverSettles? }

  lemma {:induction false} ClosingPositions(cfg: Config, s: State, a: Action)
    requires Positions(cfg, s) && Enabled(cfg, s, a) && Closing(a)
    ensures Positions(cfg, Apply(cfg, s, a))
  {}

  lemma {:induction false} PositionsKept(cfg: Config, s: State, a: Action)
    requires Positions(cfg, s) && Enabled(cfg, s, a)
    ensures Positions(cfg, Apply(cfg, s, a))
  {
    if a.Start? {
      StartPositions(cfg, s);
    } else if a.CoreSettles? {
      CorePositions(cfg, s, a.s);
    } else if a.Send? {
      SendPositions(cfg, s, a.accepted);
    } else if Closing(a) {
      ClosingPositions(cfg, s, a);
    } else {
      var s' := Apply(cfg, s, a);
      assert s'.main == s.main != MainNew && s'.core == s.core;
    }
  }

  lemma {:induction false} DispatchInOrder(cfg: Config, s: State, o: Onion)
    requires OnionInv(cfg, s) && (o == Dispatch(cfg, s.onion, s.onion.index + 1))
    requires s.onion.index < cfg.middleware
    ensures o.index == s.onion.index + 1 && o.entered == seq(o.index + 1, i => i)
    ensures o.handlerLive ==> o.index == cfg.middleware
  {
    assert o.entered == s.onion.entered + [o.index];
  }

  lemma {:induction false} AdvanceOnion(cfg: Config, s: State, i: nat)
    requires OnionInv(cfg, s) && s.onion.index == -1
    ensures OnionInv(cfg, Advance(cfg, s, i))
  {
    if AfterBefore(cfg, s.ctx, i) == InOnion { DispatchInOrder(cfg, s, Dispatch(cfg, s.onion, 0)); }
  }

  lemma {:induction false} StartOnion(cfg: Config, s: State)
    requires OnionInv(cfg, s) && s.main == MainNew && s.onion.index == -1
    ensures OnionInv(cfg, Apply(cfg, s, Start))
  {
    if cfg.found {
      var w := if cfg.watchDisconnect then TakeBody(s) else s;
      AdvanceOnion(cfg, w.(main := Racing, timer := if cfg.timeout then Armed else TimerOff), 0);
    }
  }

  lemma {:induction false} CoreOnion(cfg: Config, s: State, r: Settled)
    requires OnionInv(cfg, s)
    ensures OnionInv(cfg, StepCore(cfg, s, r))
  {
    if s.core.BeforeHook? { AdvanceOnion(cfg, s, s.core.i + 1); }
  }

  lemma {:induction false} OnionKept(cfg: Config, s: State, a: Action)
    requires Positions(cfg, s) && OnionInv(cfg, s) && Enabled(cfg, s, a)
    ensures OnionInv(cfg, Apply(cfg, s, a))
  {
    if a.Start? {
      StartOnion(cfg, s);
    } else if a.CoreSettles? {
      CoreOnion(cfg, s, a.s);
    } else if a.CallNext? {
      if a.i > s.onion.index { DispatchInOrder(cfg, s, Dispatch(cfg, s.onion, a.i)); }
    } else {
      var s' := Apply(cfg, s, a);
      assert s'.core == s.core && s'.onion.index == s.onion.index && s'.onion.entered == s.onion.entered;
    }
  }

  /** What every context update except the latch does. */
  ghost predicate Guarded(c: Ctx, c': Ctx) {
    c'.settled == c.settled && (c.settled ==> c' == c) && (c.finalized ==> c'.finalized)
  }

  lemma {:induction false} MutateGuarded(c: Ctx, op: Op)
    ensures Guarded(c, Mutate(c, op))
  {}

  lemma {:induction false} ReturnGuarded(c: Ctx, v: Returned)
    ensures Guarded(c, ApplyReturn(c, v))
  {}

  lemma {:induction false} ErrorGuarded(c: Ctx, e: Err)
    ensures Guarded(c, DefaultError(c, e))
  {}

  lemma {:induction false} CoreGuarded(cfg: Config, s: State, r: Settled)
    ensures var s' := StepCore(cfg, s, r);
            Guarded(s.ctx, s'.ctx) && s' == s.(ctx := s'.ctx, core := s'.core, onion := s'.onion)
  {
    if r.Rejected? {
      ErrorGuarded(s.ctx, r.err);
    } else {
      ReturnGuarded(s.ctx, r.value);
      ErrorGuarded(ApplyReturn(s.ctx, r.value), OtherErr);
    }
    match s.core
    case BeforeHook(_) =>
    case InHandler =>
    case InOnion =>
    case ErrorHook(_, e) => ErrorGuarded(s.ctx, e);
    case _ =>
  }

  /** Updates of the context and of the coroutines other than the main one. */
  lemma {:induction false} GuardedAnswer(cfg: Config, s: State, s': State)
    requires Answer(cfg, s) && Guarded(s.ctx, s'.ctx)
    requires s' == s.(ctx := s'.ctx, core := s'.core, onion := s'.onion)
    ensures Answer(cfg, s')
  {}

  lemma {:induction false} SendAnswer(cfg: Config, s: State, accepted: bool)
    requires Answer(cfg, s) && s.main == Sending
    ensures Answer(cfg, SendResponse(cfg, s, accepted))
  {
    var b := if s.ctx.draft.stream.Some? then TakeBody(Latch(s)) else Latch(s);
    assert b.ctx.draft.stream.Some? ==> b.bodyIo;
  }

  lemma {:induction false} StartAnswer(cfg: Config, s: State)
    requires Answer(cfg, s) && s.main == MainNew && Init(s)
    ensures Answer(cfg, Apply(cfg, s, Start))
  {}

  lemma {:induction false} LatchAnswer(cfg: Config, s: State)
    requires Answer(cfg, s) && Enabled(cfg, s, TimeoutCloses) && s.main != MainNew
    ensures Answer(cfg, Apply(cfg, s, TimeoutCloses))
  {}

  lemma {:induction false} ClosingAnswer(cfg: Config, s: State, a: Action)
    requires Positions(cfg, s) && Answer(cfg, s) && Enabled(cfg, s, a) && Closing(a)
    ensures Answer(cfg, Apply(cfg, s, a))
  {
    if a.AfterHookSettles? && a.s.Rejected? { ErrorGuarded(s.ctx.(draft := s.ctx.draft.(body := None)), a.s.err); }
  }

  lemma {:induction false} OtherAnswer(cfg: Config, s: State, a: Action)
    requires Positions(cfg, s) && Answer(cfg, s) && Enabled(cfg, s, a)
    requires a.UserTakesBody? || a.CallNext? || a.TimerFires? || a.TimeoutHookSettles?
    ensures Answer(cfg, Apply(cfg, s, a))
  {}

  lemma {:induction false} AnswerKept(cfg: Config, s: State, a: Action)
    requires Positions(cfg, s) && Answer(cfg, s) && Enabled(cfg, s, a)
    ensures Answer(cfg, Apply(cfg, s, a))
  {
    if a.Start? {
      StartAnswer(cfg, s);
    } else if a.Send? {
      SendAnswer(cfg, s, a.accepted);
    } else if a.TimeoutCloses? {
      LatchAnswer(cfg, s);
    } else if a.CoreSettles? {
      CoreGuarded(cfg, s, a.s);
      GuardedAnswer(cfg, s, Apply(cfg, s, a));
    } else if a.UserMutates? {
      MutateGuarded(s.ctx, a.op);
      GuardedAnswer(cfg, s, Apply(cfg, s, a));
    } else if a.OnionHandlerSettles? {
      if a.s.Resolved? { ReturnGuarded(s.ctx, a.s.value); }
      GuardedAnswer(cfg, s, Apply(cfg, s, a));
    } else if Closing(a) {
      ClosingAnswer(cfg, s, a);
    } else {
      OtherAnswer(cfg, s, a);
    }
  }

  lemma {:induction false} InvKept(cfg: Config, s: State, a: Action)
    requires Inv(cfg, s) && Enabled(cfg, s, a)
    ensures Inv(cfg, Apply(cfg, s, a))
  {
    PositionsKept(cfg, s, a);
    OnionKept(cfg, s, a);
    AnswerKept(cfg, s, a);
  }

  lemma {:induction false} InvNext(cfg: Config, tr: seq<State>, acts: seq<Action>, i: nat)
    requires Run(cfg, tr, acts) && i < |acts| && Inv(cfg, tr[i])
    ensures Inv(cfg, tr[i + 1])
  {
    InvKept(cfg, tr[i], acts[i]);
  }

  lemma {:induction false} InvAlong(cfg: Config, tr: seq<State>, acts: seq<Action>, i: nat)
    requires Run(cfg, tr, acts) && Init(tr[0]) && i < |tr|
    ensures Inv(cfg, tr[i])
  {
    if i > 0 {
      InvAlong(cfg, tr, acts, i - 1);
      InvNext(cfg, tr, acts, i - 1);
    }
  }

  // ---- safety over whole runs ----

  /** At most one `respond` takes effect, exactly one once the dispatch has finished, and a
      streamed answer had fetched its body bridge. */
  lemma {:induction false} RespondsOnce(cfg: Config, tr: seq<State>, acts: seq<Action>, i: nat)
    requires Run(cfg, tr, acts) && Init(tr[0]) && i < |tr|
    ensures |tr[i].fired| <= 1
    ensures tr[i].main == Finished ==> |tr[i].fired| == 1
    ensures |tr[i].fired| == 1 && tr[i].fired[0].streamed ==> tr[i].bodyIo
  {
    InvAlong(cfg, tr, acts, i);
  }

  /** Sending always finds the body bridge: only values refused by the native layer lead to
      the last resort, and the answer is then still sent exactly once. */
  lemma {:induction false} SendDelivers(cfg: Config, tr: seq<State>, acts: seq<Action>, i: nat)
    requires Run(cfg, tr, acts) && Init(tr[0]) && i < |tr| && tr[i].main == Sending
    ensures Apply(cfg, tr[i], Send(true)).fired == [NativeOf(tr[i].ctx.draft, cfg.strip)]
    ensures var s := Apply(cfg, tr[i], Send(false));
            s.main == LastResort && s.pending && Apply(cfg, s, SendLastResort).fired == [LAST_RESORT]
  {
    InvAlong(cfg, tr, acts, i);
  }

  lemma {:induction false} LatchedKept(cfg: Config, s: State, a: Action)
    requires Answer(cfg, s) && Enabled(cfg, s, a) && s.ctx.settled
    ensures var s' := Apply(cfg, s, a); s'.ctx.settled && s'.ctx.draft == s.ctx.draft
  {
    if a.CoreSettles? { CoreGuarded(cfg, s, a.s); }
  }

  lemma {:induction false} LatchedNext(cfg: Config, tr: seq<State>, acts: seq<Action>, i: nat)
    requires Run(cfg, tr, acts) && Init(tr[0]) && i < |acts| && tr[i].ctx.settled
    ensures tr[i + 1].ctx.settled && tr[i + 1].ctx.draft == tr[i].ctx.draft
  {
    InvAlong(cfg, tr, acts, i);
    LatchedKept(cfg, tr[i], acts[i]);
  }

  lemma {:induction false} DraftFrozen(cfg: Config, tr: seq<State>, acts: seq<Action>, i: nat, j: nat)
    requires Run(cfg, tr, acts) && Init(tr[0]) && i <= j < |tr| && tr[i].ctx.settled
    ensures tr[j].ctx.settled && tr[j].ctx.draft == tr[i].ctx.draft
  {
    if i < j {
      DraftFrozen(cfg, tr, acts, i, j - 1);
      LatchedNext(cfg, tr, acts, j - 1);
    }
  }

  /** The latch holds: once the context is fixed, whatever the core, the hooks or stray user
      code still do, the draft never changes, and the answer sent is that draft (or the
      last resort). */
  lemma {:induction false} LatchHolds(cfg: Config, tr: seq<State>, acts: seq<Action>, i: nat, j: nat)
    requires Run(cfg, tr, acts) && Init(tr[0]) && i <= j < |tr| && tr[i].ctx.settled
    ensures tr[j].ctx.settled && tr[j].ctx.draft == tr[i].ctx.draft
    ensures forall r :: r in tr[j].fired ==> r == LAST_RESORT || r == NativeOf(tr[i].ctx.draft, cfg.strip)
  {
    DraftFrozen(cfg, tr, acts, i, j);
    InvAlong(cfg, tr, acts, j);
  }

  /** A timeout that finds nothing finalized while the race is on decides the answer: whatever
      the late core or the hooks still do, the client gets the 504 (or the last resort). */
  lemma {:induction false} TimeoutAnswers504(cfg: Config, tr: seq<State>, acts: seq<Action>, i: nat, j: nat)
    requires Run(cfg, tr, acts) && Init(tr[0]) && i < j < |tr| && acts[i] == TimeoutCloses
    requires tr[i].main == Racing && !tr[i].ctx.finalized
    ensures forall r :: r in tr[j].fired ==>
      r == LAST_RESORT || (r.status == 504 && r.body == Some("Gateway Timeout") && !r.streamed)
  {
    InvAlong(cfg, tr, acts, i);
    assert tr[i + 1] == Apply(cfg, tr[i], acts[i]);
    TextNotJson();
    LatchHolds(cfg, tr, acts, i + 1, j);
  }

  lemma {:induction false} LastResortEntered(cfg: Config, s: State, a: Action)
    requires Positions(cfg, s) && Answer(cfg, s) && Enabled(cfg, s, a)
    requires s.main != LastResort && Apply(cfg, s, a).main == LastResort
    ensures a == Send(false)
  {
    if a.CoreSettles? { CoreGuarded(cfg, s, a.s); }
  }

  /** The last resort is never used for want of a body bridge or after a failing hook: only
      when the native layer refused the values of a response. */
  lemma {:induction false} LastResortMeansRefused(cfg: Config, tr: seq<State>, acts: seq<Action>, j: nat)
    requires Run(cfg, tr, acts) && Init(tr[0]) && j < |tr| && tr[j].main == LastResort
    ensures Send(false) in acts[..j]
  {
    if j > 0 {
      var a := acts[j - 1];
      assert acts[..j][j - 1] == a;
      if tr[j - 1].main == LastResort {
        LastResortMeansRefused(cfg, tr, acts, j - 1);
        assert acts[..j] == acts[..j - 1] + [a];
      } else {
        InvAlong(cfg, tr, acts, j - 1);
        LastResortEntered(cfg, tr[j - 1], a);
      }
    }
  }

  /** Onion discipline: the positions entered are 0, 1, ... in order, each at most once, the
      handler (position `middleware`) last; a `next` is refused iff its position was entered. */
  lemma {:induction false} OnionDiscipline(cfg: Config, tr: seq<State>, acts: seq<Action>, n: nat)
    requires Run(cfg, tr, acts) && Init(tr[0]) && n < |tr|
    ensures |tr[n].onion.entered| <= cfg.middleware + 1
    ensures forall i :: 0 <= i < |tr[n].onion.entered| ==> tr[n].onion.entered[i] == i
    ensures forall i: nat :: Enabled(cfg, tr[n], CallNext(i)) ==>
              var o := Apply(cfg, tr[n], CallNext(i)).onion;
              if i in tr[n].onion.entered then o == tr[n].onion.(refused := tr[n].onion.refused + 1)
              else o.entered == tr[n].onion.entered + [i] && o.refused == tr[n].onion.refused
  {
    InvAlong(cfg, tr, acts, n);
    var o := tr[n].onion;
    forall i: nat ensures i in o.entered <==> i <= o.index {
      if i <= o.index { assert o.entered[i] == i; }
    }
  }

  // ---- progress ----

  /** Steps taken by the library or by awaited user code settling. */
  predicate Progress(a: Action) {
    !(a.UserMutates? || a.UserTakesBody? || a.CallNext? || a.OnionHandlerSettles?)
  }

  function CoreRank(cfg: Config, c: Core): nat {
    match c
    case CoreNew => cfg.onError + cfg.before + 3
    case BeforeHook(i) => cfg.onError + 1 + if i < cfg.before then cfg.before - i else 0
    case InHandler => cfg.onError + 1
    case InOnion => cfg.onError + 1
    case ErrorHook(i, _) => if i < cfg.onError then cfg.onError - i else 0
    case CoreDone => 0
  }

  function TimerRank(cfg: Config, t: Timer): nat {
    match t
    case TimerOff => 0
    case Armed => cfg.onTimeout + 2
    case TimeoutHook(i) => 1 + if i < cfg.onTimeout then cfg.onTimeout - i else 0
    case TimerResolved => 0
  }

  function MainRank(cfg: Config, m: Main): nat {
    match m
    case MainNew => cfg.onResponse + cfg.after + cfg.onTimeout + 7
    case Racing => cfg.onResponse + cfg.after + 3
    case AfterHook(i) => cfg.onResponse + 2 + if i < cfg.after then cfg.after - i else 0
    case Sending => cfg.onResponse + 2
    case LastResort => 1
    case Observing(i) => if i < cfg.onResponse then cfg.onResponse - i else 0
    case Finished => 0
  }

  function Rank(cfg: Config, s: State): nat { MainRank(cfg, s.main) + CoreRank(cfg, s.core) + TimerRank(cfg, s.timer) }

  lemma {:induction false} CoreRankFalls(cfg: Config, s: State, r: Settled)
    requires Positions(cfg, s) && Enabled(cfg, s, CoreSettles(r))
    ensures CoreRank(cfg, StepCore(cfg, s, r).core) < CoreRank(cfg, s.core)
  {}

  lemma {:induction false} StartRankFalls(cfg: Config, s: State)
    requires Positions(cfg, s) && s.main == MainNew
    ensures Rank(cfg, Apply(cfg, s, Start)) < Rank(cfg, s)
  {}

  lemma {:induction false} ClosingRankFalls(cfg: Config, s: State, a: Action)
    requires Positions(cfg, s) && Enabled(cfg, s, a) && Closing(a)
    ensures Rank(cfg, Apply(cfg, s, a)) < Rank(cfg, s)
  {
    assert Apply(cfg, s, a).core == s.core;
  }

  lemma {:induction false} SendRankFalls(cfg: Config, s: State, accepted: bool)
    requires s.main == Sending
    ensures Rank(cfg, SendResponse(cfg, s, accepted)) < Rank(cfg, s)
  {}

  lemma {:induction false} TimerRankFalls(cfg: Config, s: State, a: Action)
    requires Enabled(cfg, s, a) && (a.TimerFires? || a.TimeoutHookSettles? || a.TimeoutCloses?)
    ensures Rank(cfg, Apply(cfg, s, a)) < Rank(cfg, s)
  {
    assert Apply(cfg, s, a).core == s.core && Apply(cfg, s, a).main == s.main;
  }

  lemma {:induction false} UserKeepsRank(cfg: Config, s: State, a: Action)
    requires Enabled(cfg, s, a) && !Progress(a)
    ensures Rank(cfg, Apply(cfg, s, a)) == Rank(cfg, s)
  {
    var s' := Apply(cfg, s, a);
    assert s'.core == s.core && s'.main == s.main && s'.timer == s.timer;
  }

  lemma {:induction false} RankFalls(cfg: Config, s: State, a: Action)
    requires Positions(cfg, s) && Enabled(cfg, s, a)
    ensures if Progress(a) then Rank(cfg, Apply(cfg, s, a)) < Rank(cfg, s)
            else Rank(cfg, Apply(cfg, s, a)) == Rank(cfg, s)
  {
    if a.Start? {
      StartRankFalls(cfg, s);
    } else if a.CoreSettles? {
      CoreRankFalls(cfg, s, a.s);
      CoreGuarded(cfg, s, a.s);
    } else if a.Send? {
      SendRankFalls(cfg, s, a.accepted);
    } else if Closing(a) {
      ClosingRankFalls(cfg, s, a);
    } else if Progress(a) {
      TimerRankFalls(cfg, s, a);
    } else {
      UserKeepsRank(cfg, s, a);
    }
  }

  /** Which kinds of awaited user code may hang: "before" hooks, middleware and handler
      (`core`), onTimeout hooks, preSerialization and onSend hooks (`after`), onResponse. */
  datatype Hangs = Hangs(core: bool, onTimeout: bool, after: bool, onResponse: bool)

  predicate Held(h: Hangs, a: Action) {
    || (h.core && a.CoreSettles?) || (h.onTimeout && a.TimeoutHookSettles?)
    || (h.after && a.AfterHookSettles?) || (h.onResponse && a.ObserverSettles?)
  }

  /** No progress step is possible but the settling of code that hangs. */
  ghost predicate Stuck(cfg: Config, s: State, h: Hangs) {
    forall a :: Progress(a) && !Held(h, a) ==> !Enabled(cfg, s, a)
  }

  /** Where a request can rest: answered, or at a hanging hook after the race, or in the race
      with a hanging core and no timeout to end it, be it that none is configured or that an
      onTimeout hook, which is awaited without bound, hangs as well. */
  lemma {:induction false} RestsAnsweredIff(cfg: Config, s: State, h: Hangs)
    requires Inv(cfg, s) && Stuck(cfg, s, h)
    ensures |s.fired| == 1 <==> !(s.main.AfterHook? || s.main == Racing)
    ensures |s.fired| == 1 ==> s.main == Finished || (h.onResponse && s.main.Observing?)
    ensures s.main.AfterHook? ==> h.after
    ensures s.main == Racing ==> h.core && (cfg.timeout ==> h.onTimeout && s.timer.TimeoutHook?)
    ensures |s.fired| != 1 ==> MayHang(cfg, h)
  {
    var any := Resolved(Nothing);
    assert !Enabled(cfg, s, Start) && !Enabled(cfg, s, TimerFires) && !Enabled(cfg, s, TimeoutCloses);
    assert !Enabled(cfg, s, RaceSettles) && !Enabled(cfg, s, Send(true)) && !Enabled(cfg, s, SendLastResort);
    assert !h.onTimeout ==> !Enabled(cfg, s, TimeoutHookSettles(true));
    assert !h.after ==> !Enabled(cfg, s, AfterHookSettles(any));
    assert !h.onResponse ==> !Enabled(cfg, s, ObserverSettles(true));
    assert !h.core ==> !Enabled(cfg, s, CoreSettles(any));
  }

  /** The configurations under which code that hangs can keep a request from its answer. */
  predicate MayHang(cfg: Config, h: Hangs) {
    cfg.found && ((h.after && cfg.after > 0) || (h.core && (cfg.timeout ==> h.onTimeout && cfg.onTimeout > 0)))
  }

  ghost predicate Unanswered(cfg: Config, h: Hangs, tr: seq<State>, acts: seq<Action>) {
    Run(cfg, tr, acts) && Init(tr[0]) && Stuck(cfg, tr[|acts|], h) && tr[|acts|].fired == []
  }

  /** Extends a run by one step. */
  lemma {:induction false} Extend(cfg: Config, tr: seq<State>, acts: seq<Action>, a: Action)
      returns (tr': seq<State>, acts': seq<Action>)
    requires Run(cfg, tr, acts) && Enabled(cfg, tr[|acts|], a)
    ensures Run(cfg, tr', acts') && acts' == acts + [a] && tr'[0] == tr[0]
    ensures tr'[|acts'|] == Apply(cfg, tr[|acts|], a)
  {
    tr', acts' := tr + [Apply(cfg, tr[|acts|], a)], acts + [a];
    forall i {:trigger acts'[i]} | 0 <= i < |acts'|
      ensures Enabled(cfg, tr'[i], acts'[i]) && tr'[i + 1] == Apply(cfg, tr'[i], acts'[i])
    {
      if i < |acts| { assert acts'[i] == acts[i]; }
    }
  }

  lemma {:induction false} Started(cfg: Config) returns (tr: seq<State>, acts: seq<Action>)
    requires cfg.found
    ensures Run(cfg, tr, acts) && Init(tr[0])
    ensures var s := tr[|acts|];
      && s.main == Racing && s.fired == [] && s.timer == (if cfg.timeout then Armed else TimerOff)
      && !s.ctx.finalized && !s.ctx.settled && s.core in {BeforeHook(0), InHandler, InOnion}
  {
    var s := State(MainNew, CoreNew, TimerOff, Onion(-1, [], 0, false), Fresh("", ""), true, true, false, [], None);
    tr, acts := Extend(cfg, [s], [], Start);
  }

  /** A run that hangs in the race. */
  lemma {:induction false} HangsInRace(cfg: Config, h: Hangs) returns (tr: seq<State>, acts: seq<Action>)
    requires cfg.found && h.core && (cfg.timeout ==> h.onTimeout && cfg.onTimeout > 0)
    ensures Unanswered(cfg, h, tr, acts)
  {
    tr, acts := Started(cfg);
    if cfg.timeout { tr, acts := Extend(cfg, tr, acts, TimerFires); }
  }

  /** A run that hangs in a hook after the race, whatever the timeout: user code finalizes,
      the core ends, and the hook is awaited without a timer. */
  lemma {:induction false} HangsAfterRace(cfg: Config, h: Hangs) returns (tr: seq<State>, acts: seq<Action>)
    requires cfg.found && h.after && cfg.after > 0
    ensures Unanswered(cfg, h, tr, acts)
  {
    tr, acts := Started(cfg);
    tr, acts := Extend(cfg, tr, acts, UserMutates(INTERNAL));
    tr, acts := Extend(cfg, tr, acts, CoreSettles(Resolved(Nothing)));
    assert tr[|acts|].core == CoreDone;
    tr, acts := Extend(cfg, tr, acts, RaceSettles);
  }

  /** Every resting run has answered, unless the configuration lets hanging code prevent it:
      then some run rests unanswered. A request timeout alone is no guarantee. */
  lemma {:induction false} AlwaysAnsweredIff(cfg: Config, h: Hangs)
    ensures (forall tr, acts :: !Unanswered(cfg, h, tr, acts)) <==> !MayHang(cfg, h)
  {
    if MayHang(cfg, h) {
      var tr, acts;
      if h.after && cfg.after > 0 { tr, acts := HangsAfterRace(cfg, h); } else { tr, acts := HangsInRace(cfg, h); }
      assert Unanswered(cfg, h, tr, acts);
    } else {
      forall tr, acts ensures !Unanswered(cfg, h, tr, acts) {
        if Unanswered(cfg, h, tr, acts) {
          InvAlong(cfg, tr, acts, |acts|);
          RestsAnsweredIff(cfg, tr[|acts|], h);
        }
      }
    }
  }

  function ProgressSteps(acts: seq<Action>): nat {
    if acts == [] then 0
    else ProgressSteps(acts[..|acts| - 1]) + if Progress(acts[|acts| - 1]) then 1 else 0
  }

  lemma {:induction false} RankFallsAt(cfg: Config, tr: seq<State>, acts: seq<Action>, i: nat)
    requires Run(cfg, tr, acts) && Init(tr[0]) && i < |acts|
    ensures Rank(cfg, tr[i + 1]) + (if Progress(acts[i]) then 1 else 0) <= Rank(cfg, tr[i])
  {
    InvAlong(cfg, tr, acts, i);
    RankFalls(cfg, tr[i], acts[i]);
  }

  lemma {:induction false} RankPays(cfg: Config, tr: seq<State>, acts: seq<Action>)
    requires Run(cfg, tr, acts) && Init(tr[0])
    ensures ProgressSteps(acts) + Rank(cfg, tr[|acts|]) <= Rank(cfg, tr[0])
    decreases |acts|
  {
    var n := |acts|;
    if n > 0 {
      assert Run(cfg, tr[..n], acts[..n - 1]);
      RankPays(cfg, tr[..n], acts[..n - 1]);
      RankFallsAt(cfg, tr, acts, n - 1);
    }
  }

  /** Every request is finished exactly once: a run makes at most `Rank` progress steps, and
      one that cannot progress any further has answered exactly once, unless hanging code can
      prevent it, and finished, unless an observer hangs. */
  lemma {:induction false} FinishedExactlyOnce(cfg: Config, tr: seq<State>, acts: seq<Action>, h: Hangs)
    requires Run(cfg, tr, acts) && Init(tr[0])
    ensures ProgressSteps(acts) + Rank(cfg, tr[|acts|]) <= Rank(cfg, tr[0])
    ensures Stuck(cfg, tr[|acts|], h) && !MayHang(cfg, h) ==> |tr[|acts|].fired| == 1
    ensures Stuck(cfg, tr[|acts|], h) && !MayHang(cfg, h) && !h.onResponse ==> tr[|acts|].main == Finished
  {
    RankPays(cfg, tr, acts);
    InvAlong(cfg, tr, acts, |acts|);
    if Stuck(cfg, tr[|acts|], h) { RestsAnsweredIff(cfg, tr[|acts|], h); }
  }
}
