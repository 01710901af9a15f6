/** What the one answer of a request is (js/pipeline.ts, js/context.ts): which hooks ran before
    it, and whether it is the handler's value, an error's or the timeout's. Everything is said
    over whole runs, with all other user code free to interfere where it can. */
module LifecycleAnswers {
  import opened Common
  import opened ResponseContext
  import opened Lifecycle

  // ---- the answer is decided ----

  /** Steps that may still change a finalized answer once the core is past its handler. */
  predicate Meddles(a: Action) { a.UserMutates? || (a.CoreSettles? && a.s.Rejected?) }

  /** The race ends with the core done or the context fixed. */
  ghost predicate Raced(s: State) {
    && (s.timer == TimerResolved ==> s.ctx.settled)
    && (s.main != MainNew && s.main != Racing ==> s.core == CoreDone || s.ctx.settled)
  }

  lemma {:induction false} RacedKept(cfg: Config, s: State, a: Action)
    requires Inv(cfg, s) && Raced(s) && Enabled(cfg, s, a)
    ensures Raced(Apply(cfg, s, a))
  {
    if a.CoreSettles? { CoreGuarded(cfg, s, a.s); }
  }

  lemma {:induction false} RacedNext(cfg: Config, tr: seq<State>, acts: seq<Action>, i: nat)
    requires Run(cfg, tr, acts) && Init(tr[0]) && i < |acts| && Raced(tr[i])
    ensures Raced(tr[i + 1])
  {
    InvAlong(cfg, tr, acts, i);
    RacedKept(cfg, tr[i], acts[i]);
  }

  lemma {:induction false} RacedAlong(cfg: Config, tr: seq<State>, acts: seq<Action>, i: nat)
    requires Run(cfg, tr, acts) && Init(tr[0]) && i < |tr|
    ensures Raced(tr[i])
  {
    if i > 0 {
      RacedAlong(cfg, tr, acts, i - 1);
      RacedNext(cfg, tr, acts, i - 1);
    }
  }

  /** Past its handler, with a finalized context. */
  predicate Decided(s: State) { (s.core == CoreDone || s.core == InOnion) && s.main != MainNew && s.ctx.finalized }

  lemma {:induction false} DecidedKept(cfg: Config, s: State, a: Action)
    requires Decided(s) && Enabled(cfg, s, a) && !Meddles(a)
    ensures var s' := Apply(cfg, s, a); Decided(s') && s'.ctx.draft == s.ctx.draft
  {
    if a.OnionHandlerSettles? {
      assert a.s.Resolved? ==> ApplyReturn(s.ctx, a.s.value) == s.ctx;
    }
  }

  lemma {:induction false} DecidedStays(cfg: Config, tr: seq<State>, acts: seq<Action>, i: nat, j: nat)
    requires Run(cfg, tr, acts) && i <= j < |tr| && Decided(tr[i])
    requires forall n :: i <= n < j ==> !Meddles(acts[n])
    ensures Decided(tr[j]) && tr[j].ctx.draft == tr[i].ctx.draft
  {
    if i < j {
      DecidedStays(cfg, tr, acts, i, j - 1);
      DecidedKept(cfg, tr[j - 1], acts[j - 1]);
    }
  }

  /** What is sent is then what was decided. */
  lemma {:induction false} DecidedIsSent(cfg: Config, tr: seq<State>, acts: seq<Action>, i: nat, j: nat)
    requires Run(cfg, tr, acts) && Init(tr[0]) && i <= j < |tr| && Decided(tr[i])
    requires forall n :: i <= n < j ==> !Meddles(acts[n])
    ensures forall r :: r in tr[j].fired ==> r == LAST_RESORT || r == NativeOf(tr[i].ctx.draft, cfg.strip)
  {
    DecidedStays(cfg, tr, acts, i, j);
    InvAlong(cfg, tr, acts, j);
  }

  // ---- the handler's value ----

  /** The status set before, 200 without one. */
  function StatusBefore(c: Ctx): nat { if c.draft.status.Some? then c.draft.status.value else 200 }

  /** `r` is what a handler that returned `v` in context `c` asked for. */
  predicate AskedFor(v: Returned, c: Ctx, strip: Strip, r: NativeResponse) {
    && r.status == StatusBefore(c)
    && match v
       case Str(t) =>
         && r.body == Some(t) && !r.streamed
         && r.headers == c.draft.headers["content-type" := ["text/plain; charset=utf-8"]]
       case Value(j) =>
         && r.body == (if j.Some? && r.status in strip then Some(strip[r.status](j.value)) else j) && !r.streamed
         && r.headers == c.draft.headers["content-type" := ["application/json; charset=utf-8"]]
       case Source(_) => r.body == None && r.streamed && r.headers == c.draft.headers
       case _ => false
  }

  /** The value goes into the answer: it is a string, a stream or a JSON value. */
  predicate Answering(v: Returned) { v.Str? || v.Source? || v.Value? }

  lemma {:induction false} ReturnAsked(c: Ctx, v: Returned, strip: Strip)
    requires !c.finalized && !c.settled && Answering(v)
    ensures ApplyReturn(c, v).finalized && AskedFor(v, c, strip, NativeOf(ApplyReturn(c, v).draft, strip))
  {
    TextNotJson();
    JsonIsJson();
  }

  /** Handler `v` settles in state `s`, without middleware or inside it. */
  predicate HandlerReturns(s: State, a: Action, v: Returned) {
    || (s.core == InHandler && a == CoreSettles(Resolved(v)))
    || ((s.core == InOnion || s.core == CoreDone) && a == OnionHandlerSettles(Resolved(v)))
  }

  lemma {:induction false} ReturnDecides(cfg: Config, s: State, a: Action, v: Returned)
    requires Enabled(cfg, s, a) && HandlerReturns(s, a, v) && Answering(v) && s.main != MainNew
    requires !s.ctx.finalized && !s.ctx.settled
    ensures var s' := Apply(cfg, s, a); Decided(s') && AskedFor(v, s.ctx, cfg.strip, NativeOf(s'.ctx.draft, cfg.strip))
  {
    ReturnAsked(s.ctx, v, cfg.strip);
  }

  /** The client gets what the handler returned: a string as text, a stream as a stream, any
      other value as JSON, under the status and headers set before. Only a mutation by user
      code, or an exception of a middleware after the handler, can change that afterwards; no
      timer, hook or late handler can. */
  lemma {:induction false} HandlerAnswers(cfg: Config, tr: seq<State>, acts: seq<Action>, i: nat, j: nat, v: Returned)
    requires Run(cfg, tr, acts) && Init(tr[0]) && i < j < |tr| && HandlerReturns(tr[i], acts[i], v) && Answering(v)
    requires !tr[i].ctx.finalized && !tr[i].ctx.settled
    requires forall n :: i < n < j ==> !Meddles(acts[n])
    ensures forall r :: r in tr[j].fired ==> r == LAST_RESORT || AskedFor(v, tr[i].ctx, cfg.strip, r)
  {
    InvAlong(cfg, tr, acts, i);
    assert Enabled(cfg, tr[i], acts[i]) && tr[i + 1] == Apply(cfg, tr[i], acts[i]);
    ReturnDecides(cfg, tr[i], acts[i], v);
    DecidedIsSent(cfg, tr, acts, i + 1, j);
  }

  /** A handler that returns nothing, or whose answer was already finalized, leaves the context
      as it is. */
  lemma {:induction false} NothingChangesNothing(
      cfg: Config, tr: seq<State>, acts: seq<Action>, i: nat, v: Returned)
    requires Run(cfg, tr, acts) && i < |acts| && HandlerReturns(tr[i], acts[i], v)
    requires v == Nothing || tr[i].ctx.finalized
    ensures tr[i + 1].ctx == tr[i].ctx
  {
    assert Enabled(cfg, tr[i], acts[i]) && tr[i + 1] == Apply(cfg, tr[i], acts[i]);
  }

  // ---- errors ----

  function StatusOfErr(e: Err): nat { if e.HttpErr? then e.status else 500 }

  function TextOfErr(e: Err): string {
    if e.OtherErr? then "Internal Server Error" else if e.message == "" then "Error" else e.message
  }

  /** A "before" hook, middleware or the bare handler throws `e`, or the handler's value cannot
      be serialized. */
  predicate Throws(s: State, a: Action, e: Err) {
    && (s.core.BeforeHook? || s.core == InHandler || s.core == InOnion)
    && (|| a == CoreSettles(Rejected(e))
        || (s.core == InHandler && a == CoreSettles(Resolved(Unserializable))
            && !s.ctx.finalized && !s.ctx.settled && e == OtherErr))
  }

  /** Error `e` is the one that is answered by default: a hook, middleware or handler threw it
      and there are no onError hooks, or an onError hook threw it, or the last onError hook
      left it unanswered, or a hook after the race threw it before anything was answered. */
  predicate Fails(cfg: Config, s: State, a: Action, e: Err) {
    || (cfg.onError == 0 && Throws(s, a, e))
    || (s.core.ErrorHook? && a == CoreSettles(Rejected(e)))
    || (s.core.ErrorHook? && s.core.err == e && s.core.i + 1 == cfg.onError && !s.ctx.finalized
        && a.CoreSettles? && a.s.Resolved?)
    || (s.main.AfterHook? && a == AfterHookSettles(Rejected(e)) && !s.ctx.finalized)
  }

  lemma {:induction false} DefaultDecides(c: Ctx, e: Err, strip: Strip)
    requires !c.settled
    ensures var r := NativeOf(DefaultError(c, e).draft, strip);
      && DefaultError(c, e).finalized && r.status == StatusOfErr(e) && r.body == Some(TextOfErr(e)) && !r.streamed
      && r.headers == c.draft.headers["content-type" := ["text/plain; charset=utf-8"]]
  {
    TextNotJson();
  }

  lemma {:induction false} FailureDecides(cfg: Config, s: State, a: Action, e: Err)
    requires Inv(cfg, s) && Raced(s) && Enabled(cfg, s, a) && Fails(cfg, s, a, e) && !s.ctx.settled
    ensures var s', r := Apply(cfg, s, a), NativeOf(Apply(cfg, s, a).ctx.draft, cfg.strip);
      Decided(s') && r.status == StatusOfErr(e) && r.body == Some(TextOfErr(e)) && !r.streamed
  {
    if a.AfterHookSettles? {
      DefaultDecides(s.ctx.(draft := s.ctx.draft.(body := None)), e, cfg.strip);
    } else if a.s.Resolved? && s.core == InHandler {
      DefaultDecides(ApplyReturn(s.ctx, Unserializable), e, cfg.strip);
    } else {
      DefaultDecides(s.ctx, e, cfg.strip);
    }
  }

  /** A failure nobody handles is answered with the error's own status and message, 500 for
      anything that is not an HTTP error, whatever had been prepared before. */
  lemma {:induction false} ErrorAnswers(cfg: Config, tr: seq<State>, acts: seq<Action>, i: nat, j: nat, e: Err)
    requires Run(cfg, tr, acts) && Init(tr[0]) && i < j < |tr| && Fails(cfg, tr[i], acts[i], e)
    requires !tr[i].ctx.settled && forall n :: i < n < j ==> !Meddles(acts[n])
    ensures forall r :: r in tr[j].fired ==>
      || (r.status == 500 && r.body == Some("Internal Server Error") && !r.streamed)
      || (r.status == StatusOfErr(e) && r.body == Some(TextOfErr(e)) && !r.streamed)
  {
    InvAlong(cfg, tr, acts, i);
    RacedAlong(cfg, tr, acts, i);
    assert Enabled(cfg, tr[i], acts[i]) && tr[i + 1] == Apply(cfg, tr[i], acts[i]);
    FailureDecides(cfg, tr[i], acts[i], e);
    DecidedIsSent(cfg, tr, acts, i + 1, j);
  }

  /** With onError hooks a thrown error goes to them first, unanswered, and from each that
      settles well to the next, with the same error. */
  lemma {:induction false} ErrorReachesHooks(cfg: Config, tr: seq<State>, acts: seq<Action>, i: nat, e: Err)
    requires Run(cfg, tr, acts) && i < |acts| && cfg.onError > 0
    ensures Throws(tr[i], acts[i], e) ==> tr[i + 1].core == ErrorHook(0, e)
    ensures Throws(tr[i], acts[i], e) && acts[i].s.Rejected? ==> tr[i + 1].ctx == tr[i].ctx
    ensures tr[i].core.ErrorHook? && tr[i].core.i + 1 < cfg.onError && acts[i].CoreSettles? && acts[i].s.Resolved? ==>
      tr[i + 1].core == ErrorHook(tr[i].core.i + 1, tr[i].core.err) && tr[i + 1].ctx == tr[i].ctx
  {
    assert Enabled(cfg, tr[i], acts[i]) && tr[i + 1] == Apply(cfg, tr[i], acts[i]);
  }

  // ---- hooks ----

  datatype Stage = Before | OnError | OnTimeout | After | OnResponse

  /** The hook that settles well in this step. */
  function Settling(s: State, a: Action): Option<(Stage, nat)> {
    if a.CoreSettles? && a.s.Resolved? && s.core.BeforeHook? then Some((Before, s.core.i))
    else if a.CoreSettles? && a.s.Resolved? && s.core.ErrorHook? then Some((OnError, s.core.i))
    else if a.TimeoutHookSettles? && a.ok && s.timer.TimeoutHook? then Some((OnTimeout, s.timer.i))
    else if a.AfterHookSettles? && a.s.Resolved? && s.main.AfterHook? then Some((After, s.main.i))
    else if a.ObserverSettles? && a.ok && s.main.Observing? then Some((OnResponse, s.main.i))
    else None
  }

  /** The hooks of a stage that have settled well in the first `n` steps, in order. */
  function Ran(tr: seq<State>, acts: seq<Action>, n: nat, stage: Stage): seq<nat>
    requires n <= |acts| && n <= |tr|
  {
    if n == 0 then []
    else
      var h := Settling(tr[n - 1], acts[n - 1]);
      Ran(tr, acts, n - 1, stage) + if h.Some? && h.value.0 == stage then [h.value.1] else []
  }

  function HookCount(cfg: Config, stage: Stage): nat {
    match stage
    case Before => cfg.before
    case OnError => cfg.onError
    case OnTimeout => cfg.onTimeout
    case After => cfg.after
    case OnResponse => cfg.onResponse
  }

  /** How many hooks of a stage must have run in state `s`, where that is certain: none before
      the stage, those before the current one within it, and all of them at the handler. */
  function Expected(cfg: Config, s: State, stage: Stage): Option<nat> {
    match stage
    case Before =>
      if s.core == CoreNew then Some(0)
      else if s.core.BeforeHook? then Some(s.core.i)
      else if s.core == InHandler || s.core == InOnion then Some(cfg.before) else None
    case OnError =>
      if s.core.ErrorHook? then Some(s.core.i) else if s.core != CoreDone then Some(0) else None
    case OnTimeout =>
      if s.timer == Armed || s.main == MainNew then Some(0)
      else if s.timer.TimeoutHook? && s.timer.i < cfg.onTimeout then Some(s.timer.i) else None
    case After =>
      if s.main == MainNew || s.main == Racing then Some(0) else if s.main.AfterHook? then Some(s.main.i) else None
    case OnResponse =>
      if s.main.Observing? then Some(s.main.i) else if s.main != Finished then Some(0) else None
  }

  ghost predicate InOrder(cfg: Config, s: State, ran: seq<nat>, stage: Stage) {
    && |ran| <= HookCount(cfg, stage) && ran == seq(|ran|, i => i)
    && (Expected(cfg, s, stage).Some? ==> |ran| == Expected(cfg, s, stage).value)
  }

  function More(s: State, a: Action, ran: seq<nat>, stage: Stage): seq<nat> {
    var h := Settling(s, a);
    ran + if h.Some? && h.value.0 == stage then [h.value.1] else []
  }

  lemma {:induction false} OneMore(n: nat)
    ensures seq(n, i => i) + [n] == seq(n + 1, i => i)
  {}

  lemma {:induction false} BeforeInOrder(cfg: Config, s: State, a: Action, ran: seq<nat>)
    requires Inv(cfg, s) && Enabled(cfg, s, a) && InOrder(cfg, s, ran, Before)
    ensures InOrder(cfg, Apply(cfg, s, a), More(s, a, ran, Before), Before)
  {
    OneMore(|ran|);
    if !a.CoreSettles? && !a.Start? { assert Apply(cfg, s, a).core == s.core; }
  }

  lemma {:induction false} ErrorInOrder(cfg: Config, s: State, a: Action, ran: seq<nat>)
    requires Inv(cfg, s) && Enabled(cfg, s, a) && InOrder(cfg, s, ran, OnError)
    ensures InOrder(cfg, Apply(cfg, s, a), More(s, a, ran, OnError), OnError)
  {
    OneMore(|ran|);
    if !a.CoreSettles? && !a.Start? { assert Apply(cfg, s, a).core == s.core; }
  }

  lemma {:induction false} TimeoutInOrder(cfg: Config, s: State, a: Action, ran: seq<nat>)
    requires Inv(cfg, s) && Enabled(cfg, s, a) && InOrder(cfg, s, ran, OnTimeout)
    ensures InOrder(cfg, Apply(cfg, s, a), More(s, a, ran, OnTimeout), OnTimeout)
  {
    OneMore(|ran|);
    if a.CoreSettles? { CoreGuarded(cfg, s, a.s); }
  }

  lemma {:induction false} AfterInOrder(cfg: Config, s: State, a: Action, ran: seq<nat>)
    requires Inv(cfg, s) && Enabled(cfg, s, a) && InOrder(cfg, s, ran, After)
    ensures InOrder(cfg, Apply(cfg, s, a), More(s, a, ran, After), After)
  {
    OneMore(|ran|);
    if a.CoreSettles? { CoreGuarded(cfg, s, a.s); }
  }

  lemma {:induction false} ResponseInOrder(cfg: Config, s: State, a: Action, ran: seq<nat>)
    requires Inv(cfg, s) && Enabled(cfg, s, a) && InOrder(cfg, s, ran, OnResponse)
    ensures InOrder(cfg, Apply(cfg, s, a), More(s, a, ran, OnResponse), OnResponse)
  {
    OneMore(|ran|);
    if a.CoreSettles? { CoreGuarded(cfg, s, a.s); }
  }

  lemma {:induction false} HooksNext(cfg: Config, tr: seq<State>, acts: seq<Action>, n: nat, stage: Stage)
    requires Run(cfg, tr, acts) && Init(tr[0]) && n < |acts| && InOrder(cfg, tr[n], Ran(tr, acts, n, stage), stage)
    ensures InOrder(cfg, tr[n + 1], Ran(tr, acts, n + 1, stage), stage)
  {
    InvAlong(cfg, tr, acts, n);
    var s, a, ran := tr[n], acts[n], Ran(tr, acts, n, stage);
    match stage
    case Before => BeforeInOrder(cfg, s, a, ran);
    case OnError => ErrorInOrder(cfg, s, a, ran);
    case OnTimeout => TimeoutInOrder(cfg, s, a, ran);
    case After => AfterInOrder(cfg, s, a, ran);
    case OnResponse => ResponseInOrder(cfg, s, a, ran);
  }

  /** In every stage the hooks run in order, each at most once and none is skipped: those
      before the current one have all settled well, no hook runs before its stage, and the
      handler or the onion is reached only after every "before" hook. */
  lemma {:induction false} HooksInOrder(cfg: Config, tr: seq<State>, acts: seq<Action>, n: nat, stage: Stage)
    requires Run(cfg, tr, acts) && Init(tr[0]) && n < |tr|
    ensures InOrder(cfg, tr[n], Ran(tr, acts, n, stage), stage)
  {
    if n > 0 {
      HooksInOrder(cfg, tr, acts, n - 1, stage);
      HooksNext(cfg, tr, acts, n - 1, stage);
    }
  }

  /** A "before" hook that settles well stops the chain exactly if something was answered by
      then; otherwise the next hook, the bare handler or the middleware follows. */
  lemma {:induction false} FirstAnswerStops(cfg: Config, tr: seq<State>, acts: seq<Action>, n: nat, r: Returned)
    requires Run(cfg, tr, acts) && n < |acts| && tr[n].core.BeforeHook? && acts[n] == CoreSettles(Resolved(r))
    ensures tr[n + 1].core ==
      if tr[n].ctx.finalized then CoreDone
      else if tr[n].core.i + 1 < cfg.before then BeforeHook(tr[n].core.i + 1)
      else if cfg.middleware == 0 then InHandler else InOnion
  {
    assert tr[n + 1] == Apply(cfg, tr[n], acts[n]);
  }

  /** The step that ended stage `stage` early. */
  predicate Breaks(a: Action, stage: Stage) {
    match stage
    case OnTimeout => a.TimeoutHookSettles? && !a.ok
    case After => a.AfterHookSettles? && a.s.Rejected?
    case OnResponse => (a.ObserverSettles? && !a.ok) || a.SendLastResort?
    case _ => false
  }

  /** The stage is over. */
  predicate StageOver(cfg: Config, s: State, stage: Stage) {
    match stage
    case OnTimeout => s.timer == TimerResolved || (s.timer.TimeoutHook? && s.timer.i == cfg.onTimeout)
    case After => s.main == Sending
    case OnResponse => s.main == Finished && cfg.found
    case _ => false
  }

  lemma {:induction false} EndsStage(cfg: Config, s: State, a: Action, ran: seq<nat>, stage: Stage)
    requires Inv(cfg, s) && Enabled(cfg, s, a) && InOrder(cfg, s, ran, stage)
    requires !StageOver(cfg, s, stage) && StageOver(cfg, Apply(cfg, s, a), stage) && !Breaks(a, stage)
    ensures |More(s, a, ran, stage)| == HookCount(cfg, stage)
  {
    if a.CoreSettles? { CoreGuarded(cfg, s, a.s); }
  }

  lemma {:induction false} AfterStage(cfg: Config, s: State, a: Action, stage: Stage)
    requires Inv(cfg, s) && Enabled(cfg, s, a) && StageOver(cfg, s, stage) && StageOver(cfg, Apply(cfg, s, a), stage)
    ensures !(Settling(s, a).Some? && Settling(s, a).value.0 == stage)
  {}

  lemma {:induction false} StageNext(cfg: Config, tr: seq<State>, acts: seq<Action>, n: nat, stage: Stage)
    requires Run(cfg, tr, acts) && Init(tr[0]) && n < |acts|
    requires StageOver(cfg, tr[n + 1], stage) && !Breaks(acts[n], stage)
    requires StageOver(cfg, tr[n], stage) ==> |Ran(tr, acts, n, stage)| == HookCount(cfg, stage)
    ensures |Ran(tr, acts, n + 1, stage)| == HookCount(cfg, stage)
  {
    InvAlong(cfg, tr, acts, n);
    if StageOver(cfg, tr[n], stage) {
      AfterStage(cfg, tr[n], acts[n], stage);
    } else {
      HooksInOrder(cfg, tr, acts, n, stage);
      EndsStage(cfg, tr[n], acts[n], Ran(tr, acts, n, stage), stage);
    }
  }

  /** No stage ends early: when the timeout closes, the response is sent or the dispatch is
      over, all onTimeout, preSerialization and onSend, or onResponse hooks have run, unless one
      of them failed (or nothing but the last resort was sent). */
  lemma {:induction false} AllHooksRan(cfg: Config, tr: seq<State>, acts: seq<Action>, n: nat, stage: Stage)
    requires Run(cfg, tr, acts) && Init(tr[0]) && n < |tr| && StageOver(cfg, tr[n], stage)
    requires forall k :: 0 <= k < n ==> !Breaks(acts[k], stage)
    ensures |Ran(tr, acts, n, stage)| == HookCount(cfg, stage)
  {
    if n > 0 {
      if StageOver(cfg, tr[n - 1], stage) { AllHooksRan(cfg, tr, acts, n - 1, stage); }
      StageNext(cfg, tr, acts, n - 1, stage);
    }
  }
}
