/** The bridge and the lifecycles together (src/bridge.rs, js/index.ts): every ticket JS takes
    from a batch runs its own lifecycle, whose native calls are `take_body` and `respond` on
    the shared bridge, under the ticket's truncated id. */
module RequestPath {
  import opened Common
  import opened ResponseContext
  import B = BridgeProtocol
  import Cells = BridgeCells
  import L = Lifecycle

  /** The chain and the request id of each ticket. */
  datatype Setup = Setup(chain: nat -> L.Config, idHeader: string, id: nat -> string)

  /** The lifecycle of ticket `k` is `life[k]`; it is new until the ticket is dispatched. */
  datatype State = State(bridge: B.State, life: seq<L.State>)

  datatype Action = OnBridge(b: B.Action) | Dispatch | Life(k: nat, a: L.Action)

  function New(p: Setup, k: nat): L.State {
    L.State(L.MainNew, L.CoreNew, L.TimerOff, L.Onion(-1, [], 0, false), Fresh(p.idHeader, p.id(k)),
            true, true, false, [], None)
  }

  predicate Init(s: State) { B.Init(s.bridge) && s.life == [] }

  /** The tickets of the current batch that are still to be dispatched. */
  function Batch(s: State): seq<nat> { if s.bridge.js.Dispatching? then s.bridge.js.batch else [] }

  // ---- native calls ----

  /** The step calls the native `takeBody`: `BodyRef` does until it has resolved. */
  predicate AsksBody(cfg: L.Config, l: L.State, a: L.Action) {
    && !l.bodyIo
    && ((a.Start? && cfg.found && cfg.watchDisconnect) || a.UserTakesBody? || (a.Send? && l.ctx.draft.stream.Some?))
  }

  /** The response with which the step calls the native `respond`. */
  function Answers(cfg: L.Config, l: L.State, a: L.Action): Option<NativeResponse> {
    if a.Start? then if cfg.found then None else Some(L.LAST_RESORT)
    else if a.SendLastResort? then Some(L.LAST_RESORT)
    else if a.Send? then
      var b := if l.ctx.draft.stream.Some? then L.TakeBody(l) else l;
      if (l.ctx.draft.stream.Some? && !b.bodyIo) || !a.accepted then None else Some(NativeOf(l.ctx.draft, cfg.strip))
    else None
  }

  function Native(cfg: L.Config, b: B.State, id: nat, l: L.State, a: L.Action): B.State {
    var b1 := if AsksBody(cfg, l, a) then B.Apply(b, B.TakeBody(id)) else b;
    var r := Answers(cfg, l, a);
    if r.Some? then B.Apply(b1, B.Respond(id, r.value)) else b1
  }

  /** Code of a finished ticket asks for its body under an id that is in use again
      (`BridgeProtocol.LateTakeBody` says what happens then). */
  predicate Stray(p: Setup, s: State, k: nat, a: L.Action)
    requires k < |s.life|
  {
    AsksBody(p.chain(k), s.life[k], a) && !s.life[k].pending && Cells.ReqId(k) in s.bridge.cells.pending
  }

  predicate Enabled(p: Setup, s: State, a: Action) {
    match a
    case OnBridge(b) => B.Enabled(s.bridge, b) && !b.Dispatch? && !b.TakeBody? && !b.Respond?
    case Dispatch =>
      B.Enabled(s.bridge, B.Dispatch) && Batch(s)[0] < |s.life| && s.life[Batch(s)[0]].main == L.MainNew
    case Life(k, b) => k < |s.life| && b != L.Start && L.Enabled(p.chain(k), s.life[k], b) && !Stray(p, s, k, b)
  }

  function Step(p: Setup, b: B.State, life: seq<L.State>, k: nat, a: L.Action): State
    requires k < |life| && L.Enabled(p.chain(k), life[k], a)
  {
    State(Native(p.chain(k), b, Cells.ReqId(k), life[k], a), life[k := L.Apply(p.chain(k), life[k], a)])
  }

  function Apply(p: Setup, s: State, a: Action): State
    requires Enabled(p, s, a)
  {
    match a
    case OnBridge(b) => State(B.Apply(s.bridge, b), if b.Issue? then s.life + [New(p, |s.life|)] else s.life)
    case Dispatch => Step(p, B.Apply(s.bridge, B.Dispatch), s.life, Batch(s)[0], L.Start)
    case Life(k, b) => Step(p, s.bridge, s.life, k, b)
  }

  ghost predicate Run(p: Setup, tr: seq<State>, acts: seq<Action>) {
    && |tr| == |acts| + 1
    && forall i {:trigger acts[i]} :: 0 <= i < |acts| ==>
         Enabled(p, tr[i], acts[i]) && tr[i + 1] == Apply(p, tr[i], acts[i])
  }

  // ---- the invariant ----

  /** The entry of ticket `k` and its lifecycle agree. */
  ghost predicate Coupled(b: B.State, k: nat, l: L.State) {
    && k < |b.outcomes| && k < |b.bodies|
    && (l.pending <==> b.outcomes[k] == B.Waiting)
    && (l.pending ==> (l.parts <==> b.bodies[k] == 0))
    && (!l.pending ==> |l.fired| == 1 && b.outcomes[k] == B.Completed(l.fired[0]))
  }

  ghost predicate AllCoupled(p: Setup, s: State) {
    && |s.life| == |s.bridge.tasks|
    && forall k :: 0 <= k < |s.life| ==> L.Inv(p.chain(k), s.life[k]) && Coupled(s.bridge, k, s.life[k])
  }

  /** The lifecycles begun are those of the tickets taken and already dispatched. */
  ghost predicate Begun(s: State) {
    && NoDuplicates(Batch(s)) && (forall k :: k in Batch(s) ==> k in Flatten(s.bridge.taken))
    && forall k :: 0 <= k < |s.life| ==>
         (s.life[k].main != L.MainNew <==> k in Flatten(s.bridge.taken) && k !in Batch(s))
  }

  ghost predicate Inv(p: Setup, s: State) {
    B.Inv(s.bridge) && B.Receipts(s.bridge) && AllCoupled(p, s) && Begun(s)
  }

  lemma {:induction false} NewLife(p: Setup, k: nat)
    ensures L.Init(New(p, k)) && L.Inv(p.chain(k), New(p, k))
  {}

  /** What one lifecycle step does to the flags that mirror the entry. */
  lemma {:induction false} LifeFlags(cfg: L.Config, l: L.State, a: L.Action)
    requires L.Inv(cfg, l) && L.Enabled(cfg, l, a)
    ensures var l', r := L.Apply(cfg, l, a), Answers(cfg, l, a);
      && l'.main != L.MainNew && (l'.pending <==> l.pending && r.None?)
      && (r.Some? ==> l.pending && l'.fired == [r.value]) && (r.None? ==> l'.fired == l.fired)
      && (l'.pending ==> (l'.parts <==> l.parts && !AsksBody(cfg, l, a)))
  {
    if a.CoreSettles? {
      L.CoreGuarded(cfg, l, a.s);
    } else if a.Send? {
      assert L.Latch(l).ctx.draft == l.ctx.draft;
    }
  }

  lemma {:induction false} TakeOwn(b: B.State, k: nat)
    requires B.Inv(b) && B.Receipts(b) && B.Registered(b, k)
    requires b.outcomes[k] != B.Waiting ==> Cells.ReqId(k) !in b.cells.pending
    ensures var b' := B.Apply(b, B.TakeBody(Cells.ReqId(k)));
      && B.Inv(b') && B.Receipts(b') && b' == b.(cells := b'.cells, bodies := b'.bodies)
      && b'.bodies == if b.outcomes[k] == B.Waiting then b.bodies[k := 1] else b.bodies
  {
    B.InvKept(b, B.TakeBody(Cells.ReqId(k)));
    B.ReceiptsKept(b, B.TakeBody(Cells.ReqId(k)));
  }

  lemma {:induction false} RespondOwn(b: B.State, k: nat, r: NativeResponse)
    requires B.Inv(b) && B.Receipts(b) && B.Registered(b, k) && b.outcomes[k] == B.Waiting
    ensures var b' := B.Apply(b, B.Respond(Cells.ReqId(k), r));
      && B.Inv(b') && B.Receipts(b')
      && b' == b.(cells := b'.cells, outcomes := b.outcomes[k := B.Completed(r)], received := b'.received)
  {
    B.InvKept(b, B.Respond(Cells.ReqId(k), r));
    B.ReceiptsKept(b, B.Respond(Cells.ReqId(k), r));
  }

  /** What the native calls of one step do to the bridge: only the ticket's own entry moves. */
  lemma {:induction false} NativeEffect(cfg: L.Config, b: B.State, k: nat, l: L.State, a: L.Action)
    requires B.Inv(b) && B.Receipts(b) && B.Registered(b, k) && Coupled(b, k, l)
    requires AsksBody(cfg, l, a) && !l.pending ==> Cells.ReqId(k) !in b.cells.pending
    requires Answers(cfg, l, a).Some? ==> l.pending
    ensures var b', r := Native(cfg, b, Cells.ReqId(k), l, a), Answers(cfg, l, a);
      && B.Inv(b') && B.Receipts(b')
      && b'.tasks == b.tasks && b'.js == b.js && b'.taken == b.taken
      && b'.outcomes == (if r.Some? then b.outcomes[k := B.Completed(r.value)] else b.outcomes)
      && b'.bodies == (if AsksBody(cfg, l, a) && l.pending then b.bodies[k := 1] else b.bodies)
  {
    var b1 := if AsksBody(cfg, l, a) then B.Apply(b, B.TakeBody(Cells.ReqId(k))) else b;
    if AsksBody(cfg, l, a) { TakeOwn(b, k); }
    var r := Answers(cfg, l, a);
    if r.Some? { RespondOwn(b1, k, r.value); }
  }

  lemma {:induction false} CoupledNext(cfg: L.Config, b: B.State, b': B.State, k: nat, l: L.State, a: L.Action)
    requires L.Inv(cfg, l) && L.Enabled(cfg, l, a) && Coupled(b, k, l)
    requires var r := Answers(cfg, l, a);
      && b'.outcomes == (if r.Some? then b.outcomes[k := B.Completed(r.value)] else b.outcomes)
      && b'.bodies == (if AsksBody(cfg, l, a) && l.pending then b.bodies[k := 1] else b.bodies)
    ensures Coupled(b', k, L.Apply(cfg, l, a))
  {
    LifeFlags(cfg, l, a);
  }

  lemma {:induction false} NativeKept(cfg: L.Config, b: B.State, k: nat, l: L.State, a: L.Action)
    requires B.Inv(b) && B.Receipts(b) && B.Registered(b, k)
    requires L.Inv(cfg, l) && L.Enabled(cfg, l, a) && Coupled(b, k, l)
    requires AsksBody(cfg, l, a) && !l.pending ==> Cells.ReqId(k) !in b.cells.pending
    ensures var b', l' := Native(cfg, b, Cells.ReqId(k), l, a), L.Apply(cfg, l, a);
      && L.Inv(cfg, l') && l'.main != L.MainNew && Coupled(b', k, l') && OnlyEntry(b, b', k)
  {
    LifeNext(cfg, l, a);
    NativeEffect(cfg, b, k, l, a);
    CoupledNext(cfg, b, Native(cfg, b, Cells.ReqId(k), l, a), k, l, a);
  }

  lemma {:induction false} LifeNext(cfg: L.Config, l: L.State, a: L.Action)
    requires L.Inv(cfg, l) && L.Enabled(cfg, l, a)
    ensures L.Inv(cfg, L.Apply(cfg, l, a)) && L.Apply(cfg, l, a).main != L.MainNew
    ensures Answers(cfg, l, a).Some? ==> l.pending
  {
    LifeFlags(cfg, l, a);
    L.InvKept(cfg, l, a);
  }

  /** The two bridges differ at most in what belongs to ticket `k`. */
  ghost predicate OnlyEntry(b: B.State, b': B.State, k: nat) {
    && B.Inv(b') && B.Receipts(b') && b'.tasks == b.tasks && b'.js == b.js && b'.taken == b.taken
    && |b'.outcomes| == |b.outcomes| && |b'.bodies| == |b.bodies|
    && (forall j :: 0 <= j < |b.outcomes| && j != k ==> b'.outcomes[j] == b.outcomes[j])
    && (forall j :: 0 <= j < |b.bodies| && j != k ==> b'.bodies[j] == b.bodies[j])
  }

  lemma {:induction false} StepKept(p: Setup, b: B.State, life: seq<L.State>, k: nat, a: L.Action)
    requires B.Inv(b) && B.Receipts(b) && AllCoupled(p, State(b, life)) && k < |life| && B.Registered(b, k)
    requires L.Enabled(p.chain(k), life[k], a)
    requires AsksBody(p.chain(k), life[k], a) && !life[k].pending ==> Cells.ReqId(k) !in b.cells.pending
    ensures var s' := Step(p, b, life, k, a);
      && OnlyEntry(b, s'.bridge, k) && AllCoupled(p, s') && s'.life == life[k := s'.life[k]]
      && s'.life[k].main != L.MainNew
  {
    LifeOf(p, b, life, k);
    NativeKept(p.chain(k), b, k, life[k], a);
    var s' := Step(p, b, life, k, a);
    OthersCoupled(p, b, s'.bridge, life, k, s'.life[k]);
  }

  lemma {:induction false} LifeOf(p: Setup, b: B.State, life: seq<L.State>, k: nat)
    requires AllCoupled(p, State(b, life)) && k < |life|
    ensures L.Inv(p.chain(k), life[k]) && Coupled(b, k, life[k])
  {}

  lemma {:induction false} OthersCoupled(
      p: Setup, b: B.State, b': B.State, life: seq<L.State>, k: nat, l: L.State)
    requires AllCoupled(p, State(b, life)) && k < |life| && OnlyEntry(b, b', k)
    requires L.Inv(p.chain(k), l) && Coupled(b', k, l)
    ensures AllCoupled(p, State(b', life[k := l]))
  {
    forall j | 0 <= j < |life| && j != k ensures Coupled(b', j, life[j]) { assert Coupled(b, j, life[j]); }
  }

  /** Steps of the bridge alone: no open ticket is lost while ids do not wrap. */
  lemma {:induction false} BridgeKeepsCoupling(p: Setup, s: State, b: B.Action)
    requires B.Inv(s.bridge) && B.WithinIdSpace(s.bridge) && AllCoupled(p, s) && Enabled(p, s, OnBridge(b))
    ensures AllCoupled(p, Apply(p, s, OnBridge(b)))
  {
    var s' := Apply(p, s, OnBridge(b));
    forall k | 0 <= k < |s'.life| ensures L.Inv(p.chain(k), s'.life[k]) && Coupled(s'.bridge, k, s'.life[k]) {
      if k < |s.life| {
        assert Coupled(s.bridge, k, s.life[k]);
        B.NoDropKept(s.bridge, b, k);
        if s.bridge.outcomes[k] != B.Waiting { B.DecidedKept(s.bridge, b, k); }
      } else {
        NewLife(p, k);
      }
    }
  }

  lemma {:induction false} TakenRegistered(b: B.State, k: nat)
    requires B.Inv(b) && k in Flatten(b.taken)
    ensures B.Registered(b, k)
  {
    assert k in Flatten(b.taken) + b.cells.queue;
    assert k in b.pushed;
  }

  lemma {:induction false} TakeBatchBegun(p: Setup, s: State)
    requires B.Inv(s.bridge) && Begun(s) && Enabled(p, s, OnBridge(B.TakeBatch))
    ensures Begun(Apply(p, s, OnBridge(B.TakeBatch)))
  {
    FlattenAppend(s.bridge.taken, s.bridge.cells.queue);
    NoDuplicatesApart(Flatten(s.bridge.taken), s.bridge.cells.queue);
  }

  lemma {:induction false} BridgeKeepsBegun(p: Setup, s: State, b: B.Action)
    requires B.Inv(s.bridge) && |s.life| == |s.bridge.tasks| && Begun(s) && Enabled(p, s, OnBridge(b))
    ensures Begun(Apply(p, s, OnBridge(b)))
  {
    if b.TakeBatch? {
      TakeBatchBegun(p, s);
    } else {
      var s' := Apply(p, s, OnBridge(b));
      assert s'.bridge.taken == s.bridge.taken && Batch(s') == Batch(s);
      if |s.life| in Flatten(s.bridge.taken) { TakenRegistered(s.bridge, |s.life|); }
    }
  }

  lemma {:induction false} DispatchBegun(s: State, s': State)
    requires Begun(s) && Batch(s) != [] && Batch(s') == Batch(s)[1..] && s'.bridge.taken == s.bridge.taken
    requires var k := Batch(s)[0];
      k < |s.life| == |s'.life| && s'.life == s.life[k := s'.life[k]] && s'.life[k].main != L.MainNew
    ensures Begun(s')
  {
    var batch := Batch(s);
    assert batch == [batch[0]] + batch[1..];
    NoDuplicatesApart([batch[0]], batch[1..]);
  }

  /** Taking the head off the batch changes nothing else in the bridge. */
  lemma {:induction false} DispatchedBridge(b: B.State)
    requires B.Inv(b) && B.Receipts(b) && B.Enabled(b, B.Dispatch)
    ensures var b' := B.Apply(b, B.Dispatch);
      && B.Inv(b') && B.Receipts(b') && b' == b.(js := b'.js)
      && (if b'.js.Dispatching? then b'.js.batch else []) == b.js.batch[1..]
  {
    B.InvKept(b, B.Dispatch);
    B.ReceiptsKept(b, B.Dispatch);
  }

  lemma {:induction false} DispatchStepKept(p: Setup, s: State, b: B.State, k: nat)
    requires Inv(p, s) && Batch(s) != [] && k == Batch(s)[0] && k < |s.life| && s.life[k].main == L.MainNew
    requires B.Inv(b) && B.Receipts(b) && b == s.bridge.(js := b.js)
    requires (if b.js.Dispatching? then b.js.batch else []) == Batch(s)[1..]
    ensures Inv(p, Step(p, b, s.life, k, L.Start))
  {
    TakenRegistered(s.bridge, k);
    SameCoupling(p, s.bridge, b, s.life);
    LifeOf(p, b, s.life, k);
    assert s.life[k].pending;
    StepKept(p, b, s.life, k, L.Start);
    DispatchBegun(s, Step(p, b, s.life, k, L.Start));
  }

  lemma {:induction false} DispatchKept(p: Setup, s: State)
    requires Inv(p, s) && Enabled(p, s, Dispatch)
    ensures Inv(p, Apply(p, s, Dispatch))
  {
    DispatchedBridge(s.bridge);
    DispatchStepKept(p, s, B.Apply(s.bridge, B.Dispatch), Batch(s)[0]);
  }

  lemma {:induction false} SameCoupling(p: Setup, b: B.State, b': B.State, life: seq<L.State>)
    requires AllCoupled(p, State(b, life))
    requires b'.tasks == b.tasks && b'.outcomes == b.outcomes && b'.bodies == b.bodies
    ensures AllCoupled(p, State(b', life))
  {
    forall j | 0 <= j < |life| ensures Coupled(b', j, life[j]) { assert Coupled(b, j, life[j]); }
  }

  lemma {:induction false} LifeKept(p: Setup, s: State, k: nat, a: L.Action)
    requires Inv(p, s) && Enabled(p, s, Life(k, a))
    ensures Inv(p, Apply(p, s, Life(k, a)))
  {
    assert s.life[k].main != L.MainNew;
    TakenRegistered(s.bridge, k);
    assert State(s.bridge, s.life) == s;
    StepKept(p, s.bridge, s.life, k, a);
  }

  lemma {:induction false} InvKept(p: Setup, s: State, a: Action)
    requires Inv(p, s) && B.WithinIdSpace(s.bridge) && Enabled(p, s, a)
    ensures Inv(p, Apply(p, s, a))
  {
    if a.OnBridge? {
      B.InvKept(s.bridge, a.b);
      B.ReceiptsKept(s.bridge, a.b);
      BridgeKeepsCoupling(p, s, a.b);
      BridgeKeepsBegun(p, s, a.b);
    } else if a == Dispatch {
      DispatchKept(p, s);
    } else {
      LifeKept(p, s, a.k, a.a);
    }
  }

  lemma {:induction false} InvNext(p: Setup, tr: seq<State>, acts: seq<Action>, i: nat)
    requires Run(p, tr, acts) && i < |acts| && Inv(p, tr[i]) && B.WithinIdSpace(tr[i].bridge)
    ensures Inv(p, tr[i + 1])
  {
    InvKept(p, tr[i], acts[i]);
  }

  lemma {:induction false} InvAlong(p: Setup, tr: seq<State>, acts: seq<Action>, i: nat)
    requires Run(p, tr, acts) && Init(tr[0]) && i < |tr|
    requires forall n :: 0 <= n < |tr| ==> B.WithinIdSpace(tr[n].bridge)
    ensures Inv(p, tr[i])
  {
    if i > 0 {
      InvAlong(p, tr, acts, i - 1);
      InvNext(p, tr, acts, i - 1);
    }
  }

  // ---- every request is answered ----

  /** Nothing is left to do but what hanging code holds up. */
  ghost predicate Resting(p: Setup, s: State, h: L.Hangs) {
    && B.Stuck(s.bridge)
    && forall k :: 0 <= k < |s.life| && s.life[k].main != L.MainNew ==> L.Stuck(p.chain(k), s.life[k], h)
  }

  /** What became of ticket `k`: its lifecycle answered once, the bridge completed it with that
      answer, and its client received it unless it had disconnected. */
  ghost predicate Served(s: State, k: nat) {
    && k < |s.life| && |s.life[k].fired| == 1 && k < |s.bridge.outcomes|
    && s.bridge.outcomes[k] == B.Completed(s.life[k].fired[0])
    && (k in s.bridge.received ==> s.bridge.received[k] == s.life[k].fired[0])
    && (k !in s.bridge.gone ==> k in s.bridge.received)
  }

  /** From socket to answer: in every run in which no id wraps round onto an open ticket, once
      nothing is left to do every request issued has been delivered to JS, answered exactly
      once and completed with that very answer, unless its chain lets hanging code keep it. */
  lemma {:induction false} EveryRequestServed(p: Setup, tr: seq<State>, acts: seq<Action>, h: L.Hangs, k: nat)
    requires Run(p, tr, acts) && Init(tr[0]) && Resting(p, tr[|acts|], h)
    requires forall n :: 0 <= n < |tr| ==> B.WithinIdSpace(tr[n].bridge)
    requires k < |tr[|acts|].bridge.tasks|
    ensures Served(tr[|acts|], k) || L.MayHang(p.chain(k), h)
  {
    var s := tr[|acts|];
    InvAlong(p, tr, acts, |acts|);
    B.StuckMeansDelivered(s.bridge);
    assert s.life[k].main != L.MainNew;
    assert L.Inv(p.chain(k), s.life[k]) && Coupled(s.bridge, k, s.life[k]);
    L.RestsAnsweredIff(p.chain(k), s.life[k], h);
  }

  // ---- progress ----

  function LifeRank(p: Setup, life: seq<L.State>): nat {
    if life == [] then 0
    else LifeRank(p, life[..|life| - 1]) + L.Rank(p.chain(|life| - 1), life[|life| - 1])
  }

  function Rank(p: Setup, s: State): nat { B.Rank(s.bridge) + LifeRank(p, s.life) }

  predicate Progress(a: Action) {
    match a case OnBridge(b) => B.Delivers(b) case Dispatch => true case Life(_, b) => L.Progress(b)
  }

  lemma {:induction false} LifeRankUpdate(p: Setup, life: seq<L.State>, k: nat, l: L.State)
    requires k < |life|
    ensures LifeRank(p, life[k := l]) == LifeRank(p, life) - L.Rank(p.chain(k), life[k]) + L.Rank(p.chain(k), l)
  {
    var n := |life| - 1;
    if k == n {
      assert life[k := l][..n] == life[..n];
    } else {
      assert life[k := l][..n] == life[..n][k := l];
      LifeRankUpdate(p, life[..n], k, l);
    }
  }

  lemma {:induction false} NativeKeepsRank(cfg: L.Config, b: B.State, id: nat, l: L.State, a: L.Action)
    ensures B.Rank(Native(cfg, b, id, l, a)) == B.Rank(b)
  {
    B.RankFalls(b, B.TakeBody(id));
    var b1 := if AsksBody(cfg, l, a) then B.Apply(b, B.TakeBody(id)) else b;
    var r := Answers(cfg, l, a);
    if r.Some? { B.RankFalls(b1, B.Respond(id, r.value)); }
  }

  lemma {:induction false} StepRank(p: Setup, b: B.State, life: seq<L.State>, k: nat, a: L.Action)
    requires k < |life| && L.Enabled(p.chain(k), life[k], a) && L.Inv(p.chain(k), life[k])
    ensures Rank(p, Step(p, b, life, k, a)) + (if L.Progress(a) then 1 else 0) <= Rank(p, State(b, life))
  {
    NativeKeepsRank(p.chain(k), b, Cells.ReqId(k), life[k], a);
    L.RankFalls(p.chain(k), life[k], a);
    LifeRankUpdate(p, life, k, L.Apply(p.chain(k), life[k], a));
  }

  lemma {:induction false} RankFalls(p: Setup, s: State, a: Action)
    requires Inv(p, s) && Enabled(p, s, a) && a != OnBridge(B.Issue)
    ensures Rank(p, Apply(p, s, a)) + (if Progress(a) then 1 else 0) <= Rank(p, s)
  {
    match a
    case OnBridge(b) => B.RankFalls(s.bridge, b);
    case Dispatch =>
      B.RankFalls(s.bridge, B.Dispatch);
      StepRank(p, B.Apply(s.bridge, B.Dispatch), s.life, Batch(s)[0], L.Start);
    case Life(k, b) => StepRank(p, s.bridge, s.life, k, b);
  }

  lemma {:induction false} RankNext(p: Setup, tr: seq<State>, acts: seq<Action>, i: nat)
    requires Run(p, tr, acts) && i < |acts| && Inv(p, tr[i]) && acts[i] != OnBridge(B.Issue)
    ensures Rank(p, tr[i + 1]) + (if Progress(acts[i]) then 1 else 0) <= Rank(p, tr[i])
  {
    RankFalls(p, tr[i], acts[i]);
  }

  function ProgressSteps(acts: seq<Action>): nat {
    if acts == [] then 0
    else ProgressSteps(acts[..|acts| - 1]) + if Progress(acts[|acts| - 1]) then 1 else 0
  }

  lemma {:induction false} ProgressNext(acts: seq<Action>, i: nat)
    requires i < |acts|
    ensures ProgressSteps(acts[..i + 1]) == ProgressSteps(acts[..i]) + if Progress(acts[i]) then 1 else 0
  {
    assert acts[..i + 1][..i] == acts[..i];
  }

  /** Without new requests the whole system makes at most rank many progress steps: it does come
      to rest. */
  lemma {:induction false} ComesToRest(p: Setup, tr: seq<State>, acts: seq<Action>, i: nat)
    requires Run(p, tr, acts) && Inv(p, tr[0]) && i < |tr|
    requires forall n :: 0 <= n < |tr| ==> B.WithinIdSpace(tr[n].bridge)
    requires forall n :: 0 <= n < |acts| ==> acts[n] != OnBridge(B.Issue)
    ensures Inv(p, tr[i]) && ProgressSteps(acts[..i]) + Rank(p, tr[i]) <= Rank(p, tr[0])
  {
    if i > 0 {
      ComesToRest(p, tr, acts, i - 1);
      InvNext(p, tr, acts, i - 1);
      RankNext(p, tr, acts, i - 1);
      ProgressNext(acts, i - 1);
    }
  }
}
