/** The bridge under every interleaving (src/bridge.rs, js/index.ts): any number of request
    tasks run `next_req_id` and the three atomic steps of `enqueue` against one JS thread
    that wakes on the doorbell and drains with `takeBatch` until it gets nothing. */
module BridgeProtocol {
  import opened Common
  import B = BridgeCells
  import C = ResponseContext

  /** How far the task of one ticket is inside `enqueue`. */
  datatype Task = Registering | Inserted | OwesRing | Enqueued

  /** The completion channel of one ticket. `Dropped`: its sender was overwritten. */
  datatype Outcome = Waiting | Completed(response: C.NativeResponse) | Dropped

  /** The JS thread: outside the drain loop, about to call `takeBatch`, or running the
      dispatches of a batch with a `takeBatch` still to come. */
  datatype Js = Idle | Draining | Dispatching(batch: seq<nat>)

  datatype State = State(
    cells: B.Cells,
    tasks: seq<Task>,
    outcomes: seq<Outcome>,
    bodies: seq<nat>,        // how many times each ticket's body was handed out
    gone: set<nat>,          // tickets whose client disconnected
    received: map<nat, C.NativeResponse>,  // what reached a client still connected
    js: Js,
    pushed: seq<nat>,        // every push so far
    taken: seq<seq<nat>>)    // every batch taken so far

  /** `TakeBody` and `Respond` may name any id at any time: user code is not trusted. */
  datatype Action =
    | Issue
    | Insert(k: nat)
    | Push(k: nat)
    | Ring(k: nat)
    | Wake
    | TakeBatch
    | Dispatch
    | TakeBody(id: nat)
    | Respond(id: nat, response: C.NativeResponse)
    | HangUp(k: nat)

  predicate Init(s: State) {
    s == State(B.Cells(0, map[], [], 0), [], [], [], {}, map[], Idle, [], [])
  }

  predicate Enabled(s: State, a: Action) {
    match a
    case Issue => true
    case Insert(k) => k < |s.tasks| && s.tasks[k] == Registering
    case Push(k) => k < |s.tasks| && s.tasks[k] == Inserted
    case Ring(k) => k < |s.tasks| && s.tasks[k] == OwesRing
    case Wake => s.js == Idle && s.cells.doorbells > 0
    case TakeBatch => s.js == Draining
    case Dispatch => s.js.Dispatching? && s.js.batch != []
    case TakeBody(_) => true
    case Respond(_, _) => true
    case HangUp(k) => k < |s.tasks| && s.tasks[k] == Enqueued
  }

  function Owner(s: State, id: nat): Option<nat> {
    if id in s.cells.pending then Some(s.cells.pending[id].owner) else None
  }

  function SetOutcome(s: State, k: Option<nat>, o: Outcome): seq<Outcome> {
    if k.Some? && k.value < |s.outcomes| then s.outcomes[k.value := o] else s.outcomes
  }

  function Apply(s: State, a: Action): State
    requires Enabled(s, a)
  {
    match a
    case Issue =>
      s.(cells := B.Issue(s.cells), tasks := s.tasks + [Registering],
         outcomes := s.outcomes + [Waiting], bodies := s.bodies + [0])
    case Insert(k) =>
      s.(cells := B.Insert(s.cells, k), tasks := s.tasks[k := Inserted],
         outcomes := SetOutcome(s, Owner(s, B.ReqId(k)), Dropped))
    case Push(k) =>
      s.(cells := B.Push(s.cells, k), pushed := s.pushed + [k],
         tasks := s.tasks[k := if s.cells.queue == [] then OwesRing else Enqueued])
    case Ring(k) => s.(cells := B.Ring(s.cells), tasks := s.tasks[k := Enqueued])
    case Wake => s.(cells := s.cells.(doorbells := s.cells.doorbells - 1), js := Draining)
    case TakeBatch =>
      s.(cells := B.Take(s.cells), taken := s.taken + [s.cells.queue],
         js := if s.cells.queue == [] then Idle else Dispatching(s.cells.queue))
    case Dispatch => s.(js := if |s.js.batch| == 1 then Draining else Dispatching(s.js.batch[1..]))
    case TakeBody(id) =>
      var k := Owner(s, id);
      s.(cells := B.TakeBody(s.cells, id),
         bodies := if k.Some? && k.value < |s.bodies| && s.cells.pending[id].body
                   then s.bodies[k.value := s.bodies[k.value] + 1] else s.bodies)
    case Respond(id, r) =>
      var k := Owner(s, id);
      s.(cells := B.Respond(s.cells, id), outcomes := SetOutcome(s, k, Completed(r)),
         received := if k.Some? && k.value !in s.gone then s.received[k.value := r] else s.received)
    // The request future is dropped, the entry stays: a response to it is then lost.
    case HangUp(k) => s.(gone := s.gone + {k})
  }

  /** A finite run: `tr[i]` is the state before action `acts[i]`. */
  ghost predicate Run(tr: seq<State>, acts: seq<Action>) {
    && |tr| == |acts| + 1
    && forall i {:trigger acts[i]} :: 0 <= i < |acts| ==> Enabled(tr[i], acts[i]) && tr[i + 1] == Apply(tr[i], acts[i])
  }

  /** The environment is free: requests arrive and ids are answered or asked for at any time,
      and any client of a queued or later request may hang up. */
  lemma {:induction false} EnvironmentIsFree(s: State, id: nat, r: C.NativeResponse)
    ensures Enabled(s, Issue) && Enabled(s, TakeBody(id)) && Enabled(s, Respond(id, r))
    ensures forall k :: 0 <= k < |s.tasks| && s.tasks[k] == Enqueued ==> Enabled(s, HangUp(k))
  {}

  // ---- the invariant ----

  /** Some step that leads to a `takeBatch` is still to come. */
  ghost predicate WakeupDue(s: State) {
    (exists k :: 0 <= k < |s.tasks| && s.tasks[k] == OwesRing) || s.cells.doorbells > 0 || s.js != Idle
  }

  ghost predicate Registered(s: State, k: nat) { k < |s.tasks| && s.tasks[k] != Registering }

  ghost predicate Shape(s: State) {
    && |s.tasks| == |s.outcomes| == |s.bodies| == s.cells.issued
    && (s.js.Dispatching? ==> s.js.batch != [])
  }

  ghost predicate Tickets(s: State)
    requires Shape(s)
  {
    && (forall id :: id in s.cells.pending ==>
          var e := s.cells.pending[id];
          && Registered(s, e.owner) && B.ReqId(e.owner) == id
          && s.outcomes[e.owner] == Waiting && s.bodies[e.owner] == (if e.body then 0 else 1))
    && (forall k: nat :: Registered(s, k) && s.outcomes[k] == Waiting ==>
          B.ReqId(k) in s.cells.pending && s.cells.pending[B.ReqId(k)].owner == k)
    && (forall k :: 0 <= k < |s.tasks| && s.tasks[k] == Registering ==> s.outcomes[k] == Waiting && s.bodies[k] == 0)
    && (forall k :: 0 <= k < |s.bodies| ==> s.bodies[k] <= 1)
  }

  ghost predicate Delivery(s: State)
    requires Shape(s)
  {
    && Flatten(s.taken) + s.cells.queue == s.pushed
    && NoDuplicates(s.pushed)
    && (forall k :: k in s.pushed <==> 0 <= k < |s.tasks| && (s.tasks[k] == OwesRing || s.tasks[k] == Enqueued))
  }

  ghost predicate Inv(s: State) {
    && Shape(s) && Tickets(s) && Delivery(s)
    && (s.cells.queue != [] ==> WakeupDue(s))
  }

  lemma {:induction false} IssueTickets(s: State)
    requires Shape(s) && Tickets(s)
    ensures Shape(Apply(s, Issue)) && Tickets(Apply(s, Issue))
  {
    var s' := Apply(s, Issue);
    assert forall j: nat :: Registered(s', j) ==> Registered(s, j);
  }

  lemma {:induction false} InsertTickets(s: State, k: nat)
    requires Shape(s) && Tickets(s) && Enabled(s, Insert(k))
    ensures Shape(Apply(s, Insert(k))) && Tickets(Apply(s, Insert(k)))
  {
    var s' := Apply(s, Insert(k));
    forall j: nat | Registered(s', j) && s'.outcomes[j] == Waiting
      ensures B.ReqId(j) in s'.cells.pending && s'.cells.pending[B.ReqId(j)].owner == j
    {
      if j != k { assert Registered(s, j); }
    }
    forall id | id in s'.cells.pending && id != B.ReqId(k)
      ensures s'.outcomes[s'.cells.pending[id].owner] == Waiting {}
  }

  lemma {:induction false} TakeBodyTickets(s: State, id: nat)
    requires Shape(s) && Tickets(s)
    ensures Shape(Apply(s, TakeBody(id))) && Tickets(Apply(s, TakeBody(id)))
  {
    assert forall j: nat :: Registered(Apply(s, TakeBody(id)), j) <==> Registered(s, j);
  }

  lemma {:induction false} RespondTickets(s: State, id: nat, r: C.NativeResponse)
    requires Shape(s) && Tickets(s)
    ensures Shape(Apply(s, Respond(id, r))) && Tickets(Apply(s, Respond(id, r)))
  {
    assert forall j: nat :: Registered(Apply(s, Respond(id, r)), j) <==> Registered(s, j);
  }

  lemma {:induction false} TicketsKept(s: State, a: Action)
    requires Shape(s) && Tickets(s) && Enabled(s, a)
    ensures Shape(Apply(s, a)) && Tickets(Apply(s, a))
  {
    if a.Issue? {
      IssueTickets(s);
    } else if a.Insert? {
      InsertTickets(s, a.k);
    } else if a.TakeBody? {
      TakeBodyTickets(s, a.id);
    } else if a.Respond? {
      RespondTickets(s, a.id, a.response);
    } else {
      assert forall j: nat :: Registered(Apply(s, a), j) <==> Registered(s, j);
    }
  }

  lemma {:induction false} PushDelivery(s: State, k: nat)
    requires Shape(s) && Delivery(s) && Enabled(s, Push(k))
    ensures Delivery(Apply(s, Push(k)))
  {
    var s' := Apply(s, Push(k));
    assert k !in s.pushed;
    assert Flatten(s'.taken) + s'.cells.queue == (Flatten(s.taken) + s.cells.queue) + [k];
    forall j ensures j in s'.pushed <==> 0 <= j < |s'.tasks| && (s'.tasks[j] == OwesRing || s'.tasks[j] == Enqueued) {
      assert j in s'.pushed <==> j in s.pushed || j == k;
    }
  }

  lemma {:induction false} DeliveryKept(s: State, a: Action)
    requires Shape(s) && Delivery(s) && Enabled(s, a)
    ensures Shape(Apply(s, a)) && Delivery(Apply(s, a))
  {
    if a.Push? {
      PushDelivery(s, a.k);
    } else if a.TakeBatch? {
      FlattenAppend(s.taken, s.cells.queue);
    } else {
      assert Apply(s, a).taken == s.taken && Apply(s, a).cells.queue == s.cells.queue;
    }
  }

  lemma {:induction false} WakeupKept(s: State, a: Action)
    requires Inv(s) && Enabled(s, a)
    ensures Apply(s, a).cells.queue != [] ==> WakeupDue(Apply(s, a))
  {
    var s' := Apply(s, a);
    if s'.cells.queue != [] && s'.cells.doorbells == 0 && s'.js == Idle {
      if a.Push? && s.cells.queue == [] {
        assert s'.tasks[a.k] == OwesRing;
      } else {
        var k :| 0 <= k < |s.tasks| && s.tasks[k] == OwesRing;
        assert s'.tasks[k] == OwesRing;
      }
    }
  }

  lemma {:induction false} InvKept(s: State, a: Action)
    requires Inv(s) && Enabled(s, a)
    ensures Inv(Apply(s, a))
  {
    TicketsKept(s, a);
    DeliveryKept(s, a);
    WakeupKept(s, a);
  }

  lemma {:induction false} InvAlong(tr: seq<State>, acts: seq<Action>, i: nat)
    requires Run(tr, acts) && Inv(tr[0]) && i < |tr|
    ensures Inv(tr[i])
  {
    if i > 0 {
      InvAlong(tr, acts, i - 1);
      InvKept(tr[i - 1], acts[i - 1]);
    }
  }

  // ---- safety over whole runs ----

  /** No lost wakeup. */
  lemma {:induction false} NoLostWakeup(tr: seq<State>, acts: seq<Action>)
    requires Run(tr, acts) && Init(tr[0])
    ensures forall i :: 0 <= i < |tr| && tr[i].cells.queue != [] ==> WakeupDue(tr[i])
  {
    forall i | 0 <= i < |tr| ensures Inv(tr[i]) { InvAlong(tr, acts, i); }
  }

  /** Exactly-once FIFO delivery: what JS took, then what is queued, is what was pushed,
      and no ticket occurs twice in it. */
  lemma {:induction false} ExactlyOnceFifo(tr: seq<State>, acts: seq<Action>, i: nat)
    requires Run(tr, acts) && Init(tr[0]) && i < |tr|
    ensures Flatten(tr[i].taken) + tr[i].cells.queue == tr[i].pushed
    ensures NoDuplicates(Flatten(tr[i].taken) + tr[i].cells.queue)
  {
    InvAlong(tr, acts, i);
  }

  /** Ticket conservation: the pending ids are the ids of the tickets that were registered
      and neither answered nor overwritten, whatever disconnected; a queued ticket was
      registered first; no body is handed out twice, nor after the ticket is finished. */
  lemma {:induction false} TicketConservation(tr: seq<State>, acts: seq<Action>, i: nat)
    requires Run(tr, acts) && Init(tr[0]) && i < |tr|
    ensures |tr[i].tasks| == |tr[i].outcomes| == |tr[i].bodies|
    ensures tr[i].cells.pending.Keys
         == set k: nat | 0 <= k < |tr[i].tasks| && Registered(tr[i], k) && tr[i].outcomes[k] == Waiting :: B.ReqId(k)
    ensures forall k: nat :: Registered(tr[i], k) && tr[i].outcomes[k] == Waiting ==>
              B.ReqId(k) in tr[i].cells.pending && tr[i].cells.pending[B.ReqId(k)].owner == k
    ensures forall k: nat :: k in tr[i].cells.queue ==> Registered(tr[i], k)
    ensures forall k :: 0 <= k < |tr[i].bodies| ==> tr[i].bodies[k] <= 1
  {
    InvAlong(tr, acts, i);
    var s := tr[i];
    forall k: nat | k in s.cells.queue ensures Registered(s, k) { assert k in s.pushed; }
    forall id | id in s.cells.pending
      ensures exists k: nat :: 0 <= k < |s.tasks| && Registered(s, k) && s.outcomes[k] == Waiting && B.ReqId(k) == id
    {
      var k := s.cells.pending[id].owner;
      assert Registered(s, k);
    }
  }

  /** A `respond` for the id of an open ticket answers that ticket, and no other. */
  lemma {:induction false} RespondAnswersTicket(tr: seq<State>, acts: seq<Action>, i: nat, k: nat, r: C.NativeResponse)
    requires Run(tr, acts) && Init(tr[0]) && i < |tr| && Registered(tr[i], k)
    ensures k < |tr[i].outcomes|
    ensures tr[i].outcomes[k] == Waiting ==>
              Apply(tr[i], Respond(B.ReqId(k), r)).outcomes == tr[i].outcomes[k := Completed(r)]
  {
    TicketConservation(tr, acts, i);
    if tr[i].outcomes[k] == Waiting { assert Owner(tr[i], B.ReqId(k)) == Some(k); }
  }

  /** What clients got is what their tickets were completed with, and a completed ticket whose
      client got nothing had lost its client. */
  ghost predicate Receipts(s: State) {
    && (forall k :: k in s.received ==> k < |s.outcomes| && s.outcomes[k] == Completed(s.received[k]))
    && (forall k :: 0 <= k < |s.outcomes| && s.outcomes[k].Completed? && k !in s.received ==> k in s.gone)
  }

  lemma {:induction false} ReceiptsKept(s: State, a: Action)
    requires Shape(s) && Tickets(s) && Receipts(s) && Enabled(s, a)
    ensures Receipts(Apply(s, a))
  {
    var s' := Apply(s, a);
    forall k | k in s.received && !a.Respond? ensures s'.outcomes[k] == Completed(s.received[k]) {
      DecidedKept(s, a, k);
    }
    if a.Respond? { assert Owner(s, a.id).Some? ==> Owner(s, a.id).value !in s.received; }
  }

  lemma {:induction false} ReceiptsNext(tr: seq<State>, acts: seq<Action>, i: nat)
    requires Run(tr, acts) && Init(tr[0]) && i < |acts| && Receipts(tr[i])
    ensures Receipts(tr[i + 1])
  {
    InvAlong(tr, acts, i);
    ReceiptsKept(tr[i], acts[i]);
  }

  /** A client still connected receives exactly what its ticket is completed with, and a
      disconnect never reaches another client. */
  lemma {:induction false} ClientsReceive(tr: seq<State>, acts: seq<Action>, i: nat)
    requires Run(tr, acts) && Init(tr[0]) && i < |tr|
    ensures Receipts(tr[i])
  {
    if i > 0 {
      ClientsReceive(tr, acts, i - 1);
      ReceiptsNext(tr, acts, i - 1);
    }
  }

  /** A client that disconnected before its answer receives nothing any more, although its
      entry stays pending until it is answered. */
  lemma {:induction false} GoneReceiveNothing(tr: seq<State>, acts: seq<Action>, i: nat, j: nat, k: nat)
    requires Run(tr, acts) && i <= j < |tr| && k in tr[i].gone && k !in tr[i].received
    ensures k in tr[j].gone && k !in tr[j].received
  {
    if i < j {
      GoneReceiveNothing(tr, acts, i, j - 1, k);
      assert tr[j] == Apply(tr[j - 1], acts[j - 1]);
    }
  }

  lemma {:induction false} DecidedKept(s: State, a: Action, k: nat)
    requires Shape(s) && Tickets(s) && Enabled(s, a)
    requires k < |s.outcomes| && s.outcomes[k] != Waiting
    ensures var s' := Apply(s, a);
            k < |s'.outcomes| && k < |s'.bodies| && s'.outcomes[k] == s.outcomes[k] && s'.bodies[k] == s.bodies[k]
  {
    if a.Insert? {
      assert Owner(s, B.ReqId(a.k)) != Some(k);
    } else if a.Respond? || a.TakeBody? {
      assert Owner(s, a.id) != Some(k);
    }
  }

  lemma {:induction false} DecidedNext(tr: seq<State>, acts: seq<Action>, i: nat, k: nat)
    requires Run(tr, acts) && Init(tr[0]) && i < |acts|
    requires k < |tr[i].outcomes| && tr[i].outcomes[k] != Waiting
    ensures k < |tr[i].bodies| && k < |tr[i + 1].outcomes| && k < |tr[i + 1].bodies|
    ensures tr[i + 1].outcomes[k] == tr[i].outcomes[k] && tr[i + 1].bodies[k] == tr[i].bodies[k]
  {
    InvAlong(tr, acts, i);
    DecidedKept(tr[i], acts[i], k);
  }

  /** Each completion channel is decided at most once, and a decided ticket's body is
      never handed out again. */
  lemma {:induction false} DecidedOnce(tr: seq<State>, acts: seq<Action>, i: nat, j: nat, k: nat)
    requires Run(tr, acts) && Init(tr[0]) && i < j < |tr|
    requires k < |tr[i].outcomes| && tr[i].outcomes[k] != Waiting
    ensures k < |tr[i].bodies| && k < |tr[j].outcomes| && k < |tr[j].bodies|
    ensures tr[j].outcomes[k] == tr[i].outcomes[k] && tr[j].bodies[k] == tr[i].bodies[k]
  {
    if i < j - 1 { DecidedOnce(tr, acts, i, j - 1, k); }
    DecidedNext(tr, acts, j - 1, k);
  }

  /** Code of a finished ticket that asks for its body late gets nothing, unless its truncated
      id is in use again with the body still there: then it takes that ticket's body. */
  lemma {:induction false} LateTakeBody(s: State, k: nat)
    requires Inv(s) && Registered(s, k) && s.outcomes[k] != Waiting
    ensures var id := B.ReqId(k);
      var s' := Apply(s, TakeBody(id));
      if id in s.cells.pending && s.cells.pending[id].body
      then
        var j := s.cells.pending[id].owner;
        j != k && B.ReqId(j) == id && s'.bodies == s.bodies[j := 1]
      else s' == s
  {
    var id := B.ReqId(k);
    if id in s.cells.pending {
      var e := s.cells.pending[id];
      assert Registered(s, e.owner);
      if !e.body { assert s.cells.pending[id := e] == s.cells.pending; }
    }
  }

  /** `respond` is idempotent: a second one for the same id changes nothing. */
  lemma {:induction false} RespondIdempotent(s: State, id: nat, r1: C.NativeResponse, r2: C.NativeResponse)
    ensures Apply(Apply(s, Respond(id, r1)), Respond(id, r2)) == Apply(s, Respond(id, r1))
  {
    var s1 := Apply(s, Respond(id, r1));
    assert s1.cells.pending - {id} == s1.cells.pending;
  }

  /** No unfinished ticket is a whole id space older than the newest one. */
  ghost predicate WithinIdSpace(s: State) {
    forall k :: 0 <= k < |s.outcomes| && s.outcomes[k] == Waiting ==> |s.outcomes| - k <= B.ID_SPACE
  }

  lemma {:induction false} SameIdFarApart(j: nat, k: nat)
    requires B.ReqId(j) == B.ReqId(k) && j < k
    ensures k - j >= B.ID_SPACE
  {
    var d := k / B.ID_SPACE - j / B.ID_SPACE;
    assert k - j == B.ID_SPACE * d;
  }

  /** Registering a ticket loses another one exactly when that one is still pending under
      the same truncated id. */
  lemma {:induction false} InsertDropsIff(s: State, k: nat, j: nat)
    requires Inv(s) && Enabled(s, Insert(k)) && j < |s.outcomes| && s.outcomes[j] == Waiting
    ensures Apply(s, Insert(k)).outcomes[j] == Dropped
       <==> Registered(s, j) && B.ReqId(j) == B.ReqId(k)
  {
    var id := B.ReqId(k);
    if id in s.cells.pending { assert Registered(s, s.cells.pending[id].owner); }
  }

  lemma {:induction false} NoDropKept(s: State, a: Action, k: nat)
    requires Inv(s) && WithinIdSpace(s) && Enabled(s, a)
    requires k < |s.outcomes| && s.outcomes[k] != Dropped
    ensures k < |Apply(s, a).outcomes| && Apply(s, a).outcomes[k] != Dropped
  {
    if s.outcomes[k] != Waiting {
      DecidedKept(s, a, k);
    } else if a.Insert? {
      InsertDropsIff(s, a.k, k);
      if B.ReqId(k) == B.ReqId(a.k) && k < a.k { SameIdFarApart(k, a.k); }
      if B.ReqId(k) == B.ReqId(a.k) && k > a.k { SameIdFarApart(a.k, k); }
    }
  }

  lemma {:induction false} NoDropNext(tr: seq<State>, acts: seq<Action>, i: nat, k: nat)
    requires Run(tr, acts) && Init(tr[0]) && i < |acts| && WithinIdSpace(tr[i]) && k < |tr[i + 1].outcomes|
    requires k < |tr[i].outcomes| ==> tr[i].outcomes[k] != Dropped
    ensures tr[i + 1].outcomes[k] != Dropped
  {
    var s, a := tr[i], acts[i];
    InvAlong(tr, acts, i);
    if k < |s.outcomes| {
      NoDropKept(s, a, k);
    } else {
      assert Apply(s, a).outcomes[k] == Waiting;
    }
  }

  /** If no ticket stays unfinished across an id wrap, no ticket is ever dropped. */
  lemma {:induction false} NothingDroppedWithoutWrap(tr: seq<State>, acts: seq<Action>, i: nat, k: nat)
    requires Run(tr, acts) && Init(tr[0]) && i < |tr|
    requires forall n :: 0 <= n < |tr| ==> WithinIdSpace(tr[n])
    requires k < |tr[i].outcomes|
    ensures tr[i].outcomes[k] != Dropped
  {
    if i > 0 {
      if k < |tr[i - 1].outcomes| { NothingDroppedWithoutWrap(tr, acts, i - 1, k); }
      NoDropNext(tr, acts, i - 1, k);
    }
  }

  lemma {:induction false} Extend(tr: seq<State>, acts: seq<Action>, a: Action)
      returns (tr': seq<State>, acts': seq<Action>)
    requires Run(tr, acts) && Enabled(tr[|acts|], a)
    ensures Run(tr', acts') && acts' == acts + [a] && tr'[..|tr|] == tr && tr'[0] == tr[0]
    ensures tr'[|acts'|] == Apply(tr[|acts|], a)
  {
    tr', acts' := tr + [Apply(tr[|acts|], a)], acts + [a];
    forall i {:trigger acts'[i]} | 0 <= i < |acts'|
      ensures Enabled(tr'[i], acts'[i]) && tr'[i + 1] == Apply(tr'[i], acts'[i])
    {
      if i < |acts| { assert acts'[i] == acts[i]; }
    }
  }

  /** A run that issues `n` tickets and does nothing else. */
  lemma {:induction false} IssueMany(n: nat) returns (tr: seq<State>, acts: seq<Action>)
    ensures Run(tr, acts) && Init(tr[0])
    ensures var s := tr[|acts|];
      && |s.tasks| == |s.outcomes| == |s.bodies| == n && s.cells.pending == map[]
      && forall k :: 0 <= k < n ==> s.tasks[k] == Registering && s.outcomes[k] == Waiting && s.bodies[k] == 0
  {
    if n == 0 {
      tr, acts := [State(B.Cells(0, map[], [], 0), [], [], [], {}, map[], Idle, [], [])], [];
    } else {
      tr, acts := IssueMany(n - 1);
      tr, acts := Extend(tr, acts, Issue);
    }
  }

  /** The loss is reachable: the ticket issued a whole id space after one that is still open
      takes over its entry. */
  lemma {:induction false} WrapDrops() returns (tr: seq<State>, acts: seq<Action>)
    ensures Run(tr, acts) && Init(tr[0])
    ensures var s := tr[|acts|]; s.outcomes != [] && s.outcomes[0] == Dropped
  {
    tr, acts := IssueMany(B.ID_SPACE + 1);
    tr, acts := Extend(tr, acts, Insert(0));
    tr, acts := Extend(tr, acts, Insert(B.ID_SPACE));
  }

  /** And so is the late fetch: ticket 0 is answered, its id comes round, and asking for its
      body hands out the body of the new ticket, which nobody has dispatched yet. */
  lemma {:induction false} LateFetchTakesOther(r: C.NativeResponse) returns (tr: seq<State>, acts: seq<Action>)
    ensures Run(tr, acts) && Init(tr[0]) && acts != [] && acts[|acts| - 1] == TakeBody(B.ReqId(0))
    ensures var before, after, j := tr[|acts| - 1], tr[|acts|], B.ID_SPACE;
      && j < |before.bodies| && before.outcomes != [] && before.outcomes[0] == Completed(r)
      && before.bodies[j] == 0 && after.bodies == before.bodies[j := 1]
  {
    tr, acts := IssueMany(B.ID_SPACE + 1);
    tr, acts := Extend(tr, acts, Insert(0));
    tr, acts := Extend(tr, acts, Respond(B.ReqId(0), r));
    tr, acts := Extend(tr, acts, Insert(B.ID_SPACE));
    var before := tr;
    tr, acts := Extend(tr, acts, TakeBody(B.ReqId(0)));
    assert tr[|acts| - 1] == before[|before| - 1];
  }

  // ---- progress ----

  predicate Arrival(a: Action) { a.Issue? }

  /** The steps that carry tickets towards JS; the rest only observe or answer. */
  predicate Delivers(a: Action) {
    a.Insert? || a.Push? || a.Ring? || a.Wake? || a.TakeBatch? || a.Dispatch?
  }

  function TaskWeight(t: Task): nat {
    match t case Registering => 7 case Inserted => 6 case OwesRing => 3 case Enqueued => 0
  }

  function TasksWeight(ts: seq<Task>): nat {
    if ts == [] then 0 else TaskWeight(ts[0]) + TasksWeight(ts[1..])
  }

  function Rank(s: State): nat {
    TasksWeight(s.tasks) + 2 * s.cells.doorbells + 2 * |s.cells.queue|
    + match s.js case Idle => 0 case Draining => 1 case Dispatching(b) => 1 + |b|
  }

  lemma {:induction false} WeightUpdate(ts: seq<Task>, k: nat, t: Task)
    requires k < |ts|
    ensures TasksWeight(ts[k := t]) == TasksWeight(ts) - TaskWeight(ts[k]) + TaskWeight(t)
  {
    if k == 0 {
      assert ts[0 := t][1..] == ts[1..];
    } else {
      assert ts[k := t][1..] == ts[1..][k - 1 := t];
      WeightUpdate(ts[1..], k - 1, t);
    }
  }

  lemma {:induction false} WeightZero(ts: seq<Task>)
    requires forall k :: 0 <= k < |ts| ==> ts[k] == Enqueued
    ensures TasksWeight(ts) == 0
  {
    if ts != [] { WeightZero(ts[1..]); }
  }

  /** Every delivering step lowers the rank; answering and disconnecting leave it alone. */
  lemma {:induction false} RankFalls(s: State, a: Action)
    requires Enabled(s, a) && !Arrival(a)
    ensures if Delivers(a) then Rank(Apply(s, a)) < Rank(s) else Rank(Apply(s, a)) == Rank(s)
  {
    if a.Insert? || a.Push? || a.Ring? {
      WeightUpdate(s.tasks, a.k, Apply(s, a).tasks[a.k]);
    }
  }

  ghost predicate Stuck(s: State) { forall a :: Delivers(a) ==> !Enabled(s, a) }

  /** When no delivering step is possible, everything issued has been taken and JS is idle. */
  lemma {:induction false} StuckMeansDelivered(s: State)
    requires Inv(s) && Stuck(s)
    ensures s.cells.queue == [] && s.js == Idle && s.cells.doorbells == 0
    ensures Flatten(s.taken) == s.pushed && NoDuplicates(Flatten(s.taken))
    ensures forall k :: 0 <= k < |s.tasks| ==> k in Flatten(s.taken)
  {
    assert !Enabled(s, TakeBatch) && !Enabled(s, Dispatch) && !Enabled(s, Wake);
    forall k | 0 <= k < |s.tasks| ensures s.tasks[k] == Enqueued {
      assert !Enabled(s, Insert(k)) && !Enabled(s, Push(k)) && !Enabled(s, Ring(k));
    }
    assert s.cells.queue == [] by { assert !WakeupDue(s); }
    assert Flatten(s.taken) + [] == Flatten(s.taken);
    forall k | 0 <= k < |s.tasks| ensures k in Flatten(s.taken) { assert k in s.pushed; }
  }

  function Deliveries(acts: seq<Action>): nat {
    if acts == [] then 0 else Deliveries(acts[..|acts| - 1]) + if Delivers(acts[|acts| - 1]) then 1 else 0
  }

  lemma {:induction false} RankPays(tr: seq<State>, acts: seq<Action>)
    requires Run(tr, acts) && forall i :: 0 <= i < |acts| ==> !Arrival(acts[i])
    ensures Deliveries(acts) + Rank(tr[|acts|]) <= Rank(tr[0])
    decreases |acts|
  {
    var n := |acts|;
    if n > 0 {
      assert Run(tr[..n], acts[..n - 1]);
      RankPays(tr[..n], acts[..n - 1]);
      RankFalls(tr[n - 1], acts[n - 1]);
    }
  }

  /** Progress: without new arrivals a run makes at most `Rank` delivering steps, and a run
      that cannot deliver further has handed every issued ticket to JS exactly once. */
  lemma {:induction false} DrainsWithoutArrivals(tr: seq<State>, acts: seq<Action>)
    requires Run(tr, acts) && Inv(tr[0])
    requires forall i :: 0 <= i < |acts| ==> !Arrival(acts[i])
    ensures Deliveries(acts) + Rank(tr[|acts|]) <= Rank(tr[0])
    ensures var s := tr[|acts|]; Stuck(s) ==>
      && s.cells.queue == [] && s.js == Idle
      && NoDuplicates(Flatten(s.taken)) && (forall k :: 0 <= k < |s.tasks| ==> k in Flatten(s.taken))
  {
    RankPays(tr, acts);
    if Stuck(tr[|acts|]) {
      InvAlong(tr, acts, |acts|);
      StuckMeansDelivered(tr[|acts|]);
    }
  }

  /** And it can always deliver further while the rank is positive. */
  lemma {:induction false} PositiveRankMoves(s: State)
    requires Inv(s) && Rank(s) > 0
    ensures !Stuck(s)
  {
    if Stuck(s) {
      StuckMeansDelivered(s);
      forall k | 0 <= k < |s.tasks| ensures s.tasks[k] == Enqueued {
        assert !Enabled(s, Insert(k)) && !Enabled(s, Push(k)) && !Enabled(s, Ring(k));
      }
      WeightZero(s.tasks);
    }
  }
}
