/** The batched Rust/JS bridge (src/bridge.rs): the shared cells, their atomic updates,
    and the object that holds them. A request is represented by its ticket, the position
    of its `next_req_id` call; its `req_id` is the ticket truncated to 32 bits. */
module BridgeCells {
  import opened Common

  const ID_SPACE: nat := 0x1_0000_0000

  /** What the `pending` map holds for one request: the channel ends of ticket `owner`
      (`body`, until taken) and the completion sender of ticket `owner`. */
  datatype Entry = Entry(owner: nat, body: bool)

  function ReqId(ticket: nat): nat { ticket % ID_SPACE }

  /** The cells behind the two locks, the id counter and the doorbell. */
  datatype Cells = Cells(issued: nat, pending: map<nat, Entry>, queue: seq<nat>, doorbells: nat)

  function Issue(c: Cells): Cells { c.(issued := c.issued + 1) }

  function Insert(c: Cells, ticket: nat): Cells {
    c.(pending := c.pending[ReqId(ticket) := Entry(ticket, true)])
  }

  function Push(c: Cells, ticket: nat): Cells { c.(queue := c.queue + [ticket]) }

  function Ring(c: Cells): Cells { c.(doorbells := c.doorbells + 1) }

  function Take(c: Cells): Cells { c.(queue := []) }

  function TakeBody(c: Cells, id: nat): Cells {
    if id in c.pending then c.(pending := c.pending[id := c.pending[id].(body := false)]) else c
  }

  function Respond(c: Cells, id: nat): Cells { c.(pending := c.pending - {id}) }

  class Bridge {
    var nextId: nat
    var pending: map<nat, Entry>
    var queue: seq<nat>
    var doorbells: nat
    ghost var issued: nat

    ghost predicate Valid() reads this { nextId == ReqId(issued) }

    ghost function View(): Cells reads this { Cells(issued, pending, queue, doorbells) }

    constructor ()
      ensures Valid() && View() == Cells(0, map[], [], 0)
    {
      nextId, pending, queue, doorbells, issued := 0, map[], [], 0, 0;
    }

    /** `fetch_add(1)` on a 32-bit atomic: returns the old value and wraps. */
    method NextReqId() returns (id: nat)
      requires Valid()
      modifies this
      ensures Valid() && View() == Issue(old(View()))
      ensures id == ReqId(old(issued)) < ID_SPACE
    {
      id := nextId;
      nextId := (nextId + 1) % ID_SPACE;
      issued := issued + 1;
    }

    method InsertPending(ticket: nat)
      requires Valid()
      modifies this
      ensures Valid() && View() == Insert(old(View()), ticket)
    {
      pending := pending[ReqId(ticket) := Entry(ticket, true)];
    }

    /** Push under the queue lock; the caller owes a ring exactly when it found it empty. */
    method PushAndTest(ticket: nat) returns (wasEmpty: bool)
      requires Valid()
      modifies this
      ensures Valid() && View() == Push(old(View()), ticket)
      ensures wasEmpty <==> old(queue) == []
    {
      wasEmpty := queue == [];
      queue := queue + [ticket];
    }

    method RingDoorbell()
      requires Valid()
      modifies this
      ensures Valid() && View() == Ring(old(View()))
    {
      doorbells := doorbells + 1;
    }

    /** The three atomic steps of `enqueue`, here without interference in between. */
    method Enqueue(ticket: nat)
      requires Valid()
      modifies this
      ensures Valid()
      ensures var c := Push(Insert(old(View()), ticket), ticket);
              View() == if old(queue) == [] then Ring(c) else c
    {
      InsertPending(ticket);
      var wasEmpty := PushAndTest(ticket);
      if wasEmpty {
        RingDoorbell();
      }
    }

    method TakeBatch() returns (batch: seq<nat>)
      requires Valid()
      modifies this
      ensures Valid() && View() == Take(old(View())) && batch == old(queue)
    {
      batch := queue;
      queue := [];
    }

    /** Hands out the channel ends at most once: they move out of the entry. */
    method TakeBodyParts(id: nat) returns (parts: Option<nat>)
      requires Valid()
      modifies this
      ensures Valid() && View() == TakeBody(old(View()), id)
      ensures parts == if id in old(pending) && old(pending)[id].body
                       then Some(old(pending)[id].owner) else None
    {
      parts := None;
      if id in pending {
        if pending[id].body {
          parts := Some(pending[id].owner);
        }
        pending := pending[id := pending[id].(body := false)];
      }
    }

    /** Completes the ticket whose sender the entry holds; an unknown id is a no-op. */
    method Complete(id: nat) returns (fired: Option<nat>)
      requires Valid()
      modifies this
      ensures Valid() && View() == Respond(old(View()), id)
      ensures fired == if id in old(pending) then Some(old(pending)[id].owner) else None
    {
      fired := None;
      if id in pending {
        fired := Some(pending[id].owner);
      }
      pending := pending - {id};
    }

    /** The JS drain loop, `arrivals[r]` being what other threads push just before its
        r-th `takeBatch`: it delivers the backlog and every arrival up to the round that
        finds nothing, in order, and leaves the queue empty. */
    method DrainBatch(arrivals: seq<seq<nat>>) returns (delivered: seq<nat>, rounds: nat)
      requires Valid()
      modifies this
      ensures Valid() && queue == [] && pending == old(pending)
      ensures rounds < |arrivals| ==> arrivals[rounds] == []
      ensures delivered == old(queue) + Flatten(arrivals[..if rounds < |arrivals| then rounds else |arrivals|])
    {
      delivered, rounds := [], 0;
      var batch := [];
      while true
        invariant Valid() && pending == old(pending) && rounds <= |arrivals| + 1
        invariant rounds > 0 ==> queue == []
        invariant delivered + queue == old(queue) + Flatten(
          arrivals[..if rounds < |arrivals| then rounds else |arrivals|])
        decreases |arrivals| + 1 - rounds
      {
        if rounds < |arrivals| {
          assert delivered + (queue + arrivals[rounds]) == (delivered + queue) + arrivals[rounds];
          queue := queue + arrivals[rounds];
          FlattenAppend(arrivals[..rounds], arrivals[rounds]);
          assert arrivals[..rounds + 1] == arrivals[..rounds] + [arrivals[rounds]];
        }
        batch := TakeBatch();
        if batch == [] {
          return;
        }
        assert delivered + batch == (delivered + batch) + [];
        delivered := delivered + batch;
        rounds := rounds + 1;
      }
    }
  }
}
