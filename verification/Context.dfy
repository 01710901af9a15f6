/** The response side of the request context `c` (js/context.ts): mutators that a latch
    turns into no-ops, and the reduction to the native response. */
module ResponseContext {
  import opened Common

  /** Status, headers, text body and stream source of the response being built. */
  datatype Draft = Draft(
    status: Option<nat>, headers: map<string, seq<string>>, body: Option<string>, stream: Option<nat>)

  /** `settled`: the response is fixed. `finalized`: some helper produced a response. */
  datatype Ctx = Ctx(draft: Draft, finalized: bool, settled: bool)

  /** The context's own mutators. `redirect` and `notFound` are compositions of these. A value
      that has no JSON text (`undefined`) is `Json(None, ..)`; one that cannot be serialized is
      a `SetHeader` of the content type followed by an exception. */
  datatype Op =
    | SetStatus(code: nat)
    | SetHeader(name: string, value: string)
    | AddCookie(cookie: string)
    | Json(json: Option<string>, status: Option<nat>)
    | Text(text: string, status: Option<nat>)
    | BodyText(content: Option<string>, status: Option<nat>)
    | BodyStream(source: nat, status: Option<nat>)

  datatype NativeResponse = Native(status: nat, headers: map<string, seq<string>>, body: Option<string>, streamed: bool)

  const CT_JSON := "application/json; charset=utf-8"
  const CT_TEXT := "text/plain; charset=utf-8"

  function Fresh(requestIdHeader: string, requestId: string): Ctx {
    Ctx(Draft(None, map[Lower(requestIdHeader) := [requestId]], None, None), false, false)
  }

  function WithStatus(d: Draft, status: Option<nat>): Draft {
    if status.Some? then d.(status := status) else d
  }

  function Finalize(c: Ctx, body: Option<string>, stream: Option<nat>, status: Option<nat>): Ctx {
    Ctx(WithStatus(c.draft, status).(body := body, stream := stream), true, c.settled)
  }

  function PutHeader(c: Ctx, name: string, values: seq<string>): Ctx {
    c.(draft := c.draft.(headers := c.draft.headers[name := values]))
  }

  function Mutate(c: Ctx, op: Op): Ctx {
    if c.settled then c else
    match op
    case SetStatus(code) => c.(draft := c.draft.(status := Some(code)))
    case SetHeader(n, v) => PutHeader(c, Lower(n), [v])
    case AddCookie(v) =>
      PutHeader(c, "set-cookie",
                (if "set-cookie" in c.draft.headers then c.draft.headers["set-cookie"] else []) + [v])
    case Json(t, st) => Finalize(PutHeader(c, "content-type", [CT_JSON]), t, None, st)
    case Text(t, st) => Finalize(PutHeader(c, "content-type", [CT_TEXT]), Some(t), None, st)
    case BodyText(b, st) => Finalize(c, b, None, st)
    case BodyStream(src, st) => Finalize(c, None, Some(src), st)
  }

  /** Response stripping by status: for each status with a response schema, what becomes of a
      JSON text (the properties outside the schema removed, any other text left alone). */
  type Strip = map<nat, string -> string>

  predicate IsJson(headers: map<string, seq<string>>) {
    && "content-type" in headers && headers["content-type"] != []
    && Contains(headers["content-type"][0], "application/json")
  }

  function Stripped(strip: Strip, status: nat, headers: map<string, seq<string>>, body: Option<string>)
      : Option<string> {
    if body.Some? && status in strip && IsJson(headers) then Some(strip[status](body.value)) else body
  }

  function NativeOf(d: Draft, strip: Strip): NativeResponse {
    var status := if d.status.Some? then d.status.value else 200;
    if d.stream.Some? then Native(status, d.headers, None, true)
    else Native(status, d.headers, Stripped(strip, status, d.headers, d.body), false)
  }

  /** A text answer is never stripped. */
  lemma {:induction false} TextNotJson()
    ensures !Contains(CT_TEXT, "application/json")
  {
    var t := "application/json";
    assert |CT_TEXT| == 25 && |t| == 16 && t[0] == 'a' && t[1] == 'p';
    assert CT_TEXT[0] != 'a' && CT_TEXT[1] != 'a' && CT_TEXT[2] != 'a' && CT_TEXT[3] != 'a' && CT_TEXT[4] != 'a';
    assert CT_TEXT[5] != 'a' && CT_TEXT[6] != 'a' && CT_TEXT[8] != 'a' && CT_TEXT[9] != 'a' && CT_TEXT[8] != 'p';
    forall i | 0 <= i <= |CT_TEXT| ensures !OccursAt(CT_TEXT, "application/json", i) {
      if i <= 9 { DiffersAt(CT_TEXT, t, i, if i == 7 then 1 else 0); }
    }
  }

  /** A JSON answer is stripped wherever its status has a schema. */
  lemma {:induction false} JsonIsJson()
    ensures Contains(CT_JSON, "application/json")
  {
    assert CT_JSON[0..16] == "application/json";
    assert OccursAt(CT_JSON, "application/json", 0);
  }

  /** What a handler returned: nothing (or `c`), a string, a stream source, a value with its
      JSON text, if it has one, or a value that cannot be serialized. */
  datatype Returned = Nothing | Str(text: string) | Source(source: nat) | Value(json: Option<string>) | Unserializable

  /** Applying the value throws: `JSON.stringify` fails after the content type is set. */
  predicate ApplyThrows(c: Ctx, v: Returned) { v.Unserializable? && !c.finalized && !c.settled }

  function ApplyReturn(c: Ctx, v: Returned): Ctx {
    if c.finalized then c else
    match v
    case Nothing => c
    case Str(t) => Mutate(c, Text(t, None))
    case Source(s) => Mutate(c, BodyStream(s, None))
    case Value(j) => Mutate(c, Json(j, None))
    case Unserializable => Mutate(c, SetHeader("content-type", CT_JSON))
  }

  // ---- what any sequence of mutators amounts to ----

  function MutateAll(c: Ctx, ops: seq<Op>): Ctx {
    if ops == [] then c else Mutate(MutateAll(c, ops[..|ops| - 1]), ops[|ops| - 1])
  }

  predicate Finalizes(op: Op) { op.Json? || op.Text? || op.BodyText? || op.BodyStream? }

  /** The status an operation sets, if any. */
  function StatusSet(op: Op): Option<nat> {
    if op.SetStatus? then Some(op.code) else if Finalizes(op) then op.status else None
  }

  function BodySet(op: Op): Option<string> {
    match op
    case Json(t, _) => t
    case Text(t, _) => Some(t)
    case BodyText(b, _) => b
    case _ => None
  }

  /** The answer's body is that of the last finalizing call: an earlier body or stream leaves
      no trace. */
  lemma {:induction false} LastBodyWins(c: Ctx, ops: seq<Op>, i: nat, strip: Strip)
    requires !c.settled && i < |ops| && Finalizes(ops[i]) && forall j :: i < j < |ops| ==> !Finalizes(ops[j])
    ensures var c' := MutateAll(c, ops);
      && !c'.settled && c'.finalized
      && c'.draft.stream.Some? == ops[i].BodyStream? && c'.draft.body == BodySet(ops[i])
    ensures var r := NativeOf(MutateAll(c, ops).draft, strip);
      && r.streamed == ops[i].BodyStream? && r.body == Stripped(strip, r.status, r.headers, BodySet(ops[i]))
  {
    var n := |ops| - 1;
    Unlatched(c, ops[..n]);
    if i < n { LastBodyWins(c, ops[..n], i, strip); }
  }

  lemma {:induction false} StatusAfter(c: Ctx, op: Op)
    requires !c.settled
    ensures Mutate(c, op).draft.status == if StatusSet(op).Some? then StatusSet(op) else c.draft.status
  {}

  /** The answer's status is the last one set, whoever set it. */
  lemma {:induction false} LastStatusWins(c: Ctx, ops: seq<Op>, i: nat, strip: Strip)
    requires !c.settled && i < |ops| && StatusSet(ops[i]).Some?
    requires forall j :: i < j < |ops| ==> StatusSet(ops[j]).None?
    ensures MutateAll(c, ops).draft.status == StatusSet(ops[i])
    ensures NativeOf(MutateAll(c, ops).draft, strip).status == StatusSet(ops[i]).value
  {
    var n := |ops| - 1;
    Unlatched(c, ops[..n]);
    if i < n { LastStatusWins(c, ops[..n], i, strip); }
    StatusAfter(MutateAll(c, ops[..n]), ops[n]);
  }

  /** Before the latch nothing sets it, and the context is finalized iff it was or some call
      finalized it; after the latch nothing changes at all. */
  lemma {:induction false} Unlatched(c: Ctx, ops: seq<Op>)
    ensures c.settled ==> MutateAll(c, ops) == c
    ensures !c.settled ==> !MutateAll(c, ops).settled
    ensures !c.settled ==>
      (MutateAll(c, ops).finalized <==> c.finalized || exists i :: 0 <= i < |ops| && Finalizes(ops[i]))
  {
    if ops != [] {
      var n := |ops| - 1;
      Unlatched(c, ops[..n]);
      assert (exists i :: 0 <= i < |ops| && Finalizes(ops[i]))
        <==> Finalizes(ops[n]) || exists i :: 0 <= i < n && Finalizes(ops[..n][i]) by {
        assert forall i :: 0 <= i < n ==> ops[..n][i] == ops[i];
      }
    }
  }

  /** The cookies added, in order. */
  function CookiesOf(ops: seq<Op>): seq<string> {
    if ops == [] then []
    else
      var rest := CookiesOf(ops[..|ops| - 1]);
      if ops[|ops| - 1].AddCookie? then rest + [ops[|ops| - 1].cookie] else rest
  }

  /** What an operation sets header `name` to, if anything. */
  function HeaderSet(op: Op, name: string): Option<string> {
    match op
    case SetHeader(n, v) => if Lower(n) == name then Some(v) else None
    case Json(_, _) => if name == "content-type" then Some("application/json; charset=utf-8") else None
    case Text(_, _) => if name == "content-type" then Some("text/plain; charset=utf-8") else None
    case _ => None
  }

  function HeaderValues(c: Ctx, name: string): seq<string> {
    if name in c.draft.headers then c.draft.headers[name] else []
  }

  lemma {:induction false} HeaderAfter(c: Ctx, op: Op, name: string)
    requires !c.settled && name != "set-cookie"
    ensures HeaderValues(Mutate(c, op), name)
         == if HeaderSet(op, name).Some? then [HeaderSet(op, name).value] else HeaderValues(c, name)
  {}

  lemma {:induction false} CookiesAfter(c: Ctx, op: Op)
    requires !c.settled && HeaderSet(op, "set-cookie").None?
    ensures HeaderValues(Mutate(c, op), "set-cookie")
         == HeaderValues(c, "set-cookie") + if op.AddCookie? then [op.cookie] else []
  {}

  /** Cookies accumulate: after any calls that do not overwrite the header they are those there
      were and all those added, in order. */
  lemma {:induction false} CookiesAccumulate(c: Ctx, ops: seq<Op>)
    requires !c.settled && forall i :: 0 <= i < |ops| ==> HeaderSet(ops[i], "set-cookie").None?
    ensures HeaderValues(MutateAll(c, ops), "set-cookie") == HeaderValues(c, "set-cookie") + CookiesOf(ops)
  {
    if ops != [] {
      CookiesAccumulate(c, ops[..|ops| - 1]);
      Unlatched(c, ops[..|ops| - 1]);
      CookiesAfter(MutateAll(c, ops[..|ops| - 1]), ops[|ops| - 1]);
    }
  }

  /** Every other header has the last value set under its lower-cased name ... */
  lemma {:induction false} LastHeaderWins(c: Ctx, ops: seq<Op>, name: string, i: nat)
    requires !c.settled && name != "set-cookie" && i < |ops| && HeaderSet(ops[i], name).Some?
    requires forall j :: i < j < |ops| ==> HeaderSet(ops[j], name).None?
    ensures HeaderValues(MutateAll(c, ops), name) == [HeaderSet(ops[i], name).value]
  {
    var n := |ops| - 1;
    Unlatched(c, ops[..n]);
    if i < n { LastHeaderWins(c, ops[..n], name, i); }
    HeaderAfter(MutateAll(c, ops[..n]), ops[n], name);
  }

  /** ... and keeps its values if none is set. */
  lemma {:induction false} UnsetHeaderStays(c: Ctx, ops: seq<Op>, name: string)
    requires !c.settled && name != "set-cookie" && forall i :: 0 <= i < |ops| ==> HeaderSet(ops[i], name).None?
    ensures HeaderValues(MutateAll(c, ops), name) == HeaderValues(c, name)
  {
    if ops != [] {
      UnsetHeaderStays(c, ops[..|ops| - 1], name);
      Unlatched(c, ops[..|ops| - 1]);
      HeaderAfter(MutateAll(c, ops[..|ops| - 1]), ops[|ops| - 1], name);
    }
  }

  /** The context object. */
  class OxideContext {
    const strip: Strip
    var draft: Draft
    var finalized: bool
    var settled: bool

    ghost function View(): Ctx reads this { Ctx(draft, finalized, settled) }

    constructor (requestIdHeader: string, requestId: string, strip: Strip)
      ensures View() == Fresh(requestIdHeader, requestId) && this.strip == strip
    {
      this.strip := strip;
      draft := Draft(None, map[Lower(requestIdHeader) := [requestId]], None, None);
      finalized, settled := false, false;
    }

    method Status(code: nat)
      modifies this
      ensures View() == Mutate(old(View()), SetStatus(code))
    {
      if !settled { draft := draft.(status := Some(code)); }
    }

    method Header(name: string, value: string)
      modifies this
      ensures View() == Mutate(old(View()), SetHeader(name, value))
    {
      if !settled { draft := draft.(headers := draft.headers[Lower(name) := [value]]); }
    }

    method Cookie(cookie: string)
      modifies this
      ensures View() == Mutate(old(View()), AddCookie(cookie))
    {
      if !settled {
        var values := [];
        if "set-cookie" in draft.headers { values := draft.headers["set-cookie"]; }
        draft := draft.(headers := draft.headers["set-cookie" := values + [cookie]]);
      }
    }

    method WriteText(value: string, status: Option<nat>)
      modifies this
      ensures View() == Mutate(old(View()), Text(value, status))
    {
      if settled { return; }
      draft := draft.(headers := draft.headers["content-type" := [CT_TEXT]]);
      draft := draft.(body := Some(value), stream := None);
      if status.Some? { draft := draft.(status := status); }
      finalized := true;
    }

    /** `text` is what `JSON.stringify` makes of the value, or it throws (`ok` is false). */
    method WriteJson(text: Option<string>, throws: bool, status: Option<nat>) returns (ok: bool)
      modifies this
      ensures ok <==> old(settled) || !throws
      ensures View() == Mutate(old(View()), if throws then SetHeader("content-type", CT_JSON) else Json(text, status))
    {
      if settled { return true; }
      assert Lower("content-type") == "content-type";
      draft := draft.(headers := draft.headers["content-type" := [CT_JSON]]);
      if throws { return false; }
      draft := draft.(body := text, stream := None);
      if status.Some? { draft := draft.(status := status); }
      finalized := true;
      ok := true;
    }

    method WriteStream(source: nat, status: Option<nat>)
      modifies this
      ensures View() == Mutate(old(View()), BodyStream(source, status))
    {
      if settled { return; }
      if status.Some? { draft := draft.(status := status); }
      draft := draft.(stream := Some(source), body := None);
      finalized := true;
    }

    /** A redirect is three mutator calls; before the latch it always finalizes. */
    method Redirect(location: string, status: nat)
      modifies this
      ensures View() == Mutate(Mutate(Mutate(old(View()), SetStatus(status)), SetHeader("location", location)),
        BodyText(Some(""), None))
      ensures !old(settled) ==> finalized && NativeOf(draft, strip).status == status && !NativeOf(draft, strip).streamed
    {
      Status(status);
      Header("location", location);
      if !settled {
        draft := draft.(body := Some(""), stream := None);
        finalized := true;
      }
    }

    /** Reduces the context and fixes it: from here on every mutator is a no-op. */
    method BuildNative() returns (r: NativeResponse)
      modifies this
      ensures settled && draft == old(draft) && finalized == old(finalized)
      ensures r == NativeOf(old(draft), strip)
    {
      settled := true;
      var status := if draft.status.Some? then draft.status.value else 200;
      if draft.stream.Some? {
        return Native(status, draft.headers, None, true);
      }
      var body := StripResponse(status);
      r := Native(status, draft.headers, body, false);
    }

    method StripResponse(status: nat) returns (body: Option<string>)
      ensures body == Stripped(strip, status, draft.headers, draft.body)
    {
      if draft.body.None? || status !in strip { return draft.body; }
      var contentType := "";
      if "content-type" in draft.headers && draft.headers["content-type"] != [] {
        contentType := draft.headers["content-type"][0];
      }
      NotInEmpty("application/json");
      if !Contains(contentType, "application/json") { return draft.body; }
      body := Some(strip[status](draft.body.value));
    }
  }
}
