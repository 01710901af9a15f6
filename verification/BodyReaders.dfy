/** The request body readers (src/server.rs `read_body_task` and `buffer_body`, the JS side
    `collectRaw` in js/context.ts) and the bounded decoder loop (src/compress.rs). */
module BodyReaders {
  import opened Common

  datatype Frame = Data(bytes: Bytes) | Trailers | Broken

  /** One frame of the body; `late`: the wait for it outlasted the read timeout. */
  datatype Arrival = Arrival(late: bool, frame: Frame)

  /** The body as it will arrive; `lateEnd`: the end itself was not seen in time. */
  datatype Incoming = Incoming(arrivals: seq<Arrival>, lateEnd: bool)

  datatype Msg = Chunk(bytes: Bytes) | Overflow | Timeout | Aborted

  datatype BodyErr = TooLarge | TimedOut | Cut

  datatype Result<T> = Ok(value: T) | Err(error: BodyErr)

  /** What `read_body_task` sends and counts from frame `i` on, with `total` so far, to a
      receiver that keeps reading. */
  function Streamed(b: Incoming, i: nat, total: nat, limit: Option<nat>, timeout: bool): (seq<Msg>, nat)
    requires i <= |b.arrivals|
    decreases |b.arrivals| - i
  {
    if i == |b.arrivals| then (if timeout && b.lateEnd then [Timeout] else [], 0)
    else if timeout && b.arrivals[i].late then ([Timeout], 0)
    else match b.arrivals[i].frame
      case Broken => ([Aborted], 0)
      case Trailers => Streamed(b, i + 1, total, limit, timeout)
      case Data(d) =>
        var total' := SaturatingAdd(total, |d|);
        if Over(limit, total') then ([Overflow], |d|)
        else
          var (msgs, n) := Streamed(b, i + 1, total', limit, timeout);
          ([Chunk(d)] + msgs, |d| + n)
  }

  /** The data carried by the messages, up to a marker. */
  function Payload(msgs: seq<Msg>): Bytes {
    if msgs == [] || !msgs[0].Chunk? then [] else msgs[0].bytes + Payload(msgs[1..])
  }

  lemma {:induction false} PayloadSnoc(msgs: seq<Msg>, d: Bytes)
    requires forall k :: 0 <= k < |msgs| ==> msgs[k].Chunk?
    ensures Payload(msgs + [Chunk(d)]) == Payload(msgs) + d
  {
    if msgs == [] {
      assert msgs + [Chunk(d)] == [Chunk(d)] && d + [] == d && [] + d == d;
    } else {
      assert (msgs + [Chunk(d)])[1..] == msgs[1..] + [Chunk(d)];
      PayloadSnoc(msgs[1..], d);
      assert msgs[0].bytes + (Payload(msgs[1..]) + d) == Payload(msgs) + d;
    }
  }

  lemma {:induction false} SilenceCountsNothing(b: Incoming, i: nat, total: nat, limit: Option<nat>, timeout: bool)
    requires i <= |b.arrivals| && Streamed(b, i, total, limit, timeout).0 == []
    ensures Streamed(b, i, total, limit, timeout).1 == 0
    decreases |b.arrivals| - i
  {
    if i < |b.arrivals| && b.arrivals[i].frame == Trailers && !(timeout && b.arrivals[i].late) {
      SilenceCountsNothing(b, i + 1, total, limit, timeout);
    }
  }

  /** What is counted when the receiver accepts `patience` messages: the data of these and of
      the one whose sending fails. */
  function CountedFor(all: (seq<Msg>, nat), patience: nat): nat {
    if |all.0| <= patience + 1 then all.1 else |Payload(all.0[..patience + 1])|
  }

  /** The task itself. `patience` is how many sends the receiver accepts before going away:
      exactly as many messages as it accepts are delivered. */
  method ReadBodyTask(b: Incoming, limit: Option<nat>, timeout: bool, patience: nat)
      returns (sent: seq<Msg>, counted: nat)
    ensures sent == Prefix(Streamed(b, 0, 0, limit, timeout).0, patience)
    ensures counted == CountedFor(Streamed(b, 0, 0, limit, timeout), patience)
  {
    sent, counted := [], 0;
    var total, i := 0, 0;
    ghost var all := Streamed(b, 0, 0, limit, timeout);
    assert [] + all.0 == all.0;
    while true
      invariant i <= |b.arrivals| && |sent| <= patience
      invariant all.0 == sent + Streamed(b, i, total, limit, timeout).0
      invariant all.1 == counted + Streamed(b, i, total, limit, timeout).1
      invariant counted == |Payload(sent)| && forall k :: 0 <= k < |sent| ==> sent[k].Chunk?
      decreases |b.arrivals| - i
    {
      if timeout && (if i < |b.arrivals| then b.arrivals[i].late else b.lateEnd) {
        if |sent| < patience { sent := sent + [Timeout]; }
        return;
      }
      if i == |b.arrivals| {
        assert sent + [] == sent;
        return;
      }
      var frame := b.arrivals[i].frame;
      i := i + 1;
      if frame == Broken {
        if |sent| < patience { sent := sent + [Aborted]; }
        return;
      }
      if frame.Data? {
        total := SaturatingAdd(total, |frame.bytes|);
        counted := counted + |frame.bytes|;
        if Over(limit, total) {
          if |sent| < patience { sent := sent + [Overflow]; }
          return;
        }
        ghost var rest := Streamed(b, i, total, limit, timeout).0;
        assert sent + ([Chunk(frame.bytes)] + rest) == (sent + [Chunk(frame.bytes)]) + rest;
        PayloadSnoc(sent, frame.bytes);
        if |sent| == patience {
          if rest == [] { SilenceCountsNothing(b, i, total, limit, timeout); }
          assert all.0[..patience + 1] == sent + [Chunk(frame.bytes)];
          return;
        }
        sent := sent + [Chunk(frame.bytes)];
      }
    }
  }

  /** What `buffer_body` returns and counts from frame `i` on, with `buf` so far. */
  function Buffered(b: Incoming, i: nat, buf: Bytes, limit: Option<nat>, timeout: bool): (Result<Bytes>, nat)
    requires i <= |b.arrivals|
    decreases |b.arrivals| - i
  {
    if i == |b.arrivals| then (if timeout && b.lateEnd then Err(TimedOut) else Ok(buf), 0)
    else if timeout && b.arrivals[i].late then (Err(TimedOut), 0)
    else match b.arrivals[i].frame
      case Broken => (Err(Cut), 0)
      case Trailers => Buffered(b, i + 1, buf, limit, timeout)
      case Data(d) =>
        if Over(limit, |buf| + |d|) then (Err(TooLarge), |d|)
        else
          var (r, n) := Buffered(b, i + 1, buf + d, limit, timeout);
          (r, |d| + n)
  }

  method BufferBody(b: Incoming, limit: Option<nat>, timeout: bool) returns (r: Result<Bytes>, counted: nat)
    ensures (r, counted) == Buffered(b, 0, [], limit, timeout)
  {
    counted := 0;
    var buf: Bytes, i := [], 0;
    while true
      invariant i <= |b.arrivals|
      invariant var rest := Buffered(b, i, buf, limit, timeout);
                Buffered(b, 0, [], limit, timeout) == (rest.0, counted + rest.1)
      decreases |b.arrivals| - i
    {
      if timeout && (if i < |b.arrivals| then b.arrivals[i].late else b.lateEnd) { return Err(TimedOut), counted; }
      if i == |b.arrivals| { return Ok(buf), counted; }
      var frame := b.arrivals[i].frame;
      i := i + 1;
      if frame == Broken { return Err(Cut), counted; }
      if frame.Data? {
        counted := counted + |frame.bytes|;
        if Over(limit, |buf| + |frame.bytes|) { return Err(TooLarge), counted; }
        buf := buf + frame.bytes;
      }
    }
  }

  // ---- agreement ----

  /** What a receiver makes of the messages: the bytes before the end, or the marker. */
  function Received(msgs: seq<Msg>): Result<Bytes> {
    if msgs == [] then Ok([])
    else match msgs[0]
      case Overflow => Err(TooLarge)
      case Timeout => Err(TimedOut)
      case Aborted => Err(Cut)
      case Chunk(d) =>
        match Received(msgs[1..])
        case Err(e) => Err(e)
        case Ok(rest) => Ok(d + rest)
  }

  function Prepend(buf: Bytes, r: Result<Bytes>): Result<Bytes> { if r.Ok? then Ok(buf + r.value) else r }

  /** Data bytes from frame `i` up to the first stall, break or end. */
  function Readable(b: Incoming, i: nat, timeout: bool): nat
    requires i <= |b.arrivals|
    decreases |b.arrivals| - i
  {
    if i == |b.arrivals| || (timeout && b.arrivals[i].late) || b.arrivals[i].frame == Broken then 0
    else (if b.arrivals[i].frame.Data? then |b.arrivals[i].frame.bytes| else 0) + Readable(b, i + 1, timeout)
  }

  /** Both readers, at frame `i` with `buf` received, end the same way and count the same
      bytes, and what is still forwarded stays within the limit. */
  ghost predicate Agree(b: Incoming, i: nat, buf: Bytes, limit: Option<nat>, timeout: bool)
    requires i <= |b.arrivals|
  {
    var (msgs, n) := Streamed(b, i, SaturatingAdd(0, |buf|), limit, timeout);
    && Buffered(b, i, buf, limit, timeout) == (Prepend(buf, Received(msgs)), n)
    && !Over(limit, |buf| + |Payload(msgs)|)
  }

  lemma {:induction false} AgreeFrom(b: Incoming, i: nat, buf: Bytes, limit: Option<nat>, timeout: bool)
    requires i <= |b.arrivals| && !Over(limit, |buf|)
    requires limit.Some? && limit.value >= U64_MAX ==> |buf| + Readable(b, i, timeout) <= U64_MAX
    ensures Agree(b, i, buf, limit, timeout)
    decreases |b.arrivals| - i
  {
    if i == |b.arrivals| || (timeout && b.arrivals[i].late) {
      assert buf + [] == buf;
    } else {
      match b.arrivals[i].frame
      case Broken =>
      case Trailers => AgreeFrom(b, i + 1, buf, limit, timeout);
      case Data(d) =>
        if !Over(limit, |buf| + |d|) { AgreeFrom(b, i + 1, buf + d, limit, timeout); }
        AgreeData(b, i, buf, limit, timeout);
    }
  }

  lemma {:induction false} AgreeData(b: Incoming, i: nat, buf: Bytes, limit: Option<nat>, timeout: bool)
    requires i < |b.arrivals| && b.arrivals[i].frame.Data? && !(timeout && b.arrivals[i].late) && !Over(limit, |buf|)
    requires var d := b.arrivals[i].frame.bytes;
      && (limit.Some? && limit.value >= U64_MAX ==> |buf| + |d| <= U64_MAX)
      && (!Over(limit, |buf| + |d|) ==> Agree(b, i + 1, buf + d, limit, timeout))
    ensures Agree(b, i, buf, limit, timeout)
  {
    var d := b.arrivals[i].frame.bytes;
    var total := SaturatingAdd(SaturatingAdd(0, |buf|), |d|);
    assert total == SaturatingAdd(0, |buf + d|);
    assert Over(limit, total) <==> Over(limit, |buf| + |d|);
    if !Over(limit, total) { ChunkReceived(buf, d, Streamed(b, i + 1, total, limit, timeout).0); }
  }

  lemma {:induction false} ChunkReceived(buf: Bytes, d: Bytes, msgs: seq<Msg>)
    ensures Prepend(buf, Received([Chunk(d)] + msgs)) == Prepend(buf + d, Received(msgs))
    ensures |Payload([Chunk(d)] + msgs)| == |d| + |Payload(msgs)|
  {
    assert ([Chunk(d)] + msgs)[1..] == msgs;
    assert Received(msgs).Ok? ==> (buf + d) + Received(msgs).value == buf + (d + Received(msgs).value);
  }

  /** The data of the frames from `i` on. */
  function DataFrom(b: Incoming, i: nat): Bytes
    requires i <= |b.arrivals|
    decreases |b.arrivals| - i
  {
    if i == |b.arrivals| then []
    else (if b.arrivals[i].frame.Data? then b.arrivals[i].frame.bytes else []) + DataFrom(b, i + 1)
  }

  /** Every frame from `i` on and the end arrive, in time. */
  ghost predicate Arrives(b: Incoming, i: nat, timeout: bool) {
    && !(timeout && b.lateEnd)
    && forall k :: i <= k < |b.arrivals| ==> !(timeout && b.arrivals[k].late) && b.arrivals[k].frame != Broken
  }

  /** The buffered reader succeeds exactly on a body that arrives in full and within the
      limit, and then returns all of it. */
  lemma {:induction false} BufferedOkIff(b: Incoming, i: nat, buf: Bytes, limit: Option<nat>, timeout: bool)
    requires i <= |b.arrivals| && !Over(limit, |buf|)
    ensures var r := Buffered(b, i, buf, limit, timeout).0;
      && (r.Ok? <==> Arrives(b, i, timeout) && !Over(limit, |buf| + |DataFrom(b, i)|))
      && (r.Ok? ==> r.value == buf + DataFrom(b, i))
    decreases |b.arrivals| - i
  {
    if i < |b.arrivals| {
      var f := b.arrivals[i].frame;
      if f.Data? {
        if !Over(limit, |buf| + |f.bytes|) { BufferedOkIff(b, i + 1, buf + f.bytes, limit, timeout); }
        assert (buf + f.bytes) + DataFrom(b, i + 1) == buf + DataFrom(b, i);
      } else if f == Trailers {
        BufferedOkIff(b, i + 1, buf, limit, timeout);
        assert [] + DataFrom(b, i + 1) == DataFrom(b, i + 1);
      }
    } else {
      assert buf + [] == buf;
    }
  }

  lemma {:induction false} MaxLimitDiffers(b: Incoming, i: nat, total: nat, buf: Bytes, limit: nat, timeout: bool)
    requires i <= |b.arrivals| && limit == U64_MAX && total <= U64_MAX
    requires |buf| <= U64_MAX < |buf| + Readable(b, i, timeout)
    ensures Buffered(b, i, buf, Some(limit), timeout).0 == Err(TooLarge)
    ensures Received(Streamed(b, i, total, Some(limit), timeout).0) != Err(TooLarge)
    decreases |b.arrivals| - i
  {
    match b.arrivals[i].frame
    case Trailers => MaxLimitDiffers(b, i + 1, total, buf, limit, timeout);
    case Data(d) =>
      NeverOverflows(b, i, total, timeout);
      if |buf| + |d| <= U64_MAX {
        MaxLimitDiffers(b, i + 1, SaturatingAdd(total, |d|), buf + d, limit, timeout);
      }
    case _ =>
  }

  lemma {:induction false} NeverOverflows(b: Incoming, i: nat, total: nat, timeout: bool)
    requires i <= |b.arrivals| && total <= U64_MAX
    ensures Received(Streamed(b, i, total, Some(U64_MAX), timeout).0) != Err(TooLarge)
    ensures |Payload(Streamed(b, i, total, Some(U64_MAX), timeout).0)| == Readable(b, i, timeout)
    decreases |b.arrivals| - i
  {
    if i < |b.arrivals| && !(timeout && b.arrivals[i].late) {
      match b.arrivals[i].frame
      case Broken =>
      case Trailers => NeverOverflows(b, i + 1, total, timeout);
      case Data(d) =>
        NeverOverflows(b, i + 1, SaturatingAdd(total, |d|), timeout);
        var msgs := Streamed(b, i + 1, SaturatingAdd(total, |d|), Some(U64_MAX), timeout).0;
        assert ([Chunk(d)] + msgs)[1..] == msgs;
    }
  }

  /** Under every setting streamed and buffered readers agree on every body: bytes, errors and
      metrics alike. Nothing beyond a limit that is set is forwarded, and the body is accepted
      exactly if it arrives in full and, where a limit is set, within it; one that is absent or
      negative refuses nothing. */
  lemma {:induction false} ReadersAgree(b: Incoming, bodyLimit: Setting, timeout: bool)
    ensures var limit := LimitOf(bodyLimit);
      var (msgs, n) := Streamed(b, 0, 0, limit, timeout);
      var (r, m) := Buffered(b, 0, [], limit, timeout);
      && r == Received(msgs) && m == n
      && (bodyLimit.Some? && bodyLimit.value >= 0 ==> |Payload(msgs)| <= bodyLimit.value)
      && (r.Ok? <==> Arrives(b, 0, timeout)
                     && (bodyLimit.Some? && bodyLimit.value >= 0 ==> |DataFrom(b, 0)| <= bodyLimit.value))
      && (r.Ok? ==> r.value == DataFrom(b, 0))
  {
    ReadersAgreeIff(b, LimitOf(bodyLimit), timeout);
    BufferedOkIff(b, 0, [], LimitOf(bodyLimit), timeout);
    assert [] + DataFrom(b, 0) == DataFrom(b, 0);
  }

  /** The margin of the unsigned arithmetic: as functions of any 64-bit limit the readers
      would differ only where a saturating counter can no longer exceed it, at 2^64 - 1 and
      with a longer body. No setting reaches that limit. */
  lemma {:induction false} ReadersAgreeIff(b: Incoming, limit: Option<nat>, timeout: bool)
    requires limit.Some? ==> limit.value <= U64_MAX
    ensures var (msgs, n) := Streamed(b, 0, 0, limit, timeout);
      && Buffered(b, 0, [], limit, timeout) == (Received(msgs), n) && !Over(limit, |Payload(msgs)|)
      <==> !(limit == Some(U64_MAX) && Readable(b, 0, timeout) > U64_MAX)
  {
    var (msgs, n) := Streamed(b, 0, 0, limit, timeout);
    if limit == Some(U64_MAX) && Readable(b, 0, timeout) > U64_MAX {
      MaxLimitDiffers(b, 0, 0, [], U64_MAX, timeout);
    } else {
      AgreeFrom(b, 0, [], limit, timeout);
      assert Received(msgs).Ok? ==> [] + Received(msgs).value == Received(msgs).value;
    }
  }

  // ---- the JS side of the streamed route ----

  /** `collectRaw` over `BodyIo.read`, with its own limit: 413 exactly when more than that
      arrives before a marker, else what the messages say. */
  function Collected(msgs: seq<Msg>, limit: Option<nat>): Result<Bytes> {
    if Over(limit, |Payload(msgs)|) then Err(TooLarge) else Received(msgs)
  }

  /** So a handler that collects the stream under the server's own limit sees what the
      buffered route would have, on every body; this holds for any 64-bit limit. */
  lemma {:induction false} HandlerSeesBuffered(b: Incoming, limit: Option<nat>, timeout: bool)
    requires limit.Some? ==> limit.value <= U64_MAX
    ensures Collected(Streamed(b, 0, 0, limit, timeout).0, limit) == Buffered(b, 0, [], limit, timeout).0
  {
    ReadersAgreeIff(b, limit, timeout);
    if limit == Some(U64_MAX) && Readable(b, 0, timeout) > U64_MAX {
      MaxLimitDiffers(b, 0, 0, [], U64_MAX, timeout);
      NeverOverflows(b, 0, 0, timeout);
    }
  }

  method CollectRaw(msgs: seq<Msg>, limit: Option<nat>) returns (r: Result<Bytes>)
    ensures r == Collected(msgs, limit)
  {
    var chunks: Bytes, i := [], 0;
    assert msgs[0..] == msgs;
    assert Received(msgs).Ok? ==> [] + Received(msgs).value == Received(msgs).value;
    while i < |msgs|
      invariant i <= |msgs| && Received(msgs) == Prepend(chunks, Received(msgs[i..]))
      invariant |chunks| + |Payload(msgs[i..])| == |Payload(msgs)| && !Over(limit, |chunks|)
    {
      assert msgs[i..][1..] == msgs[i + 1..];
      match msgs[i]
      case Overflow => return Err(TooLarge);
      case Timeout => return Err(TimedOut);
      case Aborted => return Err(Cut);
      case Chunk(d) =>
        if Over(limit, |chunks| + |d|) { return Err(TooLarge); }
        ghost var tail := Received(msgs[i + 1..]);
        assert tail.Ok? ==> chunks + (d + tail.value) == (chunks + d) + tail.value;
        chunks := chunks + d;
        i := i + 1;
    }
    assert msgs[i..] == [] && chunks + [] == chunks;
    r := Ok(chunks);
  }

  // ---- the bounded decoder ----

  const CHUNK: nat := 8192

  /** One `read` of the decoder: up to 8192 bytes of output, or an error. */
  datatype Read = Got(bytes: Bytes) | Fail

  datatype DecodeErr = Invalid | DecodedTooLarge

  datatype Decoded = Plain(bytes: Bytes) | Refused(error: DecodeErr)

  /** The decoder's output up to its first error. */
  function Output(steps: seq<Read>): Bytes {
    if steps == [] || steps[0] == Fail then [] else steps[0].bytes + Output(steps[1..])
  }

  lemma {:induction false} OutputSnoc(steps: seq<Read>, i: nat)
    requires i < |steps| && forall j :: 0 <= j <= i ==> steps[j].Got?
    ensures Output(steps[..i + 1]) == Output(steps[..i]) + steps[i].bytes
  {
    if i == 0 {
      assert steps[..1] == [steps[0]] && steps[..1][1..] == [];
    } else {
      assert steps[..i + 1][1..] == steps[1..][..i] && steps[..i][1..] == steps[1..][..i - 1];
      OutputSnoc(steps[1..], i - 1);
    }
  }

  lemma {:induction false} OutputPrefix(steps: seq<Read>, i: nat)
    requires i <= |steps|
    ensures Output(steps[..i]) <= Output(steps)
    ensures i < |steps| && steps[i] == Fail ==> Output(steps[..i]) == Output(steps)
  {
    if i > 0 && steps[0] != Fail {
      assert steps[..i][1..] == steps[1..][..i - 1];
      OutputPrefix(steps[1..], i - 1);
    }
  }

  /** `read_bounded`: succeeds exactly on the full output within the limit, refuses as too
      large exactly when more than the limit comes out before any error, and never holds
      more than one read beyond the limit; how the output is cut into reads is irrelevant. */
  method ReadBounded(steps: seq<Read>, limit: Option<nat>) returns (r: Decoded, peak: nat)
    requires forall i :: 0 <= i < |steps| && steps[i].Got? ==> 0 < |steps[i].bytes| <= CHUNK
    ensures r == if limit.Some? && |Output(steps)| > limit.value then Refused(DecodedTooLarge)
                 else if Fail in steps then Refused(Invalid) else Plain(Output(steps))
    ensures limit.Some? ==> peak <= limit.value + 8192
  {
    var out: Bytes, i := [], 0;
    peak := 0;
    while i < |steps|
      invariant i <= |steps| && out == Output(steps[..i]) && Fail !in steps[..i]
      invariant !Over(limit, |out|) && peak == |out|
    {
      OutputPrefix(steps, i);
      if steps[i] == Fail { return Refused(Invalid), peak; }
      OutputSnoc(steps, i);
      OutputPrefix(steps, i + 1);
      out := out + steps[i].bytes;
      peak := |out|;
      i := i + 1;
      if Over(limit, |out|) { return Refused(DecodedTooLarge), peak; }
    }
    assert steps[..i] == steps;
    r := Plain(out);
  }
}
