/** A whole form, from the parser through the channel to a handler that collects every part
    (js/context.ts `partsIterator` and `makePart`). */
module MultipartForm {
  import opened Common
  import opened Multipart

  /** A part as a handler sees it after collecting it. */
  datatype Item = Item(part: Event, content: Bytes)

  datatype Collected = Whole(items: seq<Item>) | CutBy(reject: Event)

  function ItemOf(f: Field): Item { Item(Part(f.name, f.filename, f.contentType), Flatten(f.chunks)) }

  function ItemsOf(fields: seq<Field>): seq<Item> {
    if fields == [] then [] else ItemsOf(fields[..|fields| - 1]) + [ItemOf(fields[|fields| - 1])]
  }

  function SeenIn(fields: seq<Field>): Seen {
    if fields == [] then NONE_SEEN else Count(SeenIn(fields[..|fields| - 1]), fields[|fields| - 1])
  }

  predicate FieldOk(cfg: Config, f: Field) {
    && !f.broken && Fits(cfg, f)
    && (f.filename.Some? ==> MimeAllowed(f.contentType, cfg.allowedMime) && ExtAllowed(f.filename, cfg.allowedExt))
  }

  predicate CountsFit(cfg: Config, seen: Seen) {
    !Over(cfg.maxFiles, seen.files) && !Over(cfg.maxFields, seen.fields)
  }

  /** What the configuration accepts, said of the form alone. */
  ghost predicate Acceptable(cfg: Config, form: Form) {
    && !form.broken && CountsFit(cfg, SeenIn(form.fields))
    && forall i :: 0 <= i < |form.fields| ==> FieldOk(cfg, form.fields[i])
  }

  /** The same, said of the settings as they stand: what is not set, or set to a negative
      number, refuses nothing. */
  ghost predicate Meets(o: Settings, form: Form) {
    && !form.broken
    && (o.maxFiles.Some? && o.maxFiles.value >= 0 ==> SeenIn(form.fields).files <= o.maxFiles.value)
    && (o.maxFields.Some? && o.maxFields.value >= 0 ==> SeenIn(form.fields).fields <= o.maxFields.value)
    && forall i :: 0 <= i < |form.fields| ==> FieldMeets(o, form.fields[i])
  }

  ghost predicate FieldMeets(o: Settings, f: Field) {
    && !f.broken
    && (f.filename.Some? ==>
          && (o.maxFileSize.Some? && o.maxFileSize.value >= 0 ==> Size(f.chunks) <= o.maxFileSize.value)
          && (o.allowedMime.Some? ==>
                exists p <- o.allowedMime.value :: MimeMatches(MediaType(f.contentType), Lower(p)))
          && (o.allowedExt.Some? ==> exists e <- o.allowedExt.value :: EndsWith(Lower(f.filename.value), Lower(e))))
    && (f.filename.None? && o.maxFieldSize.Some? && o.maxFieldSize.value >= 0 ==>
          Size(f.chunks) <= o.maxFieldSize.value)
  }

  lemma {:induction false} ListsAsSet(o: Settings, f: Field)
    requires f.filename.Some?
    ensures MimeAllowed(f.contentType, Configure(o).allowedMime) <==>
      (o.allowedMime.Some? ==> exists p <- o.allowedMime.value :: MimeMatches(MediaType(f.contentType), Lower(p)))
    ensures ExtAllowed(f.filename, Configure(o).allowedExt) <==>
      (o.allowedExt.Some? ==> exists e <- o.allowedExt.value :: EndsWith(Lower(f.filename.value), Lower(e)))
  {
    if o.allowedMime.Some? {
      var ps, low := o.allowedMime.value, Configure(o).allowedMime.value;
      if i :| 0 <= i < |low| && MimeMatches(MediaType(f.contentType), low[i]) { assert ps[i] in ps; }
      if p :| p in ps && MimeMatches(MediaType(f.contentType), Lower(p)) {
        var i :| 0 <= i < |ps| && ps[i] == p;
        assert low[i] == Lower(p);
      }
    }
    if o.allowedExt.Some? {
      var es, low := o.allowedExt.value, Configure(o).allowedExt.value;
      if i :| 0 <= i < |low| && EndsWith(Lower(f.filename.value), low[i]) { assert es[i] in es; }
      if e :| e in es && EndsWith(Lower(f.filename.value), Lower(e)) {
        var i :| 0 <= i < |es| && es[i] == e;
        assert low[i] == Lower(e);
      }
    }
  }

  /** With counts below 2^32 the settings are honoured to the letter. */
  lemma {:induction false} AcceptableAsSet(o: Settings, form: Form)
    requires o.maxFiles.Some? ==> o.maxFiles.value < 0x1_0000_0000
    requires o.maxFields.Some? ==> o.maxFields.value < 0x1_0000_0000
    ensures Acceptable(Configure(o), form) <==> Meets(o, form)
  {
    forall i | 0 <= i < |form.fields|
      ensures FieldOk(Configure(o), form.fields[i]) <==> FieldMeets(o, form.fields[i])
    {
      if form.fields[i].filename.Some? { ListsAsSet(o, form.fields[i]); }
    }
  }

  lemma {:induction false} SeenGrows(fields: seq<Field>, i: nat)
    requires i <= |fields|
    ensures SeenIn(fields[..i]).files <= SeenIn(fields).files && SeenIn(fields[..i]).fields <= SeenIn(fields).fields
  {
    var n := |fields| - 1;
    if i <= n {
      SeenGrows(fields[..n], i);
      assert fields[..n][..i] == fields[..i];
    } else {
      assert fields[..i] == fields;
    }
  }

  lemma {:induction false} SizeGrows(chunks: seq<Bytes>, j: nat)
    requires j < |chunks|
    ensures Size(chunks[..j + 1]) == Size(chunks[..j]) + |chunks[j]| && Size(chunks[..j + 1]) <= Size(chunks)
  {
    if j == 0 {
      assert chunks[..1] == [chunks[0]] && chunks[..1][1..] == [];
    } else {
      assert chunks[..j + 1][1..] == chunks[1..][..j] && chunks[..j][1..] == chunks[1..][..j - 1];
      SizeGrows(chunks[1..], j - 1);
    }
  }

  /** A part refused before its announcement makes the form unacceptable. */
  lemma {:induction false} RefusedUnacceptable(cfg: Config, form: Form, i: nat)
    requires i < |form.fields|
    requires RefusedAs(cfg, form.fields[i], SeenIn(form.fields[..i + 1])).Some?
    ensures !Acceptable(cfg, form)
  {
    SeenGrows(form.fields, i + 1);
  }

  lemma {:induction false} SeenSnoc(fields: seq<Field>, i: nat)
    requires i < |fields|
    ensures SeenIn(fields[..i + 1]) == Count(SeenIn(fields[..i]), fields[i])
    ensures ItemsOf(fields[..i + 1]) == ItemsOf(fields[..i]) + [ItemOf(fields[i])]
  {
    assert fields[..i + 1][..i] == fields[..i];
  }

  /** The first thing `next_part` finds from part `i` on. */
  lemma {:induction false} NextOnEmitted(cfg: Config, form: Form, i: nat, seen: Seen)
    requires i <= |form.fields|
    ensures var (r, rest) := NextOn(Emitted(cfg, form, i, seen));
      if i == |form.fields| then r == if form.broken then NextError(Reject(400, "malformed multipart")) else NextNull
      else
        var f := form.fields[i];
        var refusal := RefusedAs(cfg, f, Count(seen, f));
        && (refusal.Some? ==> r == NextError(refusal.value))
        && (refusal.None? ==>
              && r == Meta(Part(f.name, f.filename, f.contentType))
              && rest == Content(cfg, f, 0, 0) + Following(cfg, form, i, seen))
  {
    if i < |form.fields| {
      var f, after := form.fields[i], Following(cfg, form, i, seen);
      assert (PartEvents(cfg, f) + after)[1..] == Content(cfg, f, 0, 0) + after;
    }
  }

  /** A part announced and collected in full is a good one. */
  lemma {:induction false} CollectedOk(cfg: Config, f: Field, seen: Seen)
    requires RefusedAs(cfg, f, Count(seen, f)).None? && CountsFit(cfg, seen)
    ensures CountsFit(cfg, Count(seen, f))
    ensures FieldOk(cfg, f) <==> !f.broken && Fits(cfg, f)
    ensures FieldOk(cfg, f) <==> EndsPart(Content(cfg, f, 0, 0))
  {
    assert f.chunks[..0] == [];
    EndsPartIff(cfg, f, 0, 0);
  }

  predicate Fits(cfg: Config, f: Field) { WithinLimit(SizeLimit(cfg, f.filename.Some?), Size(f.chunks)) }

  /** What `read_part` finds at chunk `j`. */
  lemma {:induction false} PieceOnContent(cfg: Config, f: Field, j: nat, size: nat, after: seq<Event>)
    requires j <= |f.chunks|
    ensures var (r, rest, ended) := PieceOn(Content(cfg, f, j, size) + after);
      if j == |f.chunks| then
        if f.broken then r.PieceError? && r.reject.Reject? else r == PieceNull && rest == after && ended
      else
        var size' := SaturatingAdd(size, |f.chunks[j]|);
        if Over(SizeLimit(cfg, f.filename.Some?), size') then r.PieceError? && r.reject.Reject?
        else r == Bit(f.chunks[j]) && rest == Content(cfg, f, j + 1, size') + after && !ended
  {
    var c := Content(cfg, f, j, size);
    assert (c + after)[0] == c[0] && (c + after)[1..] == c[1..] + after;
    if j == |f.chunks| {
      assert c[1..] + after == after;
    } else if c[0].Chunk? {
      assert c[1..] == Content(cfg, f, j + 1, SaturatingAdd(size, |f.chunks[j]|));
    }
  }

  lemma {:induction false} EndsPartIff(cfg: Config, f: Field, j: nat, size: nat)
    requires j <= |f.chunks| && size == SaturatingAdd(0, Size(f.chunks[..j]))
    requires !Over(SizeLimit(cfg, f.filename.Some?), size)
    ensures EndsPart(Content(cfg, f, j, size)) <==> !f.broken && Fits(cfg, f)
    decreases |f.chunks| - j
  {
    if j == |f.chunks| {
      assert f.chunks[..j] == f.chunks;
    } else {
      ChunkStep(f.chunks, j);
      var size' := SaturatingAdd(size, |f.chunks[j]|);
      if !Over(SizeLimit(cfg, f.filename.Some?), size') { EndsPartIff(cfg, f, j + 1, size'); }
    }
  }

  lemma {:induction false} ChunkStep(chunks: seq<Bytes>, j: nat)
    requires j < |chunks|
    ensures SaturatingAdd(0, Size(chunks[..j + 1])) == SaturatingAdd(SaturatingAdd(0, Size(chunks[..j])), |chunks[j]|)
    ensures Size(chunks[..j + 1]) <= Size(chunks) && Flatten(chunks[..j + 1]) == Flatten(chunks[..j]) + chunks[j]
  {
    SizeGrows(chunks, j);
    FlattenAppend(chunks[..j], chunks[j]);
    assert chunks[..j + 1] == chunks[..j] + [chunks[j]];
  }

  /** The first `i` parts are good. */
  ghost predicate GoodUpTo(cfg: Config, form: Form, i: nat) {
    && i <= |form.fields| && CountsFit(cfg, SeenIn(form.fields[..i]))
    && forall k :: 0 <= k < i ==> FieldOk(cfg, form.fields[k])
  }

  /** What the loop knows after `next_part` at part `i`. */
  lemma {:induction false} AtPart(cfg: Config, form: Form, i: nat)
    requires GoodUpTo(cfg, form, i)
    ensures var seen := SeenIn(form.fields[..i]);
      var (r, rest) := NextOn(Emitted(cfg, form, i, seen));
      && (r.NextNull? ==> Acceptable(cfg, form) && form.fields[..i] == form.fields)
      && (r.NextError? ==> !Acceptable(cfg, form) && r.reject.Reject?)
      && (r.Meta? ==>
            && i < |form.fields| && r.part == ItemOf(form.fields[i]).part
            && rest == Content(cfg, form.fields[i], 0, 0) + Following(cfg, form, i, seen)
            && (FieldOk(cfg, form.fields[i]) <==> !form.fields[i].broken && Fits(cfg, form.fields[i]))
            && (FieldOk(cfg, form.fields[i]) ==>
                  && GoodUpTo(cfg, form, i + 1)
                  && Following(cfg, form, i, seen) == Emitted(cfg, form, i + 1, SeenIn(form.fields[..i + 1]))))
  {
    var seen := SeenIn(form.fields[..i]);
    NextOnEmitted(cfg, form, i, seen);
    if i < |form.fields| {
      SeenSnoc(form.fields, i);
      if RefusedAs(cfg, form.fields[i], Count(seen, form.fields[i])).Some? {
        RefusedUnacceptable(cfg, form, i);
      } else {
        CollectedOk(cfg, form.fields[i], seen);
      }
    } else {
      assert form.fields[..i] == form.fields;
    }
  }

  /** A handler that collects one part: `read_part` until null or an error. */
  method CollectPart(io: BodyIo, ghost cfg: Config, ghost f: Field, ghost after: seq<Event>)
      returns (content: Bytes, reject: Option<Event>)
    requires io.rx == Content(cfg, f, 0, 0) + after && !io.ended
    modifies io
    ensures reject.None? ==> io.rx == after && io.ended && content == Flatten(f.chunks)
    ensures reject.None? <==> !f.broken && Fits(cfg, f)
    ensures reject.Some? ==> reject.value.Reject?
  {
    content := [];
    ghost var j, size := 0, 0;
    while true
      invariant j <= |f.chunks| && io.rx == Content(cfg, f, j, size) + after && !io.ended
      invariant size == SaturatingAdd(0, Size(f.chunks[..j])) && content == Flatten(f.chunks[..j])
      invariant !Over(SizeLimit(cfg, f.filename.Some?), size)
      decreases |f.chunks| - j
    {
      PieceOnContent(cfg, f, j, size, after);
      if j < |f.chunks| { ChunkStep(f.chunks, j); } else { assert f.chunks[..j] == f.chunks; }
      var piece := io.ReadPart();
      if piece.PieceNull? { return content, None; }
      if piece.PieceError? { return content, Some(piece.reject); }
      content := content + piece.bytes;
      size := SaturatingAdd(size, |f.chunks[j]|);
      j := j + 1;
    }
  }

  /** The JS part iterator with every part collected: over the events of any form, the
      handler gets the parts of the form, all of them, in order and byte for byte, exactly
      when the form is acceptable, and the rejection otherwise. */
  method CollectForm(io: BodyIo, ghost cfg: Config, ghost form: Form) returns (r: Collected)
    requires io.rx == Trace(cfg, form) && !io.ended
    modifies io
    ensures r.Whole? <==> Acceptable(cfg, form)
    ensures r.Whole? ==> r.items == ItemsOf(form.fields)
    ensures r.CutBy? ==> r.reject.Reject?
  {
    var items := [];
    ghost var i := 0;
    while true
      invariant GoodUpTo(cfg, form, i) && items == ItemsOf(form.fields[..i])
      invariant io.rx == Emitted(cfg, form, i, SeenIn(form.fields[..i]))
      decreases |form.fields| - i
    {
      AtPart(cfg, form, i);
      var next := io.NextPart();
      if next.NextNull? { return Whole(items); }
      if next.NextError? { return CutBy(next.reject); }
      SeenSnoc(form.fields, i);
      var content, reject := CollectPart(io, cfg, form.fields[i], Following(cfg, form, i, SeenIn(form.fields[..i])));
      if reject.Some? { return CutBy(reject.value); }
      items := items + [Item(next.part, content)];
      i := i + 1;
    }
  }

  // ---- part objects in any order ----

  /** Event `q` is a chunk of the part announced at `p`. */
  ghost predicate Within(ev: seq<Event>, p: nat, q: nat) {
    p < q < |ev| && ev[p].Part? && forall j :: p < j <= q ==> ev[j].Chunk?
  }

  lemma {:induction false} RunChunks(ev: seq<Event>, start: nat, n: nat)
    requires n < |ChunkRun(ev, start)|
    ensures start + n < |ev| && ev[start + n].Chunk?
    decreases n
  {
    if n > 0 { RunChunks(ev, start + 1, n - 1); }
  }

  /** All part objects read from one channel: bytes read through the object of part `p`, after
      any calls whatever, are bytes of part `p` exactly if `p` is the latest announced one. */
  lemma {:induction false} ReadBelongsIff(cfg: Config, form: Form, calls: seq<Call>, p: nat)
    requires var c := DoAll(Trace(cfg, form), calls); !c.ended && PieceOn(c.rest).0.Bit?
    ensures var ev := Trace(cfg, form);
      var c := DoAll(ev, calls);
      var q := |ev| - |c.rest|;
      && 0 <= q < |ev| && ev[q].Chunk? && PieceOn(c.rest).0 == Bit(ev[q].bytes)
      && (Within(ev, p, q) <==> c.current == Some(p))
  {
    var ev := Trace(cfg, form);
    TraceGrammar(cfg, form, 0, NONE_SEEN);
    ConsumerAlong(ev, calls);
    var c := DoAll(ev, calls);
    var q := |ev| - |c.rest|;
    assert ev[q] == c.rest[0];
    if c.current.None? { BetweenStarts(c.rest); }
    var own := c.current.value;
    assert Reading(ev, c, own, q);
    forall j | own < j < q ensures ev[j].Chunk? { RunChunks(ev, own + 1, j - own - 1); }
    assert Within(ev, own, q);
    WithinUnique(ev, p, own, q);
  }

  lemma {:induction false} WithinUnique(ev: seq<Event>, p: nat, o: nat, q: nat)
    ensures Within(ev, p, q) && Within(ev, o, q) ==> p == o
  {}

  /** And it does happen: the object of the first part, read after the second was announced,
      yields the bytes of the second. */
  lemma {:induction false} StaleObjectReadsOther(data: Bytes)
    ensures var ev := [Part(None, None, None), PartEnd, Part(None, None, None), Chunk(data), PartEnd];
      var c := DoAll(ev, [CallNext, CallNext]);
      Complete(ev, Between) && c.current == Some(2) && !c.ended && PieceOn(c.rest).0 == Bit(data)
  {
    var p := Part(None, None, None);
    var ev := [p, PartEnd, p, Chunk(data), PartEnd];
    assert ev[1..] == [PartEnd, p, Chunk(data), PartEnd] && ev[2..] == [p, Chunk(data), PartEnd];
    assert ev[1..][1..] == ev[2..] && ev[2..][1..] == [Chunk(data), PartEnd];
    assert [Chunk(data), PartEnd][1..] == [PartEnd] && [PartEnd][1..] == [];
    assert Scan([PartEnd], Inside) == Between && Scan([Chunk(data), PartEnd], Inside) == Between;
    assert Scan(ev[2..], Between) == Between && Scan(ev[1..], Inside) == Between;
    var calls := [CallNext, CallNext];
    assert calls[..1] == [CallNext] && calls[..1][..0] == [];
    var c1 := DoAll(ev, calls[..1]);
    assert c1 == Do(ev, DoAll(ev, []), CallNext) && c1.rest == ev[1..];
    assert NextOn(ev[1..]) == NextOn(ev[2..]);
    assert DoAll(ev, calls) == Do(ev, c1, CallNext);
  }

  /** What is left to read of the part announced last. */
  function Left(ev: seq<Event>, c: Consumer): Bytes {
    if c.current.None? || |c.got| > |ChunkRun(ev, c.current.value + 1)| then []
    else Flatten(ChunkRun(ev, c.current.value + 1)[|c.got|..])
  }

  /** `d` is `c` after some reads, and `content` is what they brought. */
  ghost predicate Collecting(ev: seq<Event>, c: Consumer, d: Consumer, content: Bytes) {
    && ConsumerInv(ev, d) && d.current == c.current
    && |c.got| <= |d.got| && content == Flatten(d.got[|c.got|..])
  }

  function PieceOf(c: Consumer): Piece { if c.ended then PieceNull else PieceOn(c.rest).0 }

  lemma {:induction false} CollectStart(ev: seq<Event>, calls: seq<Call>)
    requires Complete(ev, Between)
    ensures Collecting(ev, DoAll(ev, calls), DoAll(ev, calls), [])
  {
    ConsumerAlong(ev, calls);
    assert DoAll(ev, calls).got[|DoAll(ev, calls).got|..] == [];
  }

  lemma {:induction false} CollectChunk(ev: seq<Event>, c: Consumer, d: Consumer, content: Bytes)
    requires Collecting(ev, c, d, content) && PieceOf(d).Bit?
    ensures Collecting(ev, c, Do(ev, d, CallRead), content + PieceOf(d).bytes)
    ensures |Do(ev, d, CallRead).rest| < |d.rest|
  {
    ReadKeeps(ev, d);
    if d.current.None? { BetweenStarts(d.rest); }
    FlattenAppend(d.got[|c.got|..], PieceOf(d).bytes);
    assert (d.got + [PieceOf(d).bytes])[|c.got|..] == d.got[|c.got|..] + [PieceOf(d).bytes];
  }

  lemma {:induction false} CollectEnd(ev: seq<Event>, c: Consumer, d: Consumer, content: Bytes)
    requires Collecting(ev, c, d, content) && PieceOf(d).PieceNull?
    ensures content == Left(ev, c)
  {
    ReadKeeps(ev, d);
    var d' := Do(ev, d, CallRead);
    assert d'.got == d.got && d'.over;
    if c.current.Some? {
      assert ChunkRun(ev, c.current.value + 1) == d.got;
    }
  }

  ghost predicate Synced(io: BodyIo, c: Consumer) reads io { io.rx == c.rest && io.ended == c.ended }

  method ReadTracked(io: BodyIo, ghost ev: seq<Event>, ghost c: Consumer) returns (piece: Piece)
    requires Synced(io, c)
    modifies io
    ensures Synced(io, Do(ev, c, CallRead)) && piece == PieceOf(c)
  {
    piece := io.ReadPart();
  }

  /** Collecting through any part object, after any calls: what comes is what was left of the
      part announced last, the whole of it right after its announcement, only the tail after a
      partial read, and nothing if no part is announced. */
  method Collect(io: BodyIo, ghost ev: seq<Event>, ghost calls: seq<Call>)
      returns (content: Bytes, reject: Option<Event>)
    requires Complete(ev, Between) && Synced(io, DoAll(ev, calls))
    modifies io
    ensures reject.Some? ==> reject.value.Reject?
    ensures reject.None? ==> content == Left(ev, DoAll(ev, calls))
  {
    content := [];
    ghost var c := DoAll(ev, calls);
    ghost var d := c;
    CollectStart(ev, calls);
    while true
      invariant Synced(io, d) && Collecting(ev, c, d, content)
      decreases |d.rest|
    {
      var piece := ReadTracked(io, ev, d);
      if piece.PieceNull? {
        CollectEnd(ev, c, d, content);
        return content, None;
      }
      if piece.PieceError? { return content, Some(piece.reject); }
      CollectChunk(ev, c, d, content);
      content := content + piece.bytes;
      d := Do(ev, d, CallRead);
    }
  }
}
