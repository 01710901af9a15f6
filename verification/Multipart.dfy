/** Multipart forms: the event producer (src/multipart.rs `parse_task`) and its consumer
    (src/stream.rs `next_part`/`read_part`), joined by a FIFO channel. */
module Multipart {
  import opened Common

  /** A part as the form parser yields it: its chunks, then a clean end or a parse error. */
  datatype Field = Field(
    name: Option<string>, filename: Option<string>, contentType: Option<string>, chunks: seq<Bytes>, broken: bool)

  /** A form: its parts, then a clean end or a parse error. */
  datatype Form = Form(fields: seq<Field>, broken: bool)

  datatype Config = Config(
    maxFileSize: Option<nat>, maxFieldSize: Option<nat>, maxFiles: Option<nat>, maxFields: Option<nat>,
    allowedMime: Option<seq<string>>, allowedExt: Option<seq<string>>)

  /** The settings of a route, as the JS side passes them on. */
  datatype Settings = Settings(
    maxFileSize: Setting, maxFieldSize: Setting, maxFiles: Setting, maxFields: Setting,
    allowedMime: Option<seq<string>>, allowedExt: Option<seq<string>>)

  const U32: nat := 0x1_0000_0000

  /** The two counts are cut to 32 bits, without a check. */
  function CountLimitOf(o: Setting): Option<nat> { if LimitOf(o).Some? then Some(LimitOf(o).value % U32) else None }

  function LowerAll(names: seq<string>): seq<string> { seq(|names|, i requires 0 <= i < |names| => Lower(names[i])) }

  function Configure(o: Settings): Config {
    Config(LimitOf(o.maxFileSize), LimitOf(o.maxFieldSize), CountLimitOf(o.maxFiles), CountLimitOf(o.maxFields),
           if o.allowedMime.Some? then Some(LowerAll(o.allowedMime.value)) else None,
           if o.allowedExt.Some? then Some(LowerAll(o.allowedExt.value)) else None)
  }

  datatype Event =
    | Part(name: Option<string>, filename: Option<string>, contentType: Option<string>)
    | Chunk(bytes: Bytes)
    | PartEnd
    | Reject(status: nat, message: string)

  /** The media type before any `;`. */
  function MainType(s: string): string { if s == "" || s[0] == ';' then "" else [s[0]] + MainType(s[1..]) }

  function TrimStart(s: string): string { if s != "" && s[0] in " \t\r\n" then TrimStart(s[1..]) else s }
  function TrimEnd(s: string): string { if s != "" && s[|s| - 1] in " \t\r\n" then TrimEnd(s[..|s| - 1]) else s }

  function MediaType(contentType: Option<string>): string {
    TrimEnd(TrimStart(MainType(Lower(if contentType.Some? then contentType.value else ""))))
  }

  predicate MimeMatches(main: string, pattern: string) {
    if EndsWith(pattern, "/*") then StartsWith(main, pattern[..|pattern| - 1]) else main == pattern
  }

  predicate MimeAllowed(contentType: Option<string>, patterns: Option<seq<string>>) {
    patterns.Some? ==>
      exists i :: 0 <= i < |patterns.value| && MimeMatches(MediaType(contentType), patterns.value[i])
  }

  predicate ExtAllowed(filename: Option<string>, exts: Option<seq<string>>) {
    exts.Some? && filename.Some? ==> exists i :: 0 <= i < |exts.value| && EndsWith(Lower(filename.value), exts.value[i])
  }

  // ---- what these tests mean ----

  predicate BlankChar(c: char) { c == ' ' || c == '\t' || c == '\r' || c == '\n' }

  predicate Blank(s: string) { forall i :: 0 <= i < |s| ==> BlankChar(s[i]) }

  /** The media type is what stands before the first `;`. */
  lemma {:induction false} MainTypeIs(s: string) returns (params: string)
    ensures s == MainType(s) + params && ';' !in MainType(s) && (params == "" || params[0] == ';')
  {
    if s == "" || s[0] == ';' {
      params := s;
    } else {
      params := MainTypeIs(s[1..]);
    }
  }

  /** Trimming removes blanks at both ends, and all of them. */
  lemma {:induction false} TrimStartIs(s: string) returns (cut: string)
    ensures s == cut + TrimStart(s) && Blank(cut) && (TrimStart(s) == "" || !BlankChar(TrimStart(s)[0]))
  {
    cut := "";
    if s != "" && s[0] in " \t\r\n" {
      var rest := TrimStartIs(s[1..]);
      cut := [s[0]] + rest;
    }
  }

  lemma {:induction false} TrimEndIs(s: string) returns (cut: string)
    ensures s == TrimEnd(s) + cut && Blank(cut) && (TrimEnd(s) == "" || !BlankChar(TrimEnd(s)[|TrimEnd(s)| - 1]))
  {
    cut := "";
    if s != "" && s[|s| - 1] in " \t\r\n" {
      var rest := TrimEndIs(s[..|s| - 1]);
      cut := rest + [s[|s| - 1]];
      assert s == s[..|s| - 1] + [s[|s| - 1]];
    }
  }

  // A pattern `type/*` allows every subtype, any other pattern only itself.
  lemma {:induction false} MimeMatchesIff(main: string, pattern: string)
    ensures MimeMatches(main, pattern) <==>
      if exists kind :: pattern == kind + "/*"
      then exists kind, sub :: pattern == kind + "/*" && main == kind + "/" + sub
      else main == pattern
  {
    EndsWithIff(pattern, "/*");
    if kind :| pattern == kind + "/*" {
      assert pattern[..|pattern| - 1] == kind + "/";
      StartsWithIff(main, kind + "/");
      if MimeMatches(main, pattern) {
        var sub :| main == (kind + "/") + sub;
        assert main == kind + "/" + sub;
      }
      if kind', sub :| pattern == kind' + "/*" && main == kind' + "/" + sub {
        assert |kind'| == |kind| && kind' == pattern[..|kind|] == kind;
      }
    }
  }

  /** Without a list every extension is allowed, and so is a part without a file name; with a
      list the lower-cased name must end in one of its extensions. */
  lemma {:induction false} ExtAllowedIff(filename: Option<string>, exts: Option<seq<string>>)
    ensures ExtAllowed(filename, exts) <==>
      || exts.None? || filename.None?
      || exists i, stem :: 0 <= i < |exts.value| && Lower(filename.value) == stem + exts.value[i]
  {
    if exts.Some? && filename.Some? {
      forall i | 0 <= i < |exts.value|
        ensures EndsWith(Lower(filename.value), exts.value[i])
           <==> exists stem :: Lower(filename.value) == stem + exts.value[i]
      {
        EndsWithIff(Lower(filename.value), exts.value[i]);
      }
    }
  }

  /** A part is refused for the first thing wrong with it, with that status: one file or field
      too many, then, for files, the type and the extension. */
  lemma {:induction false} RefusalIs(cfg: Config, f: Field, nth: nat)
    ensures Refusal(cfg, f, nth) ==
      if f.filename.None? then
        if cfg.maxFields.Some? && nth > cfg.maxFields.value then Some(Reject(400, "too many fields")) else None
      else if cfg.maxFiles.Some? && nth > cfg.maxFiles.value then Some(Reject(400, "too many files"))
      else if !MimeAllowed(f.contentType, cfg.allowedMime) then Some(Reject(415, "mime type not allowed"))
      else if !ExtAllowed(f.filename, cfg.allowedExt) then Some(Reject(415, "file extension not allowed"))
      else None
  {}

  function SizeLimit(cfg: Config, file: bool): Option<nat> { if file then cfg.maxFileSize else cfg.maxFieldSize }

  /** Why a part is refused before it is announced; `nth` counts it among its kind. */
  function Refusal(cfg: Config, f: Field, nth: nat): Option<Event> {
    if f.filename.Some? then
      if Over(cfg.maxFiles, nth) then Some(Reject(400, "too many files"))
      else if !MimeAllowed(f.contentType, cfg.allowedMime) then Some(Reject(415, "mime type not allowed"))
      else if !ExtAllowed(f.filename, cfg.allowedExt) then Some(Reject(415, "file extension not allowed"))
      else None
    else if Over(cfg.maxFields, nth) then Some(Reject(400, "too many fields"))
    else None
  }

  /** The chunk events of a part from chunk `j` on, and how the part ends. */
  function Content(cfg: Config, f: Field, j: nat, size: nat): seq<Event>
    requires j <= |f.chunks|
    decreases |f.chunks| - j
  {
    if j == |f.chunks| then [if f.broken then Reject(400, "malformed multipart") else PartEnd]
    else
      var size' := SaturatingAdd(size, |f.chunks[j]|);
      if Over(SizeLimit(cfg, f.filename.Some?), size') then
        [Reject(if f.filename.Some? then 413 else 400, "part too large")]
      else [Chunk(f.chunks[j])] + Content(cfg, f, j + 1, size')
  }

  predicate EndsPart(s: seq<Event>) { s != [] && s[|s| - 1] == PartEnd }

  /** Files and fields seen so far. */
  datatype Seen = Seen(files: nat, fields: nat)

  function Count(seen: Seen, f: Field): Seen {
    if f.filename.Some? then seen.(files := seen.files + 1) else seen.(fields := seen.fields + 1)
  }

  /** Whether part `f`, just counted in `seen`, is refused. */
  function RefusedAs(cfg: Config, f: Field, seen: Seen): (r: Option<Event>)
    ensures r.Some? ==> r.value.Reject?
  {
    Refusal(cfg, f, if f.filename.Some? then seen.files else seen.fields)
  }

  /** The events of one announced part. */
  function PartEvents(cfg: Config, f: Field): seq<Event> {
    [Part(f.name, f.filename, f.contentType)] + Content(cfg, f, 0, 0)
  }

  /** Everything the task emits from part `i` on, to a receiver that keeps reading. */
  function Emitted(cfg: Config, form: Form, i: nat, seen: Seen): seq<Event>
    requires i <= |form.fields|
    decreases |form.fields| - i
  {
    if i == |form.fields| then if form.broken then [Reject(400, "malformed multipart")] else []
    else
      var f := form.fields[i];
      var refusal := RefusedAs(cfg, f, Count(seen, f));
      if refusal.Some? then [refusal.value] else PartEvents(cfg, f) + Following(cfg, form, i, seen)
  }

  /** What follows part `i`: nothing after a rejected one. */
  function Following(cfg: Config, form: Form, i: nat, seen: Seen): seq<Event>
    requires i < |form.fields|
    decreases |form.fields| - i, 0
  {
    if EndsPart(Content(cfg, form.fields[i], 0, 0)) then Emitted(cfg, form, i + 1, Count(seen, form.fields[i])) else []
  }

  const NONE_SEEN := Seen(0, 0)

  function Trace(cfg: Config, form: Form): seq<Event> { Emitted(cfg, form, 0, NONE_SEEN) }

  lemma {:induction false} ContentStep(cfg: Config, f: Field, j: nat, size: nat, sent: seq<Event>)
    requires j <= |f.chunks|
    ensures var c := Content(cfg, f, j, size);
      && c != [] && sent + c == (sent + [c[0]]) + c[1..]
      && (c[0].Chunk? ==> (EndsPart(c) <==> EndsPart(c[1..])))
      && (!c[0].Chunk? ==> sent + c == sent + [c[0]])
  {
    var c := Content(cfg, f, j, size);
    assert c == [c[0]] + c[1..];
    if c[0].Chunk? { assert c[1..] == Content(cfg, f, j + 1, SaturatingAdd(size, |f.chunks[j]|)); }
  }

  /** The inner loop: one part's chunks after `start`. The channel accepts `patience` events
      in all before the receiver goes away; `ended` means the part was closed properly. */
  method StreamChunks(cfg: Config, f: Field, patience: nat, start: seq<Event>)
      returns (sent: seq<Event>, ended: bool)
    requires |start| <= patience
    ensures sent == Prefix(start + Content(cfg, f, 0, 0), patience)
    ensures ended <==> sent == start + Content(cfg, f, 0, 0) && EndsPart(Content(cfg, f, 0, 0))
  {
    sent, ended := start, false;
    var size, j := 0, 0;
    ghost var all := start + Content(cfg, f, 0, 0);
    while true
      invariant j <= |f.chunks| && |sent| <= patience && all == sent + Content(cfg, f, j, size)
      invariant EndsPart(Content(cfg, f, 0, 0)) <==> EndsPart(Content(cfg, f, j, size))
      decreases |f.chunks| - j
    {
      ContentStep(cfg, f, j, size, sent);
      if |sent| == patience { return; }
      if j == |f.chunks| {
        sent := sent + [if f.broken then Reject(400, "malformed multipart") else PartEnd];
        ended := !f.broken;
        return;
      }
      size := SaturatingAdd(size, |f.chunks[j]|);
      if Over(SizeLimit(cfg, f.filename.Some?), size) {
        sent := sent + [Reject(if f.filename.Some? then 413 else 400, "part too large")];
        return;
      }
      sent := sent + [Chunk(f.chunks[j])];
      j := j + 1;
    }
  }

  /** The task itself: exactly as much of the trace as the receiver accepts. */
  method ParseTask(cfg: Config, form: Form, patience: nat) returns (sent: seq<Event>)
    ensures sent == Prefix(Trace(cfg, form), patience)
  {
    sent := [];
    var seen, i := NONE_SEEN, 0;
    ghost var all := Trace(cfg, form);
    while i < |form.fields|
      invariant i <= |form.fields| && |sent| <= patience && all == sent + Emitted(cfg, form, i, seen)
    {
      var f := form.fields[i];
      var refusal := RefusedAs(cfg, f, Count(seen, f));
      if refusal.Some? {
        if |sent| < patience { sent := sent + [refusal.value]; }
        return;
      }
      var part := Part(f.name, f.filename, f.contentType);
      Reassociate(sent, part, Content(cfg, f, 0, 0), Following(cfg, form, i, seen));
      if |sent| == patience { return; }
      var ended;
      sent, ended := StreamChunks(cfg, f, patience, sent + [part]);
      if !ended { return; }
      seen := Count(seen, f);
      i := i + 1;
    }
    if form.broken && |sent| < patience { sent := sent + [Reject(400, "malformed multipart")]; }
  }

  lemma {:induction false} Reassociate(sent: seq<Event>, part: Event, content: seq<Event>, after: seq<Event>)
    ensures sent + (([part] + content) + after) == ((sent + [part]) + content) + after
  {}

  // ---- the event grammar ----

  datatype Grammar = Between | Inside | Closed | Bad

  function Read(g: Grammar, e: Event): Grammar {
    match g
    case Between => if e.Part? then Inside else if e.Reject? then Closed else Bad
    case Inside => if e.Chunk? then Inside else if e.PartEnd? then Between else if e.Reject? then Closed else Bad
    case _ => Bad
  }

  function Scan(ev: seq<Event>, g: Grammar): Grammar {
    if ev == [] then g else Scan(ev[1..], Read(g, ev[0]))
  }

  /** (Part Chunk* PartEnd)*, possibly cut by one final Reject. */
  predicate Complete(ev: seq<Event>, g: Grammar) { Scan(ev, g) == Between || Scan(ev, g) == Closed }

  lemma {:induction false} ScanConcat(a: seq<Event>, b: seq<Event>, g: Grammar)
    ensures Scan(a + b, g) == Scan(b, Scan(a, g))
  {
    if a == [] {
      assert a + b == b;
    } else {
      assert (a + b)[1..] == a[1..] + b;
      ScanConcat(a[1..], b, Read(g, a[0]));
    }
  }

  lemma {:induction false} ContentGrammar(cfg: Config, f: Field, j: nat, size: nat)
    requires j <= |f.chunks|
    ensures var c := Content(cfg, f, j, size); Scan(c, Inside) == if EndsPart(c) then Between else Closed
    decreases |f.chunks| - j
  {
    var c := Content(cfg, f, j, size);
    if j < |f.chunks| && c[0].Chunk? {
      var size' := SaturatingAdd(size, |f.chunks[j]|);
      ContentGrammar(cfg, f, j + 1, size');
      assert c[1..] == Content(cfg, f, j + 1, size');
    } else {
      assert c[1..] == [];
    }
  }

  lemma {:induction false} PartGrammar(cfg: Config, f: Field, rest: seq<Event>)
    requires if EndsPart(Content(cfg, f, 0, 0)) then Complete(rest, Between) else rest == []
    ensures Complete(PartEvents(cfg, f) + rest, Between)
  {
    var content := Content(cfg, f, 0, 0);
    var ev := PartEvents(cfg, f) + rest;
    ContentGrammar(cfg, f, 0, 0);
    ScanConcat(content, rest, Inside);
    assert ev[0].Part? && ev[1..] == content + rest;
  }

  /** Every trace the producer emits is of that form. */
  lemma {:induction false} TraceGrammar(cfg: Config, form: Form, i: nat, seen: Seen)
    requires i <= |form.fields|
    ensures Complete(Emitted(cfg, form, i, seen), Between)
    decreases |form.fields| - i
  {
    var ev := Emitted(cfg, form, i, seen);
    if i < |form.fields| && RefusedAs(cfg, form.fields[i], Count(seen, form.fields[i])).None? {
      TraceGrammar(cfg, form, i + 1, Count(seen, form.fields[i]));
      PartGrammar(cfg, form.fields[i], Following(cfg, form, i, seen));
    } else if ev != [] {
      assert ev[0].Reject? && ev[1..] == [];
    }
  }

  // ---- limits ----

  /** The maximal run of chunk payloads from position `q` on. */
  function ChunkRun(ev: seq<Event>, q: nat): seq<Bytes>
    decreases |ev| - q
  {
    if q < |ev| && ev[q].Chunk? then [ev[q].bytes] + ChunkRun(ev, q + 1) else []
  }

  function Size(chunks: seq<Bytes>): nat { if chunks == [] then 0 else |chunks[0]| + Size(chunks[1..]) }

  lemma {:induction false} RunShift(a: seq<Event>, b: seq<Event>, q: nat)
    ensures ChunkRun(a + b, |a| + q) == ChunkRun(b, q)
    decreases |b| - q
  {
    if q < |b| && b[q].Chunk? { RunShift(a, b, q + 1); }
  }

  lemma {:induction false} ContentWithinLimit(cfg: Config, f: Field, j: nat, size: nat, ev: seq<Event>, q: nat)
    requires j <= |f.chunks| && size <= U64_MAX && !Over(SizeLimit(cfg, f.filename.Some?), size)
    requires var c := Content(cfg, f, j, size); q + |c| <= |ev| && ev[q..q + |c|] == c
    ensures !Over(SizeLimit(cfg, f.filename.Some?), SaturatingAdd(size, Size(ChunkRun(ev, q))))
    decreases |f.chunks| - j
  {
    var c := Content(cfg, f, j, size);
    assert ev[q] == c[0];
    if c[0].Chunk? {
      var size' := SaturatingAdd(size, |f.chunks[j]|);
      assert c[1..] == Content(cfg, f, j + 1, size');
      assert ev[q + 1..q + |c|] == c[1..];
      ContentWithinLimit(cfg, f, j + 1, size', ev, q + 1);
      assert ChunkRun(ev, q)[1..] == ChunkRun(ev, q + 1);
    } else {
      assert ChunkRun(ev, q) == [];
    }
  }

  lemma {:induction false} ContentHasNoPart(cfg: Config, f: Field, j: nat, size: nat)
    requires j <= |f.chunks|
    ensures forall p :: 0 <= p < |Content(cfg, f, j, size)| ==> !Content(cfg, f, j, size)[p].Part?
    decreases |f.chunks| - j
  {
    if j < |f.chunks| { ContentHasNoPart(cfg, f, j + 1, SaturatingAdd(size, |f.chunks[j]|)); }
  }

  /** A size limit as the saturating 64-bit counter enforces it. The exception at 2^64 - 1 is
      out of reach of every setting. */
  predicate WithinLimit(limit: Option<nat>, size: nat) {
    limit.Some? && limit.value < U64_MAX ==> size <= limit.value
  }

  /** What the configuration promises about an announced part. */
  ghost predicate PartOk(cfg: Config, ev: seq<Event>, p: nat) {
    p < |ev| && ev[p].Part? ==>
      && WithinLimit(SizeLimit(cfg, ev[p].filename.Some?), Size(ChunkRun(ev, p + 1)))
      && (ev[p].filename.Some? ==>
        MimeAllowed(ev[p].contentType, cfg.allowedMime) && ExtAllowed(ev[p].filename, cfg.allowedExt))
  }

  function Announced(ev: seq<Event>, file: bool): nat {
    if ev == [] then 0 else (if ev[0].Part? && ev[0].filename.Some? == file then 1 else 0) + Announced(ev[1..], file)
  }

  lemma {:induction false} AnnouncedConcat(a: seq<Event>, b: seq<Event>, file: bool)
    ensures Announced(a + b, file) == Announced(a, file) + Announced(b, file)
  {
    if a == [] {
      assert a + b == b;
    } else {
      assert (a + b)[1..] == a[1..] + b;
      AnnouncedConcat(a[1..], b, file);
    }
  }

  lemma {:induction false} NoneAnnounced(a: seq<Event>, file: bool)
    requires forall p :: 0 <= p < |a| ==> !a[p].Part?
    ensures Announced(a, file) == 0
  {
    if a != [] { NoneAnnounced(a[1..], file); }
  }

  lemma {:induction false} LaterPartOk(cfg: Config, head: seq<Event>, rest: seq<Event>, k: nat)
    requires PartOk(cfg, rest, k)
    ensures PartOk(cfg, head + rest, |head| + k)
  {
    RunShift(head, rest, k + 1);
  }

  lemma {:induction false} FirstPartOk(cfg: Config, f: Field, seen: Seen, rest: seq<Event>, p: nat)
    requires RefusedAs(cfg, f, seen).None? && p < |PartEvents(cfg, f)|
    ensures PartOk(cfg, PartEvents(cfg, f) + rest, p)
  {
    var content := Content(cfg, f, 0, 0);
    var ev := PartEvents(cfg, f) + rest;
    if p == 0 {
      assert ev[1..1 + |content|] == content;
      ContentWithinLimit(cfg, f, 0, 0, ev, 1);
    } else {
      ContentHasNoPart(cfg, f, 0, 0);
      assert ev[p] == content[p - 1];
    }
  }

  /** Every announced part keeps within its size limit and is of an allowed type. */
  lemma {:induction false} PartsWithinLimits(cfg: Config, form: Form, i: nat, seen: Seen, p: nat)
    requires i <= |form.fields|
    ensures PartOk(cfg, Emitted(cfg, form, i, seen), p)
    decreases |form.fields| - i
  {
    if i < |form.fields| {
      var f := form.fields[i];
      var seen' := Count(seen, f);
      if RefusedAs(cfg, f, seen').None? {
        var head, rest := PartEvents(cfg, f), Following(cfg, form, i, seen);
        if p < |head| {
          FirstPartOk(cfg, f, seen', rest, p);
        } else {
          if rest != [] { PartsWithinLimits(cfg, form, i + 1, seen', p - |head|); }
          LaterPartOk(cfg, head, rest, p - |head|);
        }
      }
    }
  }

  lemma {:induction false} PartAnnounced(cfg: Config, f: Field, rest: seq<Event>, file: bool)
    ensures Announced(PartEvents(cfg, f) + rest, file)
         == Announced(rest, file) + if f.filename.Some? == file then 1 else 0
  {
    var content := Content(cfg, f, 0, 0);
    assert (PartEvents(cfg, f) + rest)[1..] == content + rest;
    ContentHasNoPart(cfg, f, 0, 0);
    NoneAnnounced(content, file);
    AnnouncedConcat(content, rest, file);
  }

  ghost predicate CountsOk(cfg: Config, seen: Seen, ev: seq<Event>) {
    !Over(cfg.maxFiles, seen.files + Announced(ev, true)) && !Over(cfg.maxFields, seen.fields + Announced(ev, false))
  }

  lemma {:induction false} PartCounts(cfg: Config, f: Field, seen: Seen, rest: seq<Event>)
    requires CountsOk(cfg, Count(seen, f), rest)
    ensures CountsOk(cfg, seen, PartEvents(cfg, f) + rest)
  {
    PartAnnounced(cfg, f, rest, true);
    PartAnnounced(cfg, f, rest, false);
  }

  /** No more files or fields are announced than allowed. */
  lemma {:induction false} CountsWithinLimits(cfg: Config, form: Form, i: nat, seen: Seen)
    requires i <= |form.fields| && !Over(cfg.maxFiles, seen.files) && !Over(cfg.maxFields, seen.fields)
    ensures CountsOk(cfg, seen, Emitted(cfg, form, i, seen))
    decreases |form.fields| - i
  {
    var ev := Emitted(cfg, form, i, seen);
    if i < |form.fields| && RefusedAs(cfg, form.fields[i], Count(seen, form.fields[i])).None? {
      var f := form.fields[i];
      CountsWithinLimits(cfg, form, i + 1, Count(seen, f));
      PartCounts(cfg, f, seen, Following(cfg, form, i, seen));
    } else if ev != [] {
      assert ev[0].Reject? && ev[1..] == [];
    }
  }

  // ---- limits as set ----

  /** Whatever is set and whatever arrives: no announced part is larger than its size setting,
      and no more files or fields are announced than their settings say. */
  lemma {:induction false} SettingsBound(o: Settings, form: Form, p: nat)
    ensures var ev := Trace(Configure(o), form);
      && (p < |ev| && ev[p].Part? ==>
            var size := Size(ChunkRun(ev, p + 1));
            && (ev[p].filename.Some? && o.maxFileSize.Some? && o.maxFileSize.value >= 0 ==> size <= o.maxFileSize.value)
            && (ev[p].filename.None? && o.maxFieldSize.Some? && o.maxFieldSize.value >= 0 ==>
                  size <= o.maxFieldSize.value))
      && (o.maxFiles.Some? && o.maxFiles.value >= 0 ==> Announced(ev, true) <= o.maxFiles.value)
      && (o.maxFields.Some? && o.maxFields.value >= 0 ==> Announced(ev, false) <= o.maxFields.value)
  {
    var cfg := Configure(o);
    PartsWithinLimits(cfg, form, 0, NONE_SEEN, p);
    CountsWithinLimits(cfg, form, 0, NONE_SEEN);
  }

  /** A count setting is enforced as it stands exactly if it fits 32 bits: larger ones are cut,
      2^32 files to none at all. */
  lemma {:induction false} CountSettingKeptIff(o: Setting)
    ensures (forall k: nat :: Over(CountLimitOf(o), k) <==> o.Some? && o.value >= 0 && k > o.value)
       <==> !(o.Some? && o.value >= 0x1_0000_0000)
  {
    if o.Some? && o.value >= U32 {
      var k := o.value % U32 + 1;
      assert Over(CountLimitOf(o), k) && !(k > o.value);
    }
  }

  // ---- the consumer ----

  datatype Next = Meta(part: Event) | NextNull | NextError(reject: Event)
  datatype Piece = Bit(bytes: Bytes) | PieceNull | PieceError(reject: Event)

  /** `next_part` on the events still in the channel: the result and what is left. */
  function NextOn(rest: seq<Event>): (Next, seq<Event>) {
    if rest == [] then (NextNull, [])
    else match rest[0]
      case Part(_, _, _) => (Meta(rest[0]), rest[1..])
      case Reject(_, _) => (NextError(rest[0]), rest[1..])
      case _ => NextOn(rest[1..])
  }

  /** `read_part` when the current part is not marked as ended: the result, what is left,
      and the new mark. */
  function PieceOn(rest: seq<Event>): (Piece, seq<Event>, bool) {
    if rest == [] then (PieceNull, [], true)
    else match rest[0]
      case Chunk(b) => (Bit(b), rest[1..], false)
      case Reject(_, _) => (PieceError(rest[0]), rest[1..], false)
      case _ => (PieceNull, rest[1..], true)
  }

  class BodyIo {
    var rx: seq<Event>
    var ended: bool

    constructor (events: seq<Event>)
      ensures rx == events && !ended
    {
      rx, ended := events, false;
    }

    method NextPart() returns (r: Next)
      modifies this
      ensures (r, rx) == NextOn(old(rx)) && ended == (old(ended) && !r.Meta?)
    {
      while true
        invariant NextOn(rx) == NextOn(old(rx)) && ended == old(ended)
        decreases |rx|
      {
        if rx == [] { return NextNull; }
        var e := rx[0];
        rx := rx[1..];
        if e.Part? {
          ended := false;
          return Meta(e);
        }
        if e.Reject? { return NextError(e); }
      }
    }

    method ReadPart() returns (r: Piece)
      modifies this
      ensures if old(ended) then r == PieceNull && rx == old(rx) && ended
              else (r, rx, ended) == PieceOn(old(rx))
    {
      if ended { return PieceNull; }
      if rx == [] {
        ended := true;
        return PieceNull;
      }
      var e := rx[0];
      rx := rx[1..];
      match e
      case Chunk(b) => r := Bit(b);
      case Reject(_, _) => r := PieceError(e);
      case _ =>
        ended := true;
        r := PieceNull;
    }
  }

  datatype Call = CallNext | CallRead

  /** The consumer with what it has seen: `current` is the position of the part the latest
      successful `next_part` announced, `got` the chunks read of it since, `ended` whether
      it was reported finished, `refused` whether a Reject surfaced. */
  datatype Consumer = Consumer(
    rest: seq<Event>, ended: bool, current: Option<nat>, got: seq<Bytes>, over: bool, refused: bool)

  function Do(ev: seq<Event>, c: Consumer, call: Call): Consumer {
    match call
    case CallNext =>
      var (r, rest) := NextOn(c.rest);
      Consumer(rest, c.ended && !r.Meta?, if r.Meta? && |rest| < |ev| then Some(|ev| - |rest| - 1) else None, [], false,
               c.refused || r.NextError?)
    case CallRead =>
      if c.ended then c.(over := true)
      else
        var (r, rest, ended) := PieceOn(c.rest);
        Consumer(rest, ended, c.current, if r.Bit? then c.got + [r.bytes] else c.got,
                 c.over || r.PieceNull?, c.refused || r.PieceError?)
  }

  function DoAll(ev: seq<Event>, calls: seq<Call>): Consumer {
    if calls == [] then Consumer(ev, false, None, [], false, false)
    else Do(ev, DoAll(ev, calls[..|calls| - 1]), calls[|calls| - 1])
  }

  ghost predicate Suffix(rest: seq<Event>, ev: seq<Event>) { |rest| <= |ev| && rest == ev[|ev| - |rest|..] }

  /** Where the consumer can be: before its first call, past a part it swallowed by reading
      too early, inside or after an announced part, or at the end. */
  ghost predicate ConsumerInv(ev: seq<Event>, c: Consumer) {
    && Suffix(c.rest, ev)
    && (c.current.None? ==>
          c.got == [] &&
            (c.rest == [] || (!c.ended && Complete(c.rest, Between)) || (c.ended && Complete(c.rest, Inside))))
    && (c.current.Some? ==>
          var p, q := c.current.value, |ev| - |c.rest|;
          p < |ev| && ev[p].Part? && (Reading(ev, c, p, q) || Finished(ev, c, p, q) || Rejected(ev, c, p)))
  }

  /** Inside part `p`, about to receive event `q`. */
  ghost predicate Reading(ev: seq<Event>, c: Consumer, p: nat, q: int) {
    && !c.ended && !c.over && q == p + 1 + |c.got| && Complete(c.rest, Inside)
    && ChunkRun(ev, p + 1) == c.got + ChunkRun(ev, q)
  }

  /** After the end of part `p`. */
  ghost predicate Finished(ev: seq<Event>, c: Consumer, p: nat, q: int) {
    && c.ended && q == p + 2 + |c.got| && q <= |ev| && ev[q - 1] == PartEnd && Complete(c.rest, Between)
    && ChunkRun(ev, p + 1) == c.got
  }

  /** After a Reject inside part `p`. */
  ghost predicate Rejected(ev: seq<Event>, c: Consumer, p: nat) {
    c.rest == [] && c.refused && ChunkRun(ev, p + 1) == c.got
  }

  lemma {:induction false} NextSkips(rest: seq<Event>, g: Grammar)
    requires Complete(rest, g)
    ensures var (r, left) := NextOn(rest);
      && |left| <= |rest| && left == rest[|rest| - |left|..]
      && (r.Meta? ==> |left| < |rest| && r.part.Part? && rest[|rest| - |left| - 1] == r.part && Complete(left, Inside))
      && (!r.Meta? ==> left == [])
  {
    if rest != [] {
      ScanBad(rest[1..]);
      ScanClosed(rest[1..]);
      if !rest[0].Part? && !rest[0].Reject? { NextSkips(rest[1..], Read(g, rest[0])); }
    }
  }

  lemma {:induction false} ScanBad(ev: seq<Event>)
    ensures Scan(ev, Bad) == Bad
  {
    if ev != [] { ScanBad(ev[1..]); }
  }

  lemma {:induction false} ScanClosed(ev: seq<Event>)
    ensures Scan(ev, Closed) == if ev == [] then Closed else Bad
  {
    if ev != [] { ScanBad(ev[1..]); }
  }

  lemma {:induction false} NextKeeps(ev: seq<Event>, c: Consumer, g: Grammar)
    requires Suffix(c.rest, ev) && Complete(c.rest, g)
    ensures ConsumerInv(ev, Do(ev, c, CallNext))
  {
    NextSkips(c.rest, g);
    var (r, rest) := NextOn(c.rest);
    assert Suffix(rest, ev);
    if r.Meta? {
      var q := |ev| - |rest|;
      assert ev[q - 1] == r.part;
      assert [] + ChunkRun(ev, q) == ChunkRun(ev, q);
      assert Reading(ev, Do(ev, c, CallNext), q - 1, q);
    }
  }

  lemma {:induction false} ChunkKeeps(ev: seq<Event>, c: Consumer, q: nat, b: Bytes)
    requires q < |ev| && ev[q] == Chunk(b)
    ensures c.got + ChunkRun(ev, q) == (c.got + [b]) + ChunkRun(ev, q + 1)
  {
    assert ChunkRun(ev, q) == [b] + ChunkRun(ev, q + 1);
  }

  lemma {:induction false} ReadKeeps(ev: seq<Event>, c: Consumer)
    requires ConsumerInv(ev, c)
    ensures ConsumerInv(ev, Do(ev, c, CallRead))
  {
    if !c.ended && c.rest != [] {
      if c.current.None? {
        var q := |ev| - |c.rest|;
        assert ev[q] == c.rest[0] && c.rest[1..] == ev[q + 1..];
        BetweenStarts(c.rest);
      } else {
        ReadOn(ev, c);
      }
    }
  }

  /** A read inside an announced part. */
  lemma {:induction false} ReadOn(ev: seq<Event>, c: Consumer)
    requires ConsumerInv(ev, c) && !c.ended && c.rest != [] && c.current.Some?
    ensures ConsumerInv(ev, Do(ev, c, CallRead))
  {
    var p, q := c.current.value, |ev| - |c.rest|;
    assert Reading(ev, c, p, q);
    assert ev[q] == c.rest[0] && c.rest[1..] == ev[q + 1..];
    var c' := Do(ev, c, CallRead);
    if c.rest[0].Chunk? {
      ChunkKeeps(ev, c, q, c.rest[0].bytes);
      assert Reading(ev, c', p, q + 1);
    } else {
      InsideEnds(c.rest);
      assert ChunkRun(ev, q) == [] && c.got + [] == c.got;
      assert if c.rest[0].PartEnd? then Finished(ev, c', p, q + 1) else Rejected(ev, c', p);
    }
  }

  /** Between parts the first event announces a part or is the last one. */
  lemma {:induction false} BetweenStarts(rest: seq<Event>)
    requires rest != [] && Complete(rest, Between)
    ensures (rest[0].Part? && Complete(rest[1..], Inside)) || (rest[0].Reject? && rest[1..] == [])
  {
    ScanBad(rest[1..]);
    ScanClosed(rest[1..]);
  }

  /** Inside a part the first event that is not a chunk ends the part or the trace. */
  lemma {:induction false} InsideEnds(rest: seq<Event>)
    requires rest != [] && !rest[0].Chunk? && Complete(rest, Inside)
    ensures (rest[0].PartEnd? && Complete(rest[1..], Between)) || (rest[0].Reject? && rest[1..] == [])
  {
    ScanBad(rest[1..]);
    ScanClosed(rest[1..]);
  }

  lemma {:induction false} ConsumerAlong(ev: seq<Event>, calls: seq<Call>)
    requires Complete(ev, Between)
    ensures ConsumerInv(ev, DoAll(ev, calls))
  {
    if calls != [] {
      var n := |calls| - 1;
      var before := DoAll(ev, calls[..n]);
      ConsumerAlong(ev, calls[..n]);
      if calls[n] == CallRead {
        ReadKeeps(ev, before);
      } else if before.rest == [] {
        NextKeeps(ev, before, Between);
      } else {
        NextKeeps(ev, before, if before.ended == before.current.Some? then Between else Inside);
      }
    }
  }

  /** Producer and consumer agree: for every form and every order of calls, the chunks read
      are an in-order prefix of the chunks of the latest announced part, and all of them once
      `read_part` has returned null with no Reject surfaced. Nothing is read of a part that
      was not announced. */
  lemma {:induction false} ConsumerSeesPart(cfg: Config, form: Form, calls: seq<Call>)
    ensures var ev := Trace(cfg, form);
      var c := DoAll(ev, calls);
      && (c.current.Some? ==>
            && c.current.value < |ev| && ev[c.current.value].Part?
            && c.got <= ChunkRun(ev, c.current.value + 1)
            && (c.over && !c.refused ==> c.got == ChunkRun(ev, c.current.value + 1)))
      && (c.current.None? ==> c.got == [])
  {
    TraceGrammar(cfg, form, 0, NONE_SEEN);
    ConsumerAlong(Trace(cfg, form), calls);
  }

  // ---- which calls announce the first part ----

  lemma {:induction false} NextShrinks(rest: seq<Event>)
    ensures var (r, left) := NextOn(rest); |left| <= |rest| && (r.Meta? ==> |left| < |rest|)
  {
    if rest != [] && !rest[0].Part? && !rest[0].Reject? { NextShrinks(rest[1..]); }
  }

  /** A `read_part` first consumes the first event, and what is consumed is never announced. */
  lemma {:induction false} SwallowedForGood(ev: seq<Event>, calls: seq<Call>, n: nat)
    requires ev != [] && 0 < n <= |calls| && calls[0] == CallRead
    ensures var c := DoAll(ev, calls[..n]); |c.rest| < |ev| && c.current != Some(0)
  {
    var done := calls[..n];
    assert done[..n - 1] == calls[..n - 1];
    if n > 1 {
      SwallowedForGood(ev, calls, n - 1);
      NextShrinks(DoAll(ev, calls[..n - 1]).rest);
    }
  }

  /** The first part of a form is announced exactly if `next_part` is called before any
      `read_part`, whatever calls follow: a `read_part` first swallows it. */
  lemma {:induction false} FirstPartAnnouncedIff(ev: seq<Event>, calls: seq<Call>)
    requires ev != [] && ev[0].Part?
    ensures (exists n :: 0 < n <= |calls| && DoAll(ev, calls[..n]).current == Some(0))
       <==> calls != [] && calls[0] == CallNext
  {
    if calls != [] && calls[0] == CallNext {
      assert calls[..1][..0] == [];
      assert DoAll(ev, calls[..1]) == Do(ev, DoAll(ev, []), CallNext);
    } else {
      forall n | 0 < n <= |calls| ensures DoAll(ev, calls[..n]).current != Some(0) {
        SwallowedForGood(ev, calls, n);
      }
    }
  }

  /** A form whose only part is lost that way: */
  lemma {:induction false} ReadFirstLosesPart(data: Bytes)
    ensures var ev := [Part(None, None, None), Chunk(data), PartEnd];
      Complete(ev, Between) && DoAll(ev, [CallRead, CallNext]).current.None?
  {
    var ev := [Part(None, None, None), Chunk(data), PartEnd];
    var last: seq<Event> := [PartEnd];
    var tail := [Chunk(data)] + last;
    assert ev[1..] == tail && tail[1..] == last && last[1..] == [];
    assert Scan(last, Inside) == Between && Scan(tail, Inside) == Between && Scan(ev, Between) == Between;
    assert [CallRead, CallNext][..1] == [CallRead] && [CallRead][..0] == [];
    var c := Do(ev, DoAll(ev, []), CallRead);
    assert c.rest == tail && DoAll(ev, [CallRead]) == c;
    assert NextOn(last) == NextOn([]) && NextOn(tail) == NextOn(last);
  }
}
