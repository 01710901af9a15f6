/** The two ways a response leaves the server (src/server.rs): built from the handler's
    answer, or replayed from the cache entry that answer produced. */
module Replay {
  import opened Common
  import opened ResponseCache

  datatype HttpResponse = Http(status: nat, headers: seq<Header>, body: Bytes)

  const ERROR_TEXT: Bytes := [0x49, 0x6E, 0x74, 0x65, 0x72, 0x6E, 0x61, 0x6C,
    0x20, 0x53, 0x65, 0x72, 0x76, 0x65, 0x72, 0x20, 0x45, 0x72, 0x72, 0x6F, 0x72]
  const ERROR_500 := Http(500, [], ERROR_TEXT)

  predicate TokenChar(c: char) {
    '0' <= c <= '9' || 'A' <= c <= 'Z' || 'a' <= c <= 'z' || c in "!#$%&'*+-.^_`|~"
  }

  predicate ValidName(n: string) { n != "" && forall i :: 0 <= i < |n| ==> TokenChar(n[i]) }

  predicate ValidValue(v: string) { forall i :: 0 <= i < |v| ==> v[i] == '\t' || (v[i] >= ' ' && v[i] != '\U{7F}') }

  predicate ValidHeader(h: Header) { ValidName(h.0) && ValidValue(h.1) }

  predicate AllValid(hs: seq<Header>) { forall i :: 0 <= i < |hs| ==> ValidHeader(hs[i]) }

  /** Appending to the builder's header map lower-cases the name. */
  function Lowered(hs: seq<Header>): seq<Header> {
    if hs == [] then [] else Lowered(hs[..|hs| - 1]) + [(Lower(hs[|hs| - 1].0), hs[|hs| - 1].1)]
  }

  predicate HasName(hs: seq<Header>, name: string) { exists i :: 0 <= i < |hs| && hs[i].0 == name }

  function Decimal(n: nat): string {
    if n < 10 then [('0' as int + n) as char] else Decimal(n / 10) + [('0' as int + n % 10) as char]
  }

  function ValueOf(s: string): int {
    if s == "" then 0 else 10 * ValueOf(s[..|s| - 1]) + (s[|s| - 1] as int - '0' as int)
  }

  /** Printing a length in decimal and reading it gives it back, without leading zeros. */
  lemma {:induction false} DecimalReads(n: nat)
    ensures var s := Decimal(n);
      && ValueOf(s) == n && s != "" && (s[0] == '0' ==> n == 0)
      && forall i :: 0 <= i < |s| ==> '0' <= s[i] <= '9'
  {
    var s := Decimal(n);
    if n < 10 {
      assert s[..0] == "" && ValueOf("") == 0;
    } else {
      DecimalReads(n / 10);
      assert s[..|s| - 1] == Decimal(n / 10);
    }
  }

  /** The characters of a header name are the visible ASCII ones but the delimiters (section
      5.6.2 of RFC 9110). */
  lemma {:induction false} TokenCharIff(c: char)
    ensures TokenChar(c) <==> '!' <= c <= '~' && c !in "\"(),/:;<=>?@[\\]{}"
  {}

  /** A header is acceptable if its name is a non-empty token and its value has no control
      character but the tab (sections 5.1 and 5.5 of RFC 9110). */
  lemma {:induction false} ValidHeaderIff(h: Header)
    ensures ValidHeader(h) <==>
      && h.0 != "" && (forall c <- h.0 :: TokenChar(c))
      && !exists c <- h.1 :: (c < ' ' && c != '\t') || c == '\U{7F}'
  {
    forall i | 0 <= i < |h.0| ensures h.0[i] in h.0 {}
    forall i | 0 <= i < |h.1| ensures h.1[i] in h.1 {}
  }

  /** The common tail: auto-HEAD keeps a content-length and sends no body. */
  function Finish(status: nat, headers: seq<Header>, body: Bytes, head: bool): HttpResponse {
    if !head then Http(status, headers, body)
    else if HasName(headers, "content-length") then Http(status, headers, [])
    else Http(status, headers + [("content-length", Decimal(|body|))], [])
  }

  /** `build_response`, `stream` being what comes through the response channel; an invalid
      header or a status outside 100..999 fails the builder, which becomes the fixed 500. */
  function BuildResponse(res: JsResponse, head: bool, stream: Bytes): HttpResponse {
    if !(100 <= StatusOf(res) < 1000) || !AllValid(PairsOf(res)) then ERROR_500
    else if Streamed(res) then Http(StatusOf(res), Lowered(PairsOf(res)), if head then [] else stream)
    else Finish(StatusOf(res), Lowered(PairsOf(res)), BodyOf(res), head)
  }

  function CachedResponse(hit: Hit, head: bool, requestId: string, idHeader: string): HttpResponse {
    var hs := hit.headers + [(idHeader, requestId), ("x-cache", "hit")];
    if !(100 <= hit.status < 1000) || !AllValid(hs) then ERROR_500
    else Finish(hit.status, Lowered(hs), hit.body, head)
  }

  /** The headers other than the request id and the cache marker, in order. */
  function Rest(hs: seq<Header>, idHeader: string): seq<Header> {
    if hs == [] then []
    else
      var h := hs[|hs| - 1];
      Rest(hs[..|hs| - 1], idHeader) + (if h.0 == idHeader || h.0 == "x-cache" then [] else [h])
  }

  /** `Rest` keeps exactly the other headers, each as often and in the order it occurs: those at
      the positions `idx`. */
  lemma {:induction false} RestSelects(hs: seq<Header>, idHeader: string) returns (idx: seq<nat>)
    ensures |idx| == |Rest(hs, idHeader)| && Ascends(idx)
    ensures forall k :: 0 <= k < |idx| ==> idx[k] < |hs| && Rest(hs, idHeader)[k] == hs[idx[k]]
    ensures forall i: nat :: i in idx <==> i < |hs| && hs[i].0 != idHeader && hs[i].0 != "x-cache"
  {
    idx := [];
    var n := 0;
    while n < |hs|
      invariant n <= |hs| && |idx| == |Rest(hs[..n], idHeader)| && Ascends(idx)
      invariant forall k :: 0 <= k < |idx| ==> idx[k] < n && Rest(hs[..n], idHeader)[k] == hs[idx[k]]
      invariant forall i: nat :: i in idx <==> i < n && hs[i].0 != idHeader && hs[i].0 != "x-cache"
    {
      assert hs[..n + 1] == hs[..n] + [hs[n]];
      RestSnoc(hs[..n], hs[n], idHeader);
      AscendsSnoc(idx, n);
      if hs[n].0 != idHeader && hs[n].0 != "x-cache" { idx := idx + [n]; }
      n := n + 1;
    }
    assert hs[..n] == hs;
  }

  ghost predicate SameAnswer(p: HttpResponse, q: HttpResponse, idHeader: string) {
    p.status == q.status && p.body == q.body && Rest(p.headers, idHeader) == Rest(q.headers, idHeader)
  }

  // ---- the two answers, header by header ----

  lemma {:induction false} LoweredAt(hs: seq<Header>, k: nat)
    requires k < |hs|
    ensures |Lowered(hs)| == |hs| && Lowered(hs)[k] == (Lower(hs[k].0), hs[k].1)
  {
    var n := |hs| - 1;
    if n > 0 { LoweredAt(hs[..n], if k < n then k else 0); }
  }

  /** `out` carries the headers `hs` under lower-cased names, in order, and for a HEAD without
      a length the decimal length of `body`. */
  ghost predicate Carries(out: HttpResponse, hs: seq<Header>, head: bool, length: Option<nat>) {
    && |out.headers| >= |hs|
    && (forall k :: 0 <= k < |hs| ==> out.headers[k] == (Lower(hs[k].0), hs[k].1))
    && (if head && length.Some? && (forall k :: 0 <= k < |hs| ==> Lower(hs[k].0) != "content-length")
        then |out.headers| == |hs| + 1 && out.headers[|hs|].0 == "content-length"
             && ValueOf(out.headers[|hs|].1) == length.value
        else |out.headers| == |hs|)
  }

  lemma {:induction false} FinishCarries(status: nat, hs: seq<Header>, body: Bytes, head: bool)
    ensures var out := Finish(status, Lowered(hs), body, head);
      && out.status == status && out.body == (if head then [] else body) && Carries(out, hs, head, Some(|body|))
  {
    var low := Lowered(hs);
    if hs == [] { assert low == []; }
    forall k | 0 <= k < |hs| ensures |low| == |hs| && low[k] == (Lower(hs[k].0), hs[k].1) { LoweredAt(hs, k); }
    assert HasName(low, "content-length") <==> !(forall k :: 0 <= k < |hs| ==> Lower(hs[k].0) != "content-length") by {
      if HasName(low, "content-length") {
        var k :| 0 <= k < |low| && low[k].0 == "content-length";
        assert Lower(hs[k].0) == "content-length";
      }
      if !HasName(low, "content-length") {
        forall k | 0 <= k < |hs| ensures Lower(hs[k].0) != "content-length" { assert low[k].0 == Lower(hs[k].0); }
      }
    }
    DecimalReads(|body|);
  }

  predicate Failed(out: HttpResponse) { out.status == 500 && out.headers == [] && out.body == ERROR_TEXT }

  /** The direct answer: status 200 by default, the handler's headers and its body or stream;
      HEAD sends no body but announces the length of one that is not streamed. A status outside
      100..999 or an invalid header makes it the fixed 500. */
  lemma {:induction false} DirectAnswer(res: JsResponse, head: bool, stream: Bytes)
    ensures var out := BuildResponse(res, head, stream);
      var status := if res.status.Some? then res.status.value else 200;
      var hs: seq<Header> := if res.headers.Some? then res.headers.value else [];
      var body: Bytes := if res.body.Some? then res.body.value else [];
      var streamed := res.streamed == Some(true);
      if status < 100 || status >= 1000 || !AllValid(hs) then Failed(out)
      else
        && out.status == status && Carries(out, hs, head, if streamed then None else Some(|body|))
        && out.body == if head then [] else if streamed then stream else body
  {
    var hs := PairsOf(res);
    if 100 <= StatusOf(res) < 1000 && AllValid(hs) {
      FinishCarries(StatusOf(res), hs, BodyOf(res), head);
      forall k | 0 <= k < |hs| ensures Lowered(hs)[k] == (Lower(hs[k].0), hs[k].1) { LoweredAt(hs, k); }
      if hs != [] { LoweredAt(hs, 0); }
    }
  }

  /** The replayed answer: what was stored, plus the request id of this request and the marker
      that it comes from the cache. */
  lemma {:induction false} ReplayedAnswer(hit: Hit, head: bool, requestId: string, idHeader: string)
    ensures var out := CachedResponse(hit, head, requestId, idHeader);
      var hs := hit.headers + [(idHeader, requestId), ("x-cache", "hit")];
      if hit.status < 100 || hit.status >= 1000 || !AllValid(hs) then Failed(out)
      else
        && out.status == hit.status && Carries(out, hs, head, Some(|hit.body|))
        && out.body == if head then [] else hit.body
  {
    FinishCarries(hit.status, hit.headers + [(idHeader, requestId), ("x-cache", "hit")], hit.body, head);
  }

  lemma {:induction false} LowerIdempotent(s: string)
    ensures Lower(Lower(s)) == Lower(s)
  {}

  lemma {:induction false} RestSnoc(hs: seq<Header>, h: Header, idHeader: string)
    ensures Rest(hs + [h], idHeader) == Rest(hs, idHeader) + (if h.0 == idHeader || h.0 == "x-cache" then [] else [h])
  {
    assert (hs + [h])[..|hs|] == hs;
  }

  lemma {:induction false} LoweredSnoc(hs: seq<Header>, h: Header)
    ensures Lowered(hs + [h]) == Lowered(hs) + [(Lower(h.0), h.1)]
  {
    assert (hs + [h])[..|hs|] == hs;
  }

  lemma {:induction false} TokenLower(s: string)
    ensures ValidName(Lower(s)) <==> ValidName(s)
  {
    forall i | 0 <= i < |s| ensures TokenChar(Lower(s)[i]) <==> TokenChar(s[i]) {}
  }

  /** Storing then lower-casing again changes nothing outside the request-id header. */
  lemma {:induction false} KeptRest(pairs: seq<Header>, idHeader: string)
    ensures Rest(Lowered(Kept(pairs, idHeader)), idHeader) == Rest(Lowered(pairs), idHeader)
    ensures idHeader != "content-length" ==>
              (HasName(Lowered(Kept(pairs, idHeader)), "content-length") <==> HasName(Lowered(pairs), "content-length"))
  {
    if pairs != [] {
      var n := |pairs| - 1;
      var init, h := pairs[..n], pairs[n];
      KeptRest(init, idHeader);
      LowerIdempotent(h.0);
      var low := (Lower(h.0), h.1);
      RestSnoc(Lowered(init), low, idHeader);
      HasSnoc(Lowered(init), low, "content-length");
      if low.0 != idHeader {
        LoweredSnoc(Kept(init, idHeader), low);
        RestSnoc(Lowered(Kept(init, idHeader)), low, idHeader);
        HasSnoc(Lowered(Kept(init, idHeader)), low, "content-length");
      }
    }
  }

  lemma {:induction false} HasSnoc(hs: seq<Header>, h: Header, name: string)
    ensures HasName(hs + [h], name) <==> HasName(hs, name) || h.0 == name
  {
    var all := hs + [h];
    if HasName(hs, name) {
      var i :| 0 <= i < |hs| && hs[i].0 == name;
      assert all[i].0 == name;
    }
    if h.0 == name { assert all[|hs|].0 == name; }
    if HasName(all, name) {
      var i :| 0 <= i < |all| && all[i].0 == name;
      assert i < |hs| ==> hs[i].0 == name;
    }
  }

  /** What the stored copy leaves out of the validity test. */
  ghost predicate BadRequestIdValue(pairs: seq<Header>, idHeader: string) {
    exists i :: 0 <= i < |pairs| && Lower(pairs[i].0) == idHeader && !ValidHeader(pairs[i])
  }

  lemma {:induction false} KeptValid(pairs: seq<Header>, idHeader: string)
    ensures AllValid(pairs) <==> AllValid(Kept(pairs, idHeader)) && !BadRequestIdValue(pairs, idHeader)
  {
    if pairs != [] {
      var n := |pairs| - 1;
      var init, h := pairs[..n], pairs[n];
      KeptValid(init, idHeader);
      TokenLower(h.0);
      assert pairs == init + [h];
      ValidSnoc(init, h);
      if Lower(h.0) != idHeader { ValidSnoc(Kept(init, idHeader), (Lower(h.0), h.1)); }
      BadSnoc(init, h, idHeader);
    }
  }

  lemma {:induction false} ValidSnoc(hs: seq<Header>, h: Header)
    ensures AllValid(hs + [h]) <==> AllValid(hs) && ValidHeader(h)
  {
    var all := hs + [h];
    assert all[|hs|] == h && forall i :: 0 <= i < |hs| ==> all[i] == hs[i];
  }

  lemma {:induction false} BadSnoc(hs: seq<Header>, h: Header, idHeader: string)
    ensures BadRequestIdValue(hs + [h], idHeader)
       <==> BadRequestIdValue(hs, idHeader) || (Lower(h.0) == idHeader && !ValidHeader(h))
  {
    var all := hs + [h];
    assert all[|hs|] == h && forall i :: 0 <= i < |hs| ==> all[i] == hs[i];
  }

  lemma {:induction false} FinishRest(status: nat, hs: seq<Header>, body: Bytes, head: bool, idHeader: string)
    ensures Rest(Finish(status, hs, body, head).headers, idHeader)
         == Rest(hs, idHeader) + (if head && !HasName(hs, "content-length") && idHeader != "content-length"
                                  then [("content-length", Decimal(|body|))] else [])
  {
    RestSnoc(hs, ("content-length", Decimal(|body|)), idHeader);
  }

  /** The two markers a replay adds are invisible to `Rest` and to the content-length test. */
  lemma {:induction false} MarkersVanish(hs: seq<Header>, requestId: string, idHeader: string)
    requires Lower(idHeader) == idHeader
    ensures var full := Lowered(hs + [(idHeader, requestId), ("x-cache", "hit")]);
      && Rest(full, idHeader) == Rest(Lowered(hs), idHeader)
      && (idHeader != "content-length" ==>
        (HasName(full, "content-length") <==> HasName(Lowered(hs), "content-length")))
  {
    var a, b := (idHeader, requestId), ("x-cache", "hit");
    assert hs + [a, b] == (hs + [a]) + [b];
    LoweredSnoc(hs + [a], b);
    LoweredSnoc(hs, a);
    assert Lower("x-cache") == "x-cache";
    RestSnoc(Lowered(hs), a, idHeader);
    RestSnoc(Lowered(hs) + [a], b, idHeader);
    HasSnoc(Lowered(hs), a, "content-length");
    HasSnoc(Lowered(hs) + [a], b, "content-length");
  }

  lemma {:induction false} MarkersValid(hs: seq<Header>, requestId: string, idHeader: string)
    requires ValidName(idHeader) && ValidValue(requestId)
    ensures AllValid(hs + [(idHeader, requestId), ("x-cache", "hit")]) <==> AllValid(hs)
  {
    var a, b := (idHeader, requestId), ("x-cache", "hit");
    assert hs + [a, b] == (hs + [a]) + [b];
    ValidSnoc(hs, a);
    ValidSnoc(hs + [a], b);
    assert ValidHeader(b);
  }

  lemma {:induction false} ReplayedRest(
      pairs: seq<Header>, body: Bytes, head: bool, requestId: string, idHeader: string)
    requires Lower(idHeader) == idHeader
    ensures var full := Kept(pairs, idHeader) + [(idHeader, requestId), ("x-cache", "hit")];
      SameAnswer(Finish(200, Lowered(full), body, head), Finish(200, Lowered(pairs), body, head), idHeader)
  {
    var full := Kept(pairs, idHeader) + [(idHeader, requestId), ("x-cache", "hit")];
    KeptRest(pairs, idHeader);
    MarkersVanish(Kept(pairs, idHeader), requestId, idHeader);
    FinishRest(200, Lowered(pairs), body, head, idHeader);
    FinishRest(200, Lowered(full), body, head, idHeader);
  }

  /** Replay equals the direct answer up to the request-id and `x-cache` headers, for GET
      and for auto-HEAD, exactly unless the only invalid header of the handler's answer is a
      request-id one: that fails the direct answer but not the stored copy. */
  lemma {:induction false} ReplayEqualsDirect(
      cfg: Config, path: string, res: JsResponse, head: bool, now: nat,
      requestId: string, idHeader: string, stream: Bytes)
    requires Eligible(cfg, res)
    requires Lower(idHeader) == idHeader && ValidName(idHeader) && ValidValue(requestId)
    ensures SameAnswer(CachedResponse(HitOf(EntryOf(cfg, path, res, idHeader, now)), head, requestId, idHeader),
                       BuildResponse(res, head, stream), idHeader)
       <==> AllValid(PairsOf(res)) || !AllValid(Kept(PairsOf(res), idHeader))
  {
    var pairs, kept := PairsOf(res), Kept(PairsOf(res), idHeader);
    KeptValid(pairs, idHeader);
    MarkersValid(kept, requestId, idHeader);
    if AllValid(pairs) { ReplayedRest(pairs, BodyOf(res), head, requestId, idHeader); }
  }

  /** The exception happens: a handler that sets the request-id header to a value with a
      control character is answered 500, and the next identical request 200. */
  lemma {:induction false} ReplayCanDiffer()
    ensures exists cfg, res, idHeader, requestId ::
      && Eligible(cfg, res) && Lower(idHeader) == idHeader && ValidName(idHeader) && ValidValue(requestId)
      && BuildResponse(res, false, []).status == 500
      && CachedResponse(HitOf(EntryOf(cfg, "/", res, idHeader, 0)), false, requestId, idHeader).status == 200
  {
    var cfg := Config(1000, 1, 10);
    var bad := ("x-request-id", "\n");
    var res := JsResponse(None, Some([bad]), None, None);
    var id := "x-request-id";
    assert Lower(id) == id;
    assert PairsOf(res)[0] == bad && !ValidValue(bad.1) by { assert bad.1[0] == '\n'; }
    assert Kept([bad][..0], id) == [] && Kept([bad], id) == [];
    var hit := HitOf(EntryOf(cfg, "/", res, id, 0));
    assert CachedResponse(hit, false, "a", id).status == 200;
  }
}
