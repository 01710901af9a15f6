/** The flat cache key (src/cache.rs `LeafCache::key`) and why it stands for a tuple. */
module CacheKey {
  import opened Common

  datatype KvPair = KvPair(key: string, value: string)

  /** The parts of a request that select a cache entry. */
  datatype Request = Request(
    verb: string, path: string, query: Option<string>, headers: seq<KvPair>, bodyHash: Option<nat>)

  const NL := '\n'
  const US := '\U{1F}'

  function ValuesOf(headers: seq<KvPair>, name: string): seq<string> {
    if headers == [] then []
    else (if headers[0].key == name then [headers[0].value] else []) + ValuesOf(headers[1..], name)
  }

  function QueryText(q: Option<string>): string { if q.Some? then q.value else "" }

  /** Each item followed by the separator. */
  function Terminated(items: seq<string>, sep: char): string {
    if items == [] then "" else items[0] + [sep] + Terminated(items[1..], sep)
  }

  function VaryLines(vary: seq<string>, headers: seq<KvPair>): seq<string> {
    if vary == [] then [] else [Terminated(ValuesOf(headers, vary[0]), US)] + VaryLines(vary[1..], headers)
  }

  function HexDigit(d: nat): char
    requires d < 16
  {
    "0123456789abcdef"[d]
  }

  /** The low `n` hexadecimal digits of `h`, most significant first. */
  function Hex(h: nat, n: nat): string {
    if n == 0 then "" else Hex(h / 16, n - 1) + [HexDigit(h % 16)]
  }

  function HashLine(h: Option<nat>): seq<string> { if h.Some? then [Hex(h.value, 16)] else [] }

  /** The newline-separated fields of the key. */
  function Fields(vary: seq<string>, r: Request): seq<string> {
    [r.verb, r.path, QueryText(r.query)] + VaryLines(vary, r.headers) + HashLine(r.bodyHash)
  }

  ghost predicate IsKey(key: string, vary: seq<string>, r: Request) {
    key + [NL] == Terminated(Fields(vary, r), NL)
  }

  lemma {:induction false} TerminatedAppend(items: seq<string>, last: string, sep: char)
    ensures Terminated(items + [last], sep) == Terminated(items, sep) + last + [sep]
  {
    if items == [] {
      assert items + [last] == [last];
    } else {
      assert (items + [last])[1..] == items[1..] + [last];
      TerminatedAppend(items[1..], last, sep);
    }
  }

  lemma {:induction false} ValuesSnoc(headers: seq<KvPair>, n: nat, name: string)
    requires n < |headers|
    ensures ValuesOf(headers[..n + 1], name)
         == ValuesOf(headers[..n], name) + (if headers[n].key == name then [headers[n].value] else [])
  {
    if n == 0 {
      assert headers[..1] == [headers[0]];
      assert ValuesOf([headers[0]][1..], name) == [];
    } else {
      ValuesSnoc(headers[1..], n - 1, name);
      assert headers[..n + 1][1..] == headers[1..][..n];
      assert headers[..n][1..] == headers[1..][..n - 1];
    }
  }

  lemma {:induction false} VarySnoc(vary: seq<string>, n: nat, headers: seq<KvPair>)
    requires n < |vary|
    ensures VaryLines(vary[..n + 1], headers)
         == VaryLines(vary[..n], headers) + [Terminated(ValuesOf(headers, vary[n]), US)]
  {
    if n == 0 {
      assert vary[..1] == [vary[0]];
    } else {
      VarySnoc(vary[1..], n - 1, headers);
      assert vary[..n + 1][1..] == vary[1..][..n];
      assert vary[..n][1..] == vary[1..][..n - 1];
    }
  }

  /** The buffer-appending loops of `key`. */
  method BuildKey(vary: seq<string>, r: Request) returns (key: string)
    ensures IsKey(key, vary, r)
  {
    key := r.verb + [NL] + r.path + [NL];
    if r.query.Some? {
      key := key + r.query.value;
    }
    ghost var base := [r.verb, r.path, QueryText(r.query)];
    TerminatedAppend([], r.verb, NL);
    TerminatedAppend([r.verb], r.path, NL);
    TerminatedAppend([r.verb, r.path], QueryText(r.query), NL);
    assert [] + [r.verb] == [r.verb] && [r.verb] + [r.path] == [r.verb, r.path]
      && [r.verb, r.path] + [QueryText(r.query)] == base;
    assert base + VaryLines(vary[..0], r.headers) == base;
    var n := 0;
    while n < |vary|
      invariant n <= |vary|
      invariant key + [NL] == Terminated(base + VaryLines(vary[..n], r.headers), NL)
    {
      ghost var before := key;
      key := key + [NL];
      var line := AppendValues(r.headers, vary[n]);
      key := key + line;
      VarySnoc(vary, n, r.headers);
      TerminatedAppend(base + VaryLines(vary[..n], r.headers), line, NL);
      assert base + VaryLines(vary[..n + 1], r.headers) == (base + VaryLines(vary[..n], r.headers)) + [line];
      n := n + 1;
    }
    assert vary[..n] == vary;
    ghost var fields := base + VaryLines(vary, r.headers);
    if r.bodyHash.Some? {
      TerminatedAppend(fields, Hex(r.bodyHash.value, 16), NL);
      key := key + [NL] + Hex(r.bodyHash.value, 16);
    } else {
      assert Fields(vary, r) == fields;
    }
  }

  method AppendValues(headers: seq<KvPair>, name: string) returns (line: string)
    ensures line == Terminated(ValuesOf(headers, name), US)
  {
    line := "";
    for i := 0 to |headers|
      invariant line == Terminated(ValuesOf(headers[..i], name), US)
    {
      ValuesSnoc(headers, i, name);
      if headers[i].key == name {
        TerminatedAppend(ValuesOf(headers[..i], name), headers[i].value, US);
        line := line + headers[i].value + [US];
      } else {
        assert ValuesOf(headers[..i + 1], name) == ValuesOf(headers[..i], name);
      }
    }
    assert headers[..|headers|] == headers;
  }

  // ---- injectivity ----

  predicate Lacks(items: seq<string>, sep: char) { forall i :: 0 <= i < |items| ==> sep !in items[i] }

  lemma {:induction false} CutAtSeparator(a: string, b: string, x: string, y: string, sep: char)
    requires sep !in a && sep !in b && a + [sep] + x == b + [sep] + y
    ensures a == b && x == y
  {
    var s := a + [sep] + x;
    assert s[|a|] == sep && s[|b|] == sep;
    assert forall i :: 0 <= i < |a| ==> s[i] == a[i] && a[i] != sep;
    assert forall i :: 0 <= i < |b| ==> s[i] == b[i] && b[i] != sep;
    assert |a| == |b|;
    assert s[..|a|] == a && s[..|b|] == b;
    assert s[|a| + 1..] == x && s[|b| + 1..] == y;
  }

  lemma {:induction false} TerminatedInjective(p: seq<string>, q: seq<string>, sep: char)
    requires Lacks(p, sep) && Lacks(q, sep) && Terminated(p, sep) == Terminated(q, sep)
    ensures p == q
  {
    if p != [] && q != [] {
      CutAtSeparator(p[0], q[0], Terminated(p[1..], sep), Terminated(q[1..], sep), sep);
      TerminatedInjective(p[1..], q[1..], sep);
    }
  }

  function Pow16(n: nat): nat { if n == 0 then 1 else 16 * Pow16(n - 1) }

  lemma {:induction false} Pow16Is()
    ensures Pow16(16) == U64_MAX + 1
  {
    assert Pow16(4) == 0x1_0000;
    assert Pow16(8) == 0x1_0000 * Pow16(4);
    assert Pow16(12) == 0x1_0000 * Pow16(8);
    assert Pow16(16) == 0x1_0000 * Pow16(12);
  }

  lemma {:induction false} HexInjective(g: nat, h: nat, n: nat)
    requires g < Pow16(n) && h < Pow16(n) && Hex(g, n) == Hex(h, n)
    ensures g == h
  {
    if n > 0 {
      HexSplit(g, h, n);
      HexInjective(g / 16, h / 16, n - 1);
    }
  }

  lemma {:induction false} HexDigitValue(d: nat)
    requires d < 16
    ensures HexDigit(d) as int == if d < 10 then '0' as int + d else 'a' as int + d - 10
  {}

  lemma {:induction false} HexSplit(g: nat, h: nat, n: nat)
    requires n > 0 && Hex(g, n) == Hex(h, n)
    ensures Hex(g / 16, n - 1) == Hex(h / 16, n - 1) && g % 16 == h % 16
  {
    var x, y := Hex(g, n), Hex(h, n);
    HexLength(g / 16, n - 1);
    HexLength(h / 16, n - 1);
    assert Hex(g / 16, n - 1) == x[..n - 1] == y[..n - 1] == Hex(h / 16, n - 1);
    assert HexDigit(g % 16) == x[n - 1] == y[n - 1] == HexDigit(h % 16);
    HexDigitValue(g % 16);
    HexDigitValue(h % 16);
  }

  lemma {:induction false} HexLength(h: nat, n: nat)
    ensures |Hex(h, n)| == n && NL !in Hex(h, n)
  {
    if n > 0 { HexLength(h / 16, n - 1); }
  }

  lemma {:induction false} LinesLackNewline(values: seq<string>)
    requires Lacks(values, NL)
    ensures NL !in Terminated(values, US)
  {
    if values != [] { LinesLackNewline(values[1..]); }
  }

  /** The side conditions on one request: no newline in any component, no 0x1f in a header
      value that joins the key, a 64-bit hash. */
  ghost predicate Clean(vary: seq<string>, r: Request) {
    && NL !in r.verb && NL !in r.path && NL !in QueryText(r.query)
    && (forall i :: 0 <= i < |vary| ==>
      Lacks(ValuesOf(r.headers, vary[i]), NL) && Lacks(ValuesOf(r.headers, vary[i]), US))
    && (r.bodyHash.Some? ==> r.bodyHash.value <= U64_MAX)
  }

  lemma {:induction false} VaryLinesClean(vary: seq<string>, r: Request)
    requires Clean(vary, r)
    ensures |VaryLines(vary, r.headers)| == |vary| && Lacks(VaryLines(vary, r.headers), NL)
  {
    if vary != [] {
      assert forall i :: 0 <= i < |vary[1..]| ==> vary[1..][i] == vary[i + 1];
      VaryLinesClean(vary[1..], r);
      LinesLackNewline(ValuesOf(r.headers, vary[0]));
    }
  }

  lemma {:induction false} VaryLinesInjective(vary: seq<string>, r: Request, s: Request)
    requires Clean(vary, r) && Clean(vary, s) && VaryLines(vary, r.headers) == VaryLines(vary, s.headers)
    ensures forall i :: 0 <= i < |vary| ==> ValuesOf(r.headers, vary[i]) == ValuesOf(s.headers, vary[i])
  {
    if vary != [] {
      var v := vary[1..];
      assert forall i :: 0 <= i < |v| ==> v[i] == vary[i + 1];
      assert VaryLines(vary, r.headers)[1..] == VaryLines(v, r.headers);
      assert VaryLines(vary, s.headers)[1..] == VaryLines(v, s.headers);
      VaryLinesInjective(v, r, s);
      assert VaryLines(vary, r.headers)[0] == VaryLines(vary, s.headers)[0];
      TerminatedInjective(ValuesOf(r.headers, vary[0]), ValuesOf(s.headers, vary[0]), US);
      forall i | 0 <= i < |vary| ensures ValuesOf(r.headers, vary[i]) == ValuesOf(s.headers, vary[i]) {
        if i > 0 { assert vary[i] == v[i - 1]; }
      }
    }
  }

  /** Two requests select the same entry. */
  ghost predicate SameVariant(vary: seq<string>, r: Request, s: Request) {
    && r.verb == s.verb && r.path == s.path && QueryText(r.query) == QueryText(s.query)
    && (forall i :: 0 <= i < |vary| ==> ValuesOf(r.headers, vary[i]) == ValuesOf(s.headers, vary[i]))
    && r.bodyHash == s.bodyHash
  }

  lemma {:induction false} FieldsInjective(vary: seq<string>, r: Request, s: Request)
    requires Clean(vary, r) && Clean(vary, s) && Fields(vary, r) == Fields(vary, s)
    ensures SameVariant(vary, r, s)
  {
    VaryLinesClean(vary, r);
    VaryLinesClean(vary, s);
    var f, g, n := Fields(vary, r), Fields(vary, s), |vary|;
    assert f[0] == g[0] && f[1] == g[1] && f[2] == g[2];
    assert VaryLines(vary, r.headers) == f[3..n + 3] == g[3..n + 3] == VaryLines(vary, s.headers);
    VaryLinesInjective(vary, r, s);
    assert |f| == n + 3 + |HashLine(r.bodyHash)| && |g| == n + 3 + |HashLine(s.bodyHash)|;
    if r.bodyHash.Some? && s.bodyHash.Some? {
      assert f[n + 3] == g[n + 3];
      Pow16Is();
      HexInjective(r.bodyHash.value, s.bodyHash.value, 16);
    }
  }

  lemma {:induction false} SameLines(vary: seq<string>, r: Request, s: Request)
    requires forall i :: 0 <= i < |vary| ==> ValuesOf(r.headers, vary[i]) == ValuesOf(s.headers, vary[i])
    ensures VaryLines(vary, r.headers) == VaryLines(vary, s.headers)
  {
    if vary != [] {
      assert forall i :: 0 <= i < |vary[1..]| ==> vary[1..][i] == vary[i + 1];
      assert ValuesOf(r.headers, vary[0]) == ValuesOf(s.headers, vary[0]);
      SameLines(vary[1..], r, s);
    }
  }

  /** The key is injective: equal keys exactly for requests that agree on method, path,
      query, the ordered values of every vary header, and body hash. */
  lemma {:induction false} KeyInjective(vary: seq<string>, r: Request, s: Request, k: string, l: string)
    requires Clean(vary, r) && Clean(vary, s) && IsKey(k, vary, r) && IsKey(l, vary, s)
    ensures k == l <==> SameVariant(vary, r, s)
  {
    if k == l {
      FieldsLackNewline(vary, r);
      FieldsLackNewline(vary, s);
      TerminatedInjective(Fields(vary, r), Fields(vary, s), NL);
      FieldsInjective(vary, r, s);
    }
    if SameVariant(vary, r, s) {
      SameLines(vary, r, s);
      assert (k + [NL])[..|k|] == k && (l + [NL])[..|l|] == l;
    }
  }

  lemma {:induction false} FieldsLackNewline(vary: seq<string>, r: Request)
    requires Clean(vary, r)
    ensures Lacks(Fields(vary, r), NL)
  {
    VaryLinesClean(vary, r);
    if r.bodyHash.Some? { HexLength(r.bodyHash.value, 16); }
  }
}
