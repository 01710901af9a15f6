/** The PROXY protocol prefix reader (src/proxy_protocol.rs). A source is the bytes still to
    come together with a plan of read sizes: every way a connection may be chunked is some
    plan. Addresses stay structured instead of being printed. */
module ProxyProtocol {
  import opened Common

  const SIG_V2: Bytes := [0x0D, 0x0A, 0x0D, 0x0A, 0x00, 0x0D, 0x0A, 0x51, 0x55, 0x49, 0x54, 0x0A]
  const SIG_V1: Bytes := [0x50, 0x52, 0x4F, 0x58, 0x59, 0x20]  // "PROXY "
  const PROXY: Bytes := [0x50, 0x52, 0x4F, 0x58, 0x59]
  const TCP4: Bytes := [0x54, 0x43, 0x50, 0x34]
  const TCP6: Bytes := [0x54, 0x43, 0x50, 0x36]
  const UNKNOWN: Bytes := [0x55, 0x4E, 0x4B, 0x4E, 0x4F, 0x57, 0x4E]
  const CR: Byte := 0x0D
  const LF: Byte := 0x0A
  const SP: Byte := 0x20
  const MAX_V1: nat := 107
  const READ_BUF: nat := 256

  /** `Text`: the token of a v1 line. `V4`, `V6`: the octets and segments of a v2 block. */
  datatype Addr = Text(token: Bytes) | V4(octets: Bytes) | V6(segments: seq<nat>)

  datatype Src = Src(rest: Bytes, plan: seq<nat>)

  /** How many bytes the next `read` into a 256-byte buffer yields; 0 only at the end. */
  function ReadSize(s: Src): (n: nat)
    ensures n <= |s.rest| && n <= READ_BUF && (n == 0 <==> s.rest == [])
  {
    var room := if |s.rest| < READ_BUF then |s.rest| else READ_BUF;
    var wish := if s.plan == [] then 1 else s.plan[0];
    if room == 0 then 0 else if wish < 1 then 1 else if wish > room then room else wish
  }

  function Advance(s: Src): Src {
    Src(s.rest[ReadSize(s)..], if s.plan == [] then [] else s.plan[1..])
  }

  function ReadAtLeast(s: Src, buf: Bytes, want: nat): (r: Option<(Src, Bytes)>)
    ensures r.Some? <==> |buf| + |s.rest| >= want
    ensures r.Some? ==> r.value.1 + r.value.0.rest == buf + s.rest && |r.value.1| >= want
    ensures r.Some? && |buf| < want ==> |r.value.1| < want + READ_BUF && |r.value.0.rest| < |s.rest|
    ensures r.Some? && |buf| >= want ==> r.value == (s, buf)
    decreases |s.rest|
  {
    if |buf| >= want then Some((s, buf))
    else
      var n := ReadSize(s);
      if n == 0 then None
      else
        assert (buf + s.rest[..n]) + Advance(s).rest == buf + s.rest;
        ReadAtLeast(Advance(s), buf + s.rest[..n], want)
  }

  predicate CrlfAt(buf: Bytes, i: int) { 0 <= i && i + 1 < |buf| && buf[i] == CR && buf[i + 1] == LF }

  function CrlfFrom(buf: Bytes, i: nat): (r: Option<nat>)
    ensures r.Some? ==> i <= r.value && CrlfAt(buf, r.value) && forall j :: i <= j < r.value ==> !CrlfAt(buf, j)
    ensures r.None? ==> forall j :: i <= j ==> !CrlfAt(buf, j)
    decreases |buf| - i
  {
    if i + 1 >= |buf| then None else if CrlfAt(buf, i) then Some(i) else CrlfFrom(buf, i + 1)
  }

  function FindCrlf(buf: Bytes): Option<nat> { CrlfFrom(buf, 0) }

  /** The read loop of `parse_v1`. */
  function ScanV1(s: Src, buf: Bytes): Option<(Src, Bytes, nat)>
    decreases |s.rest|
  {
    match FindCrlf(buf)
    case Some(i) => Some((s, buf, i))
    case None =>
      if |buf| > MAX_V1 then None
      else match ReadAtLeast(s, buf, |buf| + 1)
        case None => None
        case Some((s', buf')) => ScanV1(s', buf')
  }

  // ---- the text line ----

  predicate Cont(b: Byte) { 0x80 <= b <= 0xBF }

  /** `str::from_utf8`: well-formed UTF-8, section 3 of RFC 3629. */
  predicate Utf8(b: Bytes) {
    if b == [] then true
    else if b[0] < 0x80 then Utf8(b[1..])
    else if 0xC2 <= b[0] <= 0xDF then |b| >= 2 && Cont(b[1]) && Utf8(b[2..])
    else if 0xE0 <= b[0] <= 0xEF then
      && |b| >= 3 && Cont(b[1]) && Cont(b[2])
      && (b[0] == 0xE0 ==> b[1] >= 0xA0) && (b[0] == 0xED ==> b[1] <= 0x9F) && Utf8(b[3..])
    else if 0xF0 <= b[0] <= 0xF4 then
      && |b| >= 4 && Cont(b[1]) && Cont(b[2]) && Cont(b[3])
      && (b[0] == 0xF0 ==> b[1] >= 0x90) && (b[0] == 0xF4 ==> b[1] <= 0x8F) && Utf8(b[4..])
    else false
  }

  /** `split(' ')`, `tok` being the token read so far. */
  function Split(line: Bytes, tok: Bytes): (parts: seq<Bytes>)
    ensures |parts| >= 1
  {
    if line == [] then [tok]
    else if line[0] == SP then [tok] + Split(line[1..], [])
    else Split(line[1..], tok + [line[0]])
  }

  /** The verdict on a v1 line without its CRLF: `None` refuses it. */
  function V1Verdict(line: Bytes): Option<Option<Addr>> {
    if !Utf8(line) then None
    else
      var parts := Split(line, []);
      if parts[0] != PROXY then None
      else if |parts| > 1 && (parts[1] == TCP4 || parts[1] == TCP6) then
        Some(if |parts| > 2 then Some(Text(parts[2])) else None)
      else if |parts| > 1 && parts[1] == UNKNOWN then Some(None)
      else None
  }

  // ---- what the line means ----

  /** The bytes of an ASCII text. */
  predicate Reads(b: Bytes, s: string) { |b| == |s| && forall i :: 0 <= i < |s| ==> b[i] == s[i] as int }

  predicate Scalar(cp: nat) { cp < 0xD800 || 0xE000 <= cp <= 0x10FFFF }

  /** The UTF-8 form of one code point (section 3 of RFC 3629). */
  function Encode(cp: nat): Bytes
    requires Scalar(cp)
  {
    if cp < 0x80 then [cp]
    else if cp < 0x800 then [0xC0 + cp / 64, 0x80 + cp % 64]
    else if cp < 0x1_0000 then [0xE0 + cp / 64 / 64, 0x80 + cp / 64 % 64, 0x80 + cp % 64]
    else [0xF0 + cp / 64 / 64 / 64, 0x80 + cp / 64 / 64 % 64, 0x80 + cp / 64 % 64, 0x80 + cp % 64]
  }

  function EncodeAll(cps: seq<nat>): Bytes
    requires forall i :: 0 <= i < |cps| ==> Scalar(cps[i])
  {
    if cps == [] then [] else Encode(cps[0]) + EncodeAll(cps[1..])
  }

  lemma {:induction false} EncodeIsUtf8(cp: nat, rest: Bytes)
    requires Scalar(cp)
    ensures Utf8(Encode(cp) + rest) <==> Utf8(rest)
  {
    var e := Encode(cp);
    assert (e + rest)[|e|..] == rest;
  }

  /** A number and its next six bits. */
  lemma {:induction false} Sextet(hi: nat, b: Byte) returns (cp: nat)
    requires Cont(b)
    ensures cp == 64 * hi + (b as int - 0x80) && cp / 64 == hi && cp % 64 == b as int - 0x80
  {
    cp := 64 * hi + (b as int - 0x80);
  }

  /** The first code point of a well-formed text. */
  lemma {:induction false} DecodeFirst(b: Bytes) returns (cp: nat, rest: Bytes)
    requires Utf8(b) && b != []
    ensures Scalar(cp) && b == Encode(cp) + rest && Utf8(rest)
  {
    if b[0] < 0x80 {
      cp, rest := b[0], b[1..];
    } else if b[0] <= 0xDF {
      cp := Sextet(b[0] as int - 0xC0, b[1]);
      rest := b[2..];
    } else if b[0] <= 0xEF {
      cp := DecodeThree(b);
      rest := b[3..];
    } else {
      cp := DecodeFour(b);
      rest := b[4..];
    }
  }

  lemma {:induction false} DecodeThree(b: Bytes) returns (cp: nat)
    requires Utf8(b) && b != [] && 0xE0 <= b[0] <= 0xEF
    ensures Scalar(cp) && b == Encode(cp) + b[3..]
  {
    cp := Sextet(b[0] as int - 0xE0, b[1]);
    cp := Sextet(cp, b[2]);
    assert Encode(cp) == [b[0], b[1], b[2]];
  }

  lemma {:induction false} DecodeFour(b: Bytes) returns (cp: nat)
    requires Utf8(b) && b != [] && 0xF0 <= b[0] <= 0xF4
    ensures Scalar(cp) && b == Encode(cp) + b[4..]
  {
    cp := Sextet(b[0] as int - 0xF0, b[1]);
    cp := Sextet(cp, b[2]);
    cp := Sextet(cp, b[3]);
    assert Encode(cp) == [b[0], b[1], b[2], b[3]];
  }

  /** A line is a text exactly if it encodes some sequence of code points. */
  lemma {:induction false} Utf8Iff(b: Bytes)
    ensures Utf8(b) <==>
      exists cps: seq<nat> :: (forall i :: 0 <= i < |cps| ==> Scalar(cps[i])) && EncodeAll(cps) == b
  {
    if Utf8(b) { var _ := DecodeAll(b); }
    if cps: seq<nat> :| (forall i :: 0 <= i < |cps| ==> Scalar(cps[i])) && EncodeAll(cps) == b { EncodedIsUtf8(cps); }
  }

  lemma {:induction false} DecodeAll(b: Bytes) returns (cps: seq<nat>)
    requires Utf8(b)
    ensures (forall i :: 0 <= i < |cps| ==> Scalar(cps[i])) && EncodeAll(cps) == b
  {
    cps := [];
    if b != [] {
      var cp, rest := DecodeFirst(b);
      var more := DecodeAll(rest);
      cps := [cp] + more;
      assert cps[1..] == more;
    }
  }

  lemma {:induction false} EncodedIsUtf8(cps: seq<nat>)
    requires forall i :: 0 <= i < |cps| ==> Scalar(cps[i])
    ensures Utf8(EncodeAll(cps))
  {
    if cps != [] {
      EncodedIsUtf8(cps[1..]);
      EncodeIsUtf8(cps[0], EncodeAll(cps[1..]));
    }
  }

  /** The words of a line, separated by single spaces. */
  function Spaced(words: seq<Bytes>): Bytes
    requires words != []
  {
    if |words| == 1 then words[0] else words[0] + [SP] + Spaced(words[1..])
  }

  lemma {:induction false} SplitWord(w: Bytes, tok: Bytes, rest: Bytes)
    requires SP !in w
    ensures Split(w, tok) == [tok + w] && Split(w + [SP] + rest, tok) == [tok + w] + Split(rest, [])
    decreases |w|
  {
    var line := w + [SP] + rest;
    if w == [] {
      assert line[1..] == rest && tok + w == tok;
    } else {
      assert line[1..] == w[1..] + [SP] + rest && (tok + [w[0]]) + w[1..] == tok + w;
      SplitWord(w[1..], tok + [w[0]], rest);
    }
  }

  lemma {:induction false} SplitSpaced(words: seq<Bytes>)
    requires words != [] && forall i :: 0 <= i < |words| ==> SP !in words[i]
    ensures Split(Spaced(words), []) == words
  {
    assert [] + words[0] == words[0];
    if |words| == 1 {
      SplitWord(words[0], [], []);
    } else {
      SplitSpaced(words[1..]);
      SplitWord(words[0], [], Spaced(words[1..]));
      assert words == [words[0]] + words[1..];
    }
  }

  /** The verdict on a line of these words: `PROXY TCP4` and `PROXY TCP6` carry the next word
      as the address, `PROXY UNKNOWN` is accepted without one, and everything else, and
      anything that is not UTF-8, is refused. */
  lemma {:induction false} V1VerdictIs(words: seq<Bytes>)
    requires words != [] && forall i :: 0 <= i < |words| ==> SP !in words[i]
    ensures V1Verdict(Spaced(words)) ==
      if !Utf8(Spaced(words)) || !Reads(words[0], "PROXY") || |words| == 1 then None
      else if Reads(words[1], "TCP4") || Reads(words[1], "TCP6") then
        Some(if |words| > 2 then Some(Text(words[2])) else None)
      else if Reads(words[1], "UNKNOWN") then Some(None)
      else None
  {
    SplitSpaced(words);
    SameText(words[0], PROXY, "PROXY");
    if |words| > 1 {
      SameText(words[1], TCP4, "TCP4");
      SameText(words[1], TCP6, "TCP6");
      SameText(words[1], UNKNOWN, "UNKNOWN");
    }
  }

  lemma {:induction false} SameText(b: Bytes, c: Bytes, s: string)
    requires Reads(c, s)
    ensures Reads(b, s) <==> b == c
  {}

  /** The two signatures (sections 2.1 and 2.2 of the PROXY protocol specification). */
  lemma {:induction false} SignaturesAre()
    ensures Reads(SIG_V1, "PROXY ") && Reads(SIG_V2, "\r\n\r\n\0\r\nQUIT\n")
  {}

  // ---- the binary header ----

  function Be16(hi: Byte, lo: Byte): nat { hi * 256 + lo }

  function Segments(block: Bytes): seq<nat>
    requires |block| >= 16
  {
    seq(8, i requires 0 <= i < 8 => Be16(block[2 * i], block[2 * i + 1]))
  }

  function V2Addr(verCmd: Byte, famProto: Byte, block: Bytes): Option<Addr> {
    if verCmd % 16 != 1 then None
    else if famProto / 16 == 1 && |block| >= 12 then Some(V4(block[0..4]))
    else if famProto / 16 == 2 && |block| >= 36 then
      Some(V6(Segments(block)))
    else None
  }

  /** The address of a v2 header: none for LOCAL and for families other than the two Internet
      ones or a block too short for them, otherwise the first octets or segments of the block. */
  lemma {:induction false} V2AddrIs(verCmd: Byte, famProto: Byte, block: Bytes)
    ensures var a := V2Addr(verCmd, famProto, block);
      if verCmd % 16 == 1 && famProto / 16 == 1 && |block| >= 12 then
        a == Some(V4([block[0], block[1], block[2], block[3]]))
      else if verCmd % 16 == 1 && famProto / 16 == 2 && |block| >= 36 then
        && a.Some? && a.value.V6? && |a.value.segments| == 8
        && forall i :: 0 <= i < 8 ==> a.value.segments[i] == 256 * (block[2 * i] as int) + block[2 * i + 1] as int
      else a == None
  {
    if |block| >= 12 { assert block[0..4] == [block[0], block[1], block[2], block[3]]; }
  }

  /** An accepted prefix: the address, the bytes read past the header, the stream. */
  datatype Parsed = Parsed(addr: Option<Addr>, leftover: Bytes, src: Src)

  function ParseV1(s: Src, buf: Bytes): Option<Parsed> {
    match ScanV1(s, buf)
    case None => None
    case Some((s', b, i)) =>
      if i + 2 > |b| then None
      else match V1Verdict(b[..i])
        case None => None
        case Some(addr) => Some(Parsed(addr, b[i + 2..], s'))
  }

  function ParseV2(s: Src, buf: Bytes): Option<Parsed> {
    match ReadAtLeast(s, buf, 16)
    case None => None
    case Some((s1, b1)) =>
      if b1[12] / 16 != 2 then None
      else
        var len := Be16(b1[14], b1[15]);
        match ReadAtLeast(s1, b1, 16 + len)
        case None => None
        case Some((s2, b2)) => Some(Parsed(V2Addr(b1[12], b1[13], b2[16..16 + len]), b2[16 + len..], s2))
  }

  function ReadHeader(s: Src): Option<Parsed> {
    match ReadAtLeast(s, [], 12)
    case None => None
    case Some((s', buf)) =>
      if buf[..12] == SIG_V2 then ParseV2(s', buf)
      else if buf[..6] == SIG_V1 then ParseV1(s', buf)
      else None
  }

  // ---- what the prefix of a byte stream says, with no reads in sight ----

  /** Header length and address, or `None` for a refused connection. */
  function Spec(data: Bytes): Option<(nat, Option<Addr>)> {
    if |data| < 12 then None
    else if data[..12] == SIG_V2 then
      if |data| < 16 || data[12] / 16 != 2 || |data| < 16 + Be16(data[14], data[15]) then None
      else
        var end := 16 + Be16(data[14], data[15]);
        Some((end, V2Addr(data[12], data[13], data[16..end])))
    else if data[..6] == SIG_V1 then
      match FindCrlf(data)
      case None => None
      case Some(i) => if V1Verdict(data[..i]).None? then None else Some((i + 2, V1Verdict(data[..i]).value))
    else None
  }

  predicate IsV1(data: Bytes) { |data| >= 12 && data[..12] != SIG_V2 && data[..6] == SIG_V1 }

  lemma {:induction false} CrlfInPrefix(data: Bytes, n: nat)
    requires n <= |data|
    ensures FindCrlf(data[..n])
         == match FindCrlf(data) case None => None case Some(i) => if i + 2 <= n then Some(i) else None
  {
    assert forall j :: CrlfAt(data[..n], j) <==> CrlfAt(data, j) && j + 2 <= n;
    match FindCrlf(data)
    case None =>
    case Some(i) =>
      if i + 2 <= n { assert CrlfAt(data[..n], i); }
  }

  lemma {:induction false} ScanV1Finds(s: Src, buf: Bytes, data: Bytes)
    requires data == buf + s.rest && |buf| <= MAX_V1 + READ_BUF
    ensures var r := ScanV1(s, buf);
      && (r.Some? ==>
            && r.value.1 + r.value.0.rest == data && FindCrlf(data) == Some(r.value.2)
            && r.value.2 + 2 <= |r.value.1| <= MAX_V1 + READ_BUF)
      && (FindCrlf(data).Some? && FindCrlf(data).value + 2 <= MAX_V1 + 1 ==> r.Some?)
    decreases |s.rest|
  {
    assert data[..|buf|] == buf;
    CrlfInPrefix(data, |buf|);
    if FindCrlf(buf).None? && |buf| <= MAX_V1 {
      var r := ReadAtLeast(s, buf, |buf| + 1);
      if r.Some? { ScanV1Finds(r.value.0, r.value.1, data); }
    }
  }

  /** The outcome a run reports, with the header measured from the front of the stream. */
  ghost predicate Agrees(data: Bytes, r: Option<Parsed>, spec: Option<(nat, Option<Addr>)>) {
    && (r.Some? <==> spec.Some?)
    && (r.Some? ==>
          && r.value.addr == spec.value.1 && spec.value.0 <= |data|
          && r.value.leftover + r.value.src.rest == data[spec.value.0..])
  }

  lemma {:induction false} SplitStream(a: Bytes, b: Bytes, n: nat)
    requires n <= |a|
    ensures a[n..] + b == (a + b)[n..] && a[..n] == (a + b)[..n]
  {}

  lemma {:induction false} V2Agrees(s: Src, buf: Bytes, data: Bytes)
    requires data == buf + s.rest && |buf| >= 12 && data[..12] == SIG_V2
    ensures Agrees(data, ParseV2(s, buf), Spec(data))
  {
    var r1 := ReadAtLeast(s, buf, 16);
    if r1.Some? {
      var (s1, b1) := r1.value;
      assert data == b1 + s1.rest;
      assert b1[12] == data[12] && b1[13] == data[13] && b1[14] == data[14] && b1[15] == data[15];
      if b1[12] / 16 == 2 {
        var end := 16 + Be16(b1[14], b1[15]);
        var r2 := ReadAtLeast(s1, b1, end);
        if r2.Some? {
          var (s2, b2) := r2.value;
          assert data == b2 + s2.rest;
          SplitStream(b2, s2.rest, end);
          assert b2[16..end] == data[16..end];
        }
      }
    }
  }

  lemma {:induction false} V1Agrees(s: Src, buf: Bytes, data: Bytes)
    requires data == buf + s.rest && 12 <= |buf| <= MAX_V1 + READ_BUF && IsV1(data)
    ensures var r := ParseV1(s, buf);
      && (r.Some? ==> Agrees(data, r, Spec(data)) && Spec(data).value.0 <= MAX_V1 + READ_BUF)
      && (Spec(data).Some? && Spec(data).value.0 <= MAX_V1 + 1 ==> r.Some?)
  {
    ScanV1Finds(s, buf, data);
    var r := ScanV1(s, buf);
    if r.Some? {
      var (s', b, i) := r.value;
      SplitStream(b, s'.rest, i + 2);
      SplitStream(b, s'.rest, i);
    }
  }

  /** What a connection is told depends on the bytes alone, however they arrive: always, for
      a v2 header or no header at all, and for a v1 line whenever its first CRLF ends by
      byte 108 or the line is refused anyway or is too long for any chunking. The header
      and the bytes handed upstream make up the stream, and no accepted v1 header exceeds
      363 bytes. */
  lemma {:induction false} ChunkingIndependent(data: Bytes, plan: seq<nat>)
    ensures var r := ReadHeader(Src(data, plan));
      && (r.Some? ==> Agrees(data, r, Spec(data)))
      && (r.Some? && IsV1(data) ==> Spec(data).value.0 <= MAX_V1 + READ_BUF)
      && (Spec(data).Some? && (IsV1(data) ==> Spec(data).value.0 <= MAX_V1 + 1) ==> r.Some?)
  {
    var r := ReadAtLeast(Src(data, plan), [], 12);
    if r.Some? {
      var (s, buf) := r.value;
      assert data == buf + s.rest by { assert [] + data == data; }
      assert buf[..12] == data[..12] && buf[..6] == data[..6];
      if data[..12] == SIG_V2 {
        V2Agrees(s, buf, data);
      } else if data[..6] == SIG_V1 {
        V1Agrees(s, buf, data);
      }
    }
  }

  /** A v1 line of 109 to 363 bytes, CRLF included. */
  predicate LongV1(data: Bytes) {
    IsV1(data) && Spec(data).Some? && MAX_V1 + 1 < Spec(data).value.0 <= MAX_V1 + READ_BUF
  }

  lemma {:induction false} FirstRead(data: Bytes, n: nat, later: seq<nat>)
    requires 12 <= n <= READ_BUF && n <= |data|
    ensures ReadAtLeast(Src(data, [n] + later), [], 12) == Some((Src(data[n..], later), data[..n]))
    ensures data[..n][..12] == data[..12] && data[..n][..6] == data[..6]
  {
    var s := Src(data, [n] + later);
    assert ReadSize(s) == n && Advance(s) == Src(data[n..], later);
    assert [] + data[..n] == data[..n];
  }

  lemma {:induction false} OneReadRefuses(data: Bytes)
    requires LongV1(data)
    ensures ReadHeader(Src(data, [MAX_V1 + 1])).None?
  {
    FirstRead(data, MAX_V1 + 1, []);
    assert [MAX_V1 + 1] + [] == [MAX_V1 + 1];
    CrlfInPrefix(data, MAX_V1 + 1);
  }

  lemma {:induction false} SecondRead(data: Bytes)
    requires LongV1(data)
    ensures var n := if |data| < MAX_V1 + READ_BUF then |data| else MAX_V1 + READ_BUF;
            ScanV1(Src(data[MAX_V1..], [READ_BUF]), data[..MAX_V1])
            == Some((Src(data[n..], []), data[..n], FindCrlf(data).value))
  {
    var n := if |data| < MAX_V1 + READ_BUF then |data| else MAX_V1 + READ_BUF;
    var s := Src(data[MAX_V1..], [READ_BUF]);
    CrlfInPrefix(data, MAX_V1);
    CrlfInPrefix(data, n);
    assert ReadSize(s) == n - MAX_V1;
    assert data[..MAX_V1] + s.rest[..n - MAX_V1] == data[..n];
    assert Advance(s) == Src(data[n..], []);
    assert ReadAtLeast(s, data[..MAX_V1], MAX_V1 + 1) == ReadAtLeast(Advance(s), data[..n], MAX_V1 + 1);
    assert ScanV1(s, data[..MAX_V1]) == ScanV1(Advance(s), data[..n]);
  }

  lemma {:induction false} SecondReadAccepts(data: Bytes)
    requires LongV1(data)
    ensures ParseV1(Src(data[MAX_V1..], [READ_BUF]), data[..MAX_V1]).Some?
  {
    SecondRead(data);
    var n := if |data| < MAX_V1 + READ_BUF then |data| else MAX_V1 + READ_BUF;
    var i := FindCrlf(data).value;
    assert data[..n][..i] == data[..i];
  }

  lemma {:induction false} TwoReadsAccept(data: Bytes)
    requires LongV1(data)
    ensures ReadHeader(Src(data, [MAX_V1, READ_BUF])).Some?
  {
    FirstRead(data, MAX_V1, [READ_BUF]);
    assert [MAX_V1] + [READ_BUF] == [MAX_V1, READ_BUF];
    var s := Src(data[MAX_V1..], [READ_BUF]);
    assert ReadHeader(Src(data, [MAX_V1, READ_BUF])) == ParseV1(s, data[..MAX_V1]);
    assert ParseV1(s, data[..MAX_V1]).Some? by { SecondReadAccepts(data); }
  }

  /** For those lines the verdict does depend on the reads; for all other byte streams it
      does not. */
  lemma {:induction false} IndependentIff(data: Bytes)
    ensures (forall p, q :: ReadHeader(Src(data, p)).Some? <==> ReadHeader(Src(data, q)).Some?)
       <==> !(IsV1(data) && Spec(data).Some? && 109 <= Spec(data).value.0 <= 363)
  {
    if LongV1(data) {
      OneReadRefuses(data);
      TwoReadsAccept(data);
    } else {
      forall p, q ensures ReadHeader(Src(data, p)).Some? <==> ReadHeader(Src(data, q)).Some? {
        ChunkingIndependent(data, p);
        ChunkingIndependent(data, q);
      }
    }
  }

  // ---- printing then parsing ----

  predicate Token(t: Bytes) { forall i :: 0 <= i < |t| ==> t[i] < 0x80 && t[i] != SP && t[i] != CR }

  function PrintV1(proto: Bytes, src: Bytes, tail: Bytes): Bytes {
    PROXY + [SP] + proto + [SP] + src + [SP] + tail + [CR, LF]
  }

  lemma {:induction false} AsciiIsUtf8(b: Bytes)
    requires forall i :: 0 <= i < |b| ==> b[i] < 0x80
    ensures Utf8(b)
  {
    if b != [] { AsciiIsUtf8(b[1..]); }
  }

  lemma {:induction false} SplitToken(t: Bytes, rest: Bytes, tok: Bytes)
    requires Token(t)
    ensures Split(t + [SP] + rest, tok) == [tok + t] + Split(rest, [])
    decreases |t|
  {
    var line := t + [SP] + rest;
    if t == [] {
      assert line[1..] == rest && tok + t == tok;
    } else {
      assert line[1..] == t[1..] + [SP] + rest && (tok + [t[0]]) + t[1..] == tok + t;
      SplitToken(t[1..], rest, tok + [t[0]]);
    }
  }

  lemma {:induction false} PrintedLine(proto: Bytes, src: Bytes, tail: Bytes)
    requires (proto == TCP4 || proto == TCP6) && Token(src)
    requires forall i :: 0 <= i < |tail| ==> tail[i] < 0x80 && tail[i] != CR
    ensures V1Verdict(PROXY + [SP] + (proto + [SP] + (src + [SP] + tail))) == Some(Some(Text(src)))
  {
    AsciiIsUtf8(PROXY + [SP] + (proto + [SP] + (src + [SP] + tail)));
    SplitToken(PROXY, proto + [SP] + (src + [SP] + tail), []);
    SplitToken(proto, src + [SP] + tail, []);
    SplitToken(src, tail, []);
    assert [] + PROXY == PROXY && [] + proto == proto && [] + src == src;
  }

  lemma {:induction false} PrintedEnd(line: Bytes, payload: Bytes)
    requires forall j :: 0 <= j < |line| ==> line[j] != CR
    ensures FindCrlf(line + [CR, LF] + payload) == Some(|line|)
  {
    var data := line + [CR, LF] + payload;
    assert forall j :: 0 <= j < |line| ==> data[j] == line[j];
    assert CrlfAt(data, |line|);
  }

  lemma {:induction false} LineStarts(proto: Bytes, rest: Bytes, tail: Bytes)
    requires |proto| == 4
    ensures var data := PROXY + [SP] + (proto + [SP] + rest) + [CR, LF] + tail;
            |data| >= 12 && data[..6] == SIG_V1 && data[..12] != SIG_V2
  {
    var data := PROXY + [SP] + (proto + [SP] + rest) + [CR, LF] + tail;
    assert data[..12][0] == 0x50;
  }

  lemma {:induction false} PrintedV1(proto: Bytes, src: Bytes, tail: Bytes, payload: Bytes)
    requires (proto == TCP4 || proto == TCP6) && Token(src)
    requires forall i :: 0 <= i < |tail| ==> tail[i] < 0x80 && tail[i] != CR
    ensures var h := PrintV1(proto, src, tail); var data := h + payload;
            IsV1(data) && Spec(data) == Some((|h|, Some(Text(src)))) && data[|h|..] == payload
  {
    var rest := src + [SP] + tail;
    var line := PROXY + [SP] + (proto + [SP] + rest);
    assert PrintV1(proto, src, tail) == line + [CR, LF];
    PrintedLine(proto, src, tail);
    PrintedEnd(line, payload);
    LineStarts(proto, rest, payload);
    assert (line + [CR, LF] + payload)[..|line|] == line;
  }

  /** Such long lines exist: trailing text of a hundred bytes is enough. */
  lemma {:induction false} LongV1Exists() returns (data: Bytes)
    ensures LongV1(data) && !(forall p, q :: ReadHeader(Src(data, p)).Some? <==> ReadHeader(Src(data, q)).Some?)
  {
    var tail: Bytes := seq(100, _ => 0x31);
    data := PrintV1(TCP4, [0x31], tail) + [];
    PrintedV1(TCP4, [0x31], tail, []);
    IndependentIff(data);
  }

  /** Printing a v1 header and parsing it gives the source address back, and the payload
      goes upstream, whatever the reads (section 2.1 of the PROXY protocol specification). */
  lemma {:induction false} V1RoundTrip(proto: Bytes, src: Bytes, tail: Bytes, payload: Bytes, plan: seq<nat>)
    requires (proto == TCP4 || proto == TCP6) && Token(src)
    requires forall i :: 0 <= i < |tail| ==> tail[i] < 0x80 && tail[i] != CR
    requires |PrintV1(proto, src, tail)| <= MAX_V1
    ensures var r := ReadHeader(Src(PrintV1(proto, src, tail) + payload, plan));
            r.Some? && r.value.addr == Some(Text(src)) && r.value.leftover + r.value.src.rest == payload
  {
    PrintedV1(proto, src, tail, payload);
    ChunkingIndependent(PrintV1(proto, src, tail) + payload, plan);
  }

  function PrintV2(famProto: Byte, addrs: Bytes): Bytes
    requires |addrs| < 0x1_0000
  {
    SIG_V2 + [0x21, famProto, |addrs| / 256, |addrs| % 256] + addrs
  }

  lemma {:induction false} PrintedV2(fam: Byte, block: Bytes, payload: Bytes)
    requires |block| < 0x1_0000
    ensures Spec(PrintV2(fam, block) + payload) == Some((16 + |block|, V2Addr(0x21, fam, block)))
    ensures (PrintV2(fam, block) + payload)[16 + |block|..] == payload
  {
    var data := PrintV2(fam, block) + payload;
    assert data[..12] == SIG_V2 && data[12] == 0x21 && data[13] == fam;
    assert data[14] == |block| / 256 && data[15] == |block| % 256;
    assert data[16..16 + |block|] == block;
  }

  /** Likewise for v2, with any trailing TLVs in the address block (section 2.2). */
  lemma {:induction false} V2RoundTrip(src: Bytes, others: Bytes, proto: Byte, payload: Bytes, plan: seq<nat>)
    requires proto < 16 && |src| + |others| < 0x1_0000
    requires (|src| == 4 && |others| >= 8) || (|src| == 16 && |others| >= 20)
    ensures var fam := (if |src| == 4 then 0x10 else 0x20) + proto;
            var r := ReadHeader(Src(PrintV2(fam, src + others) + payload, plan));
            && r.Some? && r.value.leftover + r.value.src.rest == payload
            && r.value.addr == Some(if |src| == 4 then V4(src) else V6(Segments(src)))
  {
    var fam: Byte := (if |src| == 4 then 0x10 else 0x20) + proto;
    PrintedV2(fam, src + others, payload);
    ChunkingIndependent(PrintV2(fam, src + others) + payload, plan);
    V2Source(src, others, fam);
  }

  lemma {:induction false} V2Source(src: Bytes, others: Bytes, fam: Byte)
    requires (|src| == 4 && |others| >= 8 && fam / 16 == 1) || (|src| == 16 && |others| >= 20 && fam / 16 == 2)
    ensures V2Addr(0x21, fam, src + others) == Some(if |src| == 4 then V4(src) else V6(Segments(src)))
  {
    if |src| == 4 {
      assert (src + others)[0..4] == src;
    } else {
      assert Segments(src + others) == Segments(src);
    }
  }

  // ---- the objects ----

  class ByteStream {
    var rest: Bytes
    var plan: seq<nat>

    ghost function View(): Src reads this { Src(rest, plan) }

    constructor (data: Bytes, plan: seq<nat>)
      ensures View() == Src(data, plan)
    {
      rest, this.plan := data, plan;
    }

    method Read() returns (chunk: Bytes)
      modifies this
      ensures chunk == old(rest)[..ReadSize(old(View()))] && View() == Advance(old(View()))
    {
      var n := ReadSize(Src(rest, plan));
      chunk := rest[..n];
      rest, plan := rest[n..], if plan == [] then [] else plan[1..];
    }

    method FillTo(have: Bytes, want: nat) returns (ok: bool, buf: Bytes)
      modifies this
      ensures ok <==> ReadAtLeast(old(View()), have, want).Some?
      ensures ok ==> ReadAtLeast(old(View()), have, want) == Some((View(), buf))
    {
      buf := have;
      while |buf| < want
        invariant ReadAtLeast(View(), buf, want) == ReadAtLeast(old(View()), have, want)
        decreases |rest|
      {
        var chunk := Read();
        if |chunk| == 0 { return false, buf; }
        buf := buf + chunk;
      }
      ok := true;
    }

    /** The v1 read loop. */
    method ScanLine(have: Bytes) returns (ok: bool, buf: Bytes, end: nat)
      modifies this
      ensures ok <==> ScanV1(old(View()), have).Some?
      ensures ok ==> ScanV1(old(View()), have) == Some((View(), buf, end)) && end + 2 <= |buf|
    {
      buf, end := have, 0;
      while FindCrlf(buf).None?
        invariant ScanV1(View(), buf) == ScanV1(old(View()), have)
        decreases |rest|
      {
        if |buf| > MAX_V1 { return false, buf, 0; }
        ok, buf := FillTo(buf, |buf| + 1);
        if !ok { return false, buf, 0; }
      }
      ok, end := true, FindCrlf(buf).value;
    }

    method HeaderV2(have: Bytes) returns (r: Option<PrefixedIo>)
      modifies this
      ensures r.Some? <==> ParseV2(old(View()), have).Some?
      ensures r.Some? ==> fresh(r.value) && r.value.Valid() && r.value.inner == this && r.value.pos == 0
      ensures r.Some? ==> ParseV2(old(View()), have) == Some(Parsed(r.value.addr, r.value.prefix, View()))
    {
      var ok, buf := FillTo(have, 16);
      if !ok || buf[12] / 16 != 2 { return None; }
      var verCmd, fam, len := buf[12], buf[13], Be16(buf[14], buf[15]);
      ok, buf := FillTo(buf, 16 + len);
      if !ok { return None; }
      var io := new PrefixedIo(this, buf[16 + len..], V2Addr(verCmd, fam, buf[16..16 + len]));
      return Some(io);
    }

    method HeaderV1(have: Bytes) returns (r: Option<PrefixedIo>)
      modifies this
      ensures r.Some? <==> ParseV1(old(View()), have).Some?
      ensures r.Some? ==> fresh(r.value) && r.value.Valid() && r.value.inner == this && r.value.pos == 0
      ensures r.Some? ==> ParseV1(old(View()), have) == Some(Parsed(r.value.addr, r.value.prefix, View()))
    {
      var ok, buf, end := ScanLine(have);
      if !ok { return None; }
      var verdict := V1Verdict(buf[..end]);
      if verdict.None? { return None; }
      var io := new PrefixedIo(this, buf[end + 2..], verdict.value);
      return Some(io);
    }

    /** `read_header`: the address and the object that replays the leftover. */
    method Header() returns (r: Option<PrefixedIo>)
      modifies this
      ensures r.Some? <==> ReadHeader(old(View())).Some?
      ensures r.Some? ==> fresh(r.value) && r.value.Valid() && r.value.inner == this && r.value.pos == 0
      ensures r.Some? ==> ReadHeader(old(View())) == Some(Parsed(r.value.addr, r.value.prefix, View()))
    {
      var ok, buf := FillTo([], 12);
      if !ok { return None; }
      if buf[..12] == SIG_V2 {
        r := HeaderV2(buf);
      } else if buf[..6] == SIG_V1 {
        r := HeaderV1(buf);
      } else {
        r := None;
      }
    }

    /** A plain read of the socket into a buffer with `cap` bytes left. */
    method Poll(cap: nat) returns (out: Bytes)
      modifies this
      ensures out + rest == old(rest) && |out| <= cap && (out == [] ==> cap == 0 || old(rest) == [])
    {
      var n := ReadSize(Src(rest, plan));
      if n > cap { n := cap; }
      out := rest[..n];
      rest, plan := rest[n..], if plan == [] then [] else plan[1..];
    }
  }

  /** The stream handed upstream: the leftover first, then the socket. */
  class PrefixedIo {
    const inner: ByteStream
    const prefix: Bytes
    const addr: Option<Addr>
    var pos: nat

    ghost predicate Valid() reads this { pos <= |prefix| }

    constructor (inner: ByteStream, prefix: Bytes, addr: Option<Addr>)
      ensures Valid() && this.inner == inner && this.prefix == prefix && this.addr == addr && pos == 0
    {
      this.inner, this.prefix, this.addr, pos := inner, prefix, addr, 0;
    }

    /** Everything a reader of this object is still going to see. */
    ghost function Upstream(): Bytes
      requires Valid()
      reads this, inner
    {
      prefix[pos..] + inner.rest
    }

    /** `poll_read`: takes from the front of what is still to be seen, nothing only at the
        end or for a full buffer. */
    method PollRead(cap: nat) returns (out: Bytes)
      requires Valid()
      modifies this, inner
      ensures Valid() && out + Upstream() == old(Upstream()) && |out| <= cap
      ensures out == [] ==> cap == 0 || old(Upstream()) == []
    {
      if pos < |prefix| {
        var n := if |prefix| - pos < cap then |prefix| - pos else cap;
        out := prefix[pos..pos + n];
        pos := pos + n;
        return;
      }
      out := inner.Poll(cap);
    }

    /** Reading to the end with any positive capacities replays exactly what follows the
        header. */
    method ReadToEnd(caps: seq<nat>) returns (out: Bytes)
      requires Valid() && forall i :: 0 <= i < |caps| ==> caps[i] > 0
      modifies this, inner
      ensures Valid() && out == old(Upstream()) && Upstream() == []
    {
      out := [];
      var i := 0;
      while true
        invariant Valid() && out + Upstream() == old(Upstream())
        decreases |Upstream()|
      {
        var chunk := PollRead(if i < |caps| then caps[i] else 1);
        i := i + 1;
        if chunk == [] { break; }
        out := out + chunk;
      }
    }
  }
}
