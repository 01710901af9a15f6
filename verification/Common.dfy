/** Small vocabulary shared by the component models. */
module Common {

  datatype Option<+T> = None | Some(value: T)

  /** Concatenation of a sequence of sequences, in order. */
  function Flatten<T>(parts: seq<seq<T>>): seq<T> {
    if parts == [] then [] else parts[0] + Flatten(parts[1..])
  }

  lemma {:induction false} FlattenAppend<T>(parts: seq<seq<T>>, last: seq<T>)
    ensures Flatten(parts + [last]) == Flatten(parts) + last
  {
    if parts == [] {
      assert parts + [last] == [last];
      assert Flatten([last]) == last + Flatten([]);
    } else {
      FlattenAppend(parts[1..], last);
      assert (parts + [last])[1..] == parts[1..] + [last];
    }
  }

  /** Positions in ascending order. */
  predicate Ascends(idx: seq<nat>) { forall i, j :: 0 <= i < j < |idx| ==> idx[i] < idx[j] }

  lemma {:induction false} AscendsSnoc(idx: seq<nat>, n: nat)
    requires Ascends(idx) && forall k :: 0 <= k < |idx| ==> idx[k] < n
    ensures Ascends(idx + [n]) && forall i: nat :: i in idx + [n] <==> i in idx || i == n
  {}

  predicate NoDuplicates<T(==)>(s: seq<T>) {
    forall i, j :: 0 <= i < j < |s| ==> s[i] != s[j]
  }

  lemma {:induction false} NoDuplicatesApart<T>(a: seq<T>, b: seq<T>)
    requires NoDuplicates(a + b)
    ensures NoDuplicates(b) && forall x :: x in b ==> x !in a
  {
    var s := a + b;
    forall i, j | 0 <= i < j < |b| ensures b[i] != b[j] { assert s[|a| + i] != s[|a| + j]; }
    forall i, j | 0 <= i < |a| && 0 <= j < |b| ensures a[i] != b[j] { assert s[i] != s[|a| + j]; }
  }

  type Byte = n: nat | n < 256

  type Bytes = seq<Byte>

  const U64_MAX: nat := 0xFFFF_FFFF_FFFF_FFFF

  function SaturatingAdd(a: nat, b: nat): nat { if a + b > U64_MAX then U64_MAX else a + b }

  predicate Over(limit: Option<nat>, n: nat) { limit.Some? && n > limit.value }

  const I64_MAX: nat := 0x7FFF_FFFF_FFFF_FFFF

  /** A limit as the JS side passes it on: a signed 64-bit number, or none. */
  type Setting = o: Option<int> | o.Some? ==> -o.value - 1 <= I64_MAX && o.value <= I64_MAX witness None

  /** A negative setting means no limit. */
  function LimitOf(o: Setting): (limit: Option<nat>)
    ensures limit.Some? ==> limit.value <= I64_MAX
  {
    if o.Some? && o.value >= 0 then Some(o.value) else None
  }

  /** The first `n` elements, or all of them if there are fewer. */
  function Prefix<T>(s: seq<T>, n: nat): seq<T> { if n < |s| then s[..n] else s }

  predicate StartsWith(s: string, p: string) { |p| <= |s| && s[..|p|] == p }

  predicate EndsWith(s: string, p: string) { |p| <= |s| && s[|s| - |p|..] == p }

  /** ASCII lower-casing. */
  function LowerChar(c: char): char {
    if 'A' <= c <= 'Z' then c - 'A' + 'a' else c
  }

  function Lower(s: string): (r: string)
    ensures |r| == |s|
    ensures forall i :: 0 <= i < |s| ==> r[i] == if 'A' <= s[i] <= 'Z' then s[i] - 'A' + 'a' else s[i]
  {
    seq(|s|, i requires 0 <= i < |s| => LowerChar(s[i]))
  }

  predicate OccursAt(s: string, t: string, i: nat) { i + |t| <= |s| && s[i..i + |t|] == t }

  lemma {:induction false} DiffersAt(s: string, t: string, i: nat, k: nat)
    requires k < |t| && (i + k < |s| ==> s[i + k] != t[k])
    ensures !OccursAt(s, t, i)
  {
    if i + |t| <= |s| { assert s[i..i + |t|][k] == s[i + k]; }
  }

  predicate Contains(s: string, t: string) { exists i :: 0 <= i <= |s| && OccursAt(s, t, i) }

  lemma {:induction false} NotInEmpty(t: string)
    requires t != ""
    ensures !Contains("", t)
  {}

  /** Containing is being the middle of three pieces. */
  lemma {:induction false} ContainsIff(s: string, t: string)
    ensures Contains(s, t) <==> exists before, after :: s == before + t + after
  {
    if Contains(s, t) {
      var i :| 0 <= i <= |s| && OccursAt(s, t, i);
      assert s == s[..i] + t + s[i + |t|..];
    }
    if before, after :| s == before + t + after {
      assert s[|before|..|before| + |t|] == t;
      assert OccursAt(s, t, |before|);
    }
  }

  lemma {:induction false} StartsWithIff(s: string, p: string)
    ensures StartsWith(s, p) <==> exists rest :: s == p + rest
  {
    if StartsWith(s, p) { assert s == p + s[|p|..]; }
  }

  lemma {:induction false} EndsWithIff(s: string, p: string)
    ensures EndsWith(s, p) <==> exists rest :: s == rest + p
  {
    if EndsWith(s, p) { assert s == s[..|s| - |p|] + p; }
  }
}
