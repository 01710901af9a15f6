/** Route matching and the answers derived from it (src/router.rs, src/server.rs
    `route_and_dispatch`). A route tree is a total lookup from paths to leaves. */
module Routing {
  import opened Common

  type Leaf = int
  type Tree = string -> Option<Leaf>

  /** One tree per method, keyed by its upper-case name, and one for routes declared `ALL`. */
  datatype Routes = Routes(byMethod: map<string, Tree>, all: Option<Tree>)

  datatype Answer =
    | Dispatch(leaf: Leaf, head: bool)   // hand to the leaf's handler; `head`: strip the body
    | NotFoundHandler                    // leaf -1
    | NotFound404
    | Options204(allow: seq<string>)
    | MethodNotAllowed405(allow: seq<string>)

  function MatchRoute(r: Routes, m: string, path: string): Option<Leaf> {
    if m in r.byMethod && r.byMethod[m](path).Some? then r.byMethod[m](path)
    else if r.all.Some? then r.all.value(path)
    else None
  }

  const STANDARD := ["GET", "POST", "PUT", "PATCH", "DELETE", "QUERY"]

  /** Lexicographic order of the method names, as `sort` uses it. */
  predicate Less(a: string, b: string) {
    if b == "" then false else if a == "" then true
    else a[0] < b[0] || (a[0] == b[0] && Less(a[1..], b[1..]))
  }

  /** Sorted and free of duplicates. */
  predicate Ascending(s: seq<string>) { forall i, j :: 0 <= i < j < |s| ==> Less(s[i], s[j]) }

  function AsSet(s: seq<string>): set<string> { set i | 0 <= i < |s| :: s[i] }

  /** The methods a path exists under, before sorting. */
  function Existing(r: Routes, path: string): set<string> {
    (set m | m in r.byMethod && r.byMethod[m](path).Some?)
    + if r.all.Some? && r.all.value(path).Some? then AsSet(STANDARD) else {}
  }

  /** The answer to a missing match: `HEAD` comes with `GET`, `OPTIONS` always. */
  function Allowed(r: Routes, path: string): set<string> {
    var e := Existing(r, path);
    if e == {} then {} else e + (if "GET" in e then {"HEAD"} else {}) + {"OPTIONS"}
  }

  lemma {:induction false} LessTrichotomy(a: string, b: string)
    ensures !(Less(a, b) && Less(b, a)) && !Less(a, a) && (a == b || Less(a, b) || Less(b, a))
  {
    if a != "" && b != "" {
      LessTrichotomy(a[1..], b[1..]);
      if a[0] == b[0] && a[1..] == b[1..] { assert a == [a[0]] + a[1..] && b == [b[0]] + b[1..]; }
    }
    if a != "" { LessTrichotomy(a[1..], a[1..]); }
  }

  lemma {:induction false} LessTransitive(a: string, b: string, c: string)
    requires Less(a, b) && Less(b, c)
    ensures Less(a, c)
  {
    if a != "" && a[0] == b[0] && b[0] == c[0] { LessTransitive(a[1..], b[1..], c[1..]); }
  }

  /** `sort`, by insertion; the input has no duplicates. */
  method Sort(items: seq<string>) returns (out: seq<string>)
    requires NoDuplicates(items)
    ensures Ascending(out) && AsSet(out) == AsSet(items) && |out| == |items|
  {
    out := [];
    var n := 0;
    while n < |items|
      invariant n <= |items| && |out| == n && Ascending(out) && AsSet(out) == AsSet(items[..n])
    {
      var x := items[n];
      assert x !in AsSet(out);
      var k := 0;
      while k < |out| && Less(out[k], x)
        invariant k <= |out| && forall i :: 0 <= i < k ==> Less(out[i], x)
      {
        k := k + 1;
      }
      InsertAscending(out, k, x);
      ghost var before := out;
      out := out[..k] + [x] + out[k..];
      AsSetInsert(before, k, x);
      assert items[..n + 1] == items[..n] + [x];
      AsSetInsert(items[..n], n, x);
      assert items[..n][..n] + [x] + items[..n][n..] == items[..n + 1];
      n := n + 1;
    }
    assert items[..n] == items;
  }

  lemma {:induction false} AsSetInsert(s: seq<string>, k: nat, x: string)
    requires k <= |s|
    ensures AsSet(s[..k] + [x] + s[k..]) == AsSet(s) + {x}
  {
    var t := s[..k] + [x] + s[k..];
    forall y ensures y in AsSet(t) <==> y in AsSet(s) + {x} {
      if y in AsSet(s) {
        var i :| 0 <= i < |s| && s[i] == y;
        assert t[if i < k then i else i + 1] == y;
      }
      if y == x { assert t[k] == y; }
      if y in AsSet(t) {
        var i :| 0 <= i < |t| && t[i] == y;
        assert i == k || s[if i < k then i else i - 1] == y;
      }
    }
  }

  lemma {:induction false} InsertAscending(s: seq<string>, k: nat, x: string)
    requires Ascending(s) && k <= |s| && x !in AsSet(s)
    requires forall i :: 0 <= i < k ==> Less(s[i], x)
    requires k < |s| ==> !Less(s[k], x)
    ensures Ascending(s[..k] + [x] + s[k..])
  {
    var t := s[..k] + [x] + s[k..];
    forall i | k <= i < |s| ensures Less(x, s[i]) {
      LessTrichotomy(x, s[k]);
      assert s[k] in AsSet(s);
      if k < i { LessTransitive(x, s[k], s[i]); }
    }
    forall i, j | 0 <= i < j < |t| ensures Less(t[i], t[j]) {
      if i == k {
        assert t[j] == s[j - 1];
      } else if j == k {
        assert t[i] == s[i];
      } else {
        assert t[i] == s[if i < k then i else i - 1] && t[j] == s[if j < k then j else j - 1];
      }
    }
  }

  /** `allowed_methods`: whatever order the map is walked in (`order`), the result is the
      ascending list of the allowed set. */
  method AllowedMethods(r: Routes, path: string, order: seq<string>) returns (methods: seq<string>)
    requires NoDuplicates(order) && AsSet(order) == r.byMethod.Keys
    ensures Ascending(methods) && AsSet(methods) == Allowed(r, path)
  {
    methods := [];
    for i := 0 to |order|
      invariant NoDuplicates(methods)
      invariant AsSet(methods) == set m | m in AsSet(order[..i]) && r.byMethod[m](path).Some?
    {
      assert order[i] in AsSet(order);
      assert order[..i + 1] == order[..i] + [order[i]];
      assert order[i] !in AsSet(order[..i]);
      AsSetInsert(order[..i], i, order[i]);
      assert order[..i][..i] + [order[i]] + order[..i][i..] == order[..i + 1];
      if r.byMethod[order[i]](path).Some? {
        methods := AddMissing(methods, order[i]);
      }
    }
    assert order[..|order|] == order;
    if r.all.Some? && r.all.value(path).Some? {
      methods := AddStandard(methods);
    }
    StandardIs();
    assert AsSet(methods) == Existing(r, path);
    if methods == [] { return; }
    assert methods[0] in AsSet(methods);
    if "GET" in methods { methods := AddMissing(methods, "HEAD"); }
    methods := AddMissing(methods, "OPTIONS");
    methods := Sort(methods);
  }

  lemma {:induction false} StandardIs()
    ensures AsSet(STANDARD) == {"GET", "POST", "PUT", "PATCH", "DELETE", "QUERY"}
  {
    assert STANDARD[0] == "GET" && STANDARD[1] == "POST" && STANDARD[2] == "PUT";
    assert STANDARD[3] == "PATCH" && STANDARD[4] == "DELETE" && STANDARD[5] == "QUERY";
  }

  /** A matching `ALL` route stands for every standard method. */
  method AddStandard(methods: seq<string>) returns (out: seq<string>)
    requires NoDuplicates(methods)
    ensures NoDuplicates(out) && AsSet(out) == AsSet(methods) + {"GET", "POST", "PUT", "PATCH", "DELETE", "QUERY"}
  {
    StandardIs();
    out := methods;
    for i := 0 to |STANDARD|
      invariant NoDuplicates(out) && AsSet(out) == AsSet(methods) + AsSet(STANDARD[..i])
    {
      assert STANDARD[..i][..i] + [STANDARD[i]] + STANDARD[..i][i..] == STANDARD[..i + 1];
      AsSetInsert(STANDARD[..i], i, STANDARD[i]);
      out := AddMissing(out, STANDARD[i]);
    }
    assert STANDARD[..|STANDARD|] == STANDARD;
  }

  method AddMissing(methods: seq<string>, m: string) returns (out: seq<string>)
    requires NoDuplicates(methods)
    ensures NoDuplicates(out) && AsSet(out) == AsSet(methods) + {m}
  {
    out := methods;
    if m !in methods {
      AsSetInsert(methods, |methods|, m);
      assert methods[..|methods|] + [m] + methods[|methods|..] == methods + [m];
      out := methods + [m];
    }
  }

  /** Ascending lists are determined by their elements: iteration order cannot show. */
  lemma {:induction false} AscendingUnique(s: seq<string>, t: seq<string>)
    requires Ascending(s) && Ascending(t) && AsSet(s) == AsSet(t)
    ensures s == t
  {
    assert t != [] ==> t[0] in AsSet(t);
    if s != [] {
      assert s[0] in AsSet(t);
      assert t != [] && t[0] in AsSet(s);
      LessTrichotomy(s[0], t[0]);
      assert s[0] == t[0];
      forall x ensures x in AsSet(s[1..]) <==> x in AsSet(t[1..]) {
        TailSet(s, x);
        TailSet(t, x);
      }
      AscendingUnique(s[1..], t[1..]);
    }
  }

  lemma {:induction false} TailSet(s: seq<string>, x: string)
    requires Ascending(s) && s != []
    ensures x in AsSet(s[1..]) <==> x in AsSet(s) && x != s[0]
  {
    if x in AsSet(s[1..]) {
      var i :| 0 <= i < |s[1..]| && s[1..][i] == x;
      assert s[i + 1] == x;
      LessTrichotomy(s[0], x);
    }
    if x in AsSet(s) && x != s[0] {
      var i :| 0 <= i < |s| && s[i] == x;
      assert s[1..][i - 1] == x;
    }
  }

  /** Some method is routed on this path. */
  ghost predicate PathExists(r: Routes, path: string) { exists m :: MatchRoute(r, m, path).Some? }

  /** A request with this method would be answered 405. */
  ghost predicate Refused(r: Routes, m: string, path: string) {
    && MatchRoute(r, m, path).None? && (m == "HEAD" ==> MatchRoute(r, "GET", path).None?)
    && PathExists(r, path) && m != "OPTIONS"
  }

  /** The list is sorted, free of duplicates, and names exactly the methods that would not be
      refused on this path. */
  ghost predicate ExactAllow(r: Routes, path: string, allow: seq<string>) {
    Ascending(allow) && forall m :: m in allow <==> !Refused(r, m, path)
  }

  ghost predicate Answers(r: Routes, m: string, path: string, hasNotFound: bool, a: Answer) {
    match a
    case Dispatch(leaf, head) =>
      if head then m == "HEAD" && MatchRoute(r, m, path).None? && MatchRoute(r, "GET", path) == Some(leaf)
      else MatchRoute(r, m, path) == Some(leaf)
    case NotFoundHandler => hasNotFound && !PathExists(r, path)
    case NotFound404 => !hasNotFound && !PathExists(r, path)
    case Options204(allow) =>
      m == "OPTIONS" && MatchRoute(r, m, path).None? && PathExists(r, path) && ExactAllow(r, path, allow)
    case MethodNotAllowed405(allow) => Refused(r, m, path) && ExactAllow(r, path, allow)
  }

  lemma {:induction false} AllowedNonEmpty(r: Routes, path: string)
    ensures Allowed(r, path) != {} <==> PathExists(r, path)
  {
    if Existing(r, path) != {} {
      if r.all.Some? && r.all.value(path).Some? {
        assert MatchRoute(r, "GET", path).Some?;
      } else {
        var m :| m in Existing(r, path);
        assert MatchRoute(r, m, path).Some?;
      }
      assert "OPTIONS" in Allowed(r, path);
    }
    if PathExists(r, path) {
      var m :| MatchRoute(r, m, path).Some?;
      assert STANDARD[0] in AsSet(STANDARD);
      assert m in Existing(r, path) || STANDARD[0] in Existing(r, path);
    }
  }

  /** `Allow` is exact wherever it is shown: a path with an `ALL` route never gets that far. */
  lemma {:induction false} AllowIsExact(r: Routes, asked: string, path: string, allow: seq<string>)
    requires MatchRoute(r, asked, path).None? && PathExists(r, path)
    requires Ascending(allow) && AsSet(allow) == Allowed(r, path)
    ensures ExactAllow(r, path, allow)
  {
    AllowedNonEmpty(r, path);
    forall m ensures m in allow <==> !Refused(r, m, path) {
      assert m in allow <==> m in AsSet(allow);
      assert m in Existing(r, path) <==> MatchRoute(r, m, path).Some?;
      assert "GET" in Existing(r, path) <==> MatchRoute(r, "GET", path).Some?;
    }
  }

  /** The branch cascade of `route_and_dispatch`; `order` is the walk over the map. */
  method RouteAndDispatch(r: Routes, m: string, path: string, hasNotFound: bool, order: seq<string>) returns (a: Answer)
    requires NoDuplicates(order) && AsSet(order) == r.byMethod.Keys
    ensures Answers(r, m, path, hasNotFound, a)
  {
    var direct := MatchRoute(r, m, path);
    if direct.Some? { return Dispatch(direct.value, false); }
    if m == "HEAD" {
      var get := MatchRoute(r, "GET", path);
      if get.Some? { return Dispatch(get.value, true); }
    }
    var allowed := AllowedMethods(r, path, order);
    AllowedNonEmpty(r, path);
    if allowed == [] {
      return if hasNotFound then NotFoundHandler else NotFound404;
    }
    assert allowed[0] in AsSet(allowed);
    AllowIsExact(r, m, path, allowed);
    return if m == "OPTIONS" then Options204(allowed) else MethodNotAllowed405(allowed);
  }

  ghost predicate OwnTree(r: Routes, m: string, path: string) { m in r.byMethod && r.byMethod[m](path).Some? }

  ghost predicate AllTree(r: Routes, path: string) { r.all.Some? && r.all.value(path).Some? }

  /** The cascade in terms of the trees: the tree of the method itself comes first, then the
      `ALL` routes, then GET for HEAD; else the path is unknown, or it is asked for with the
      wrong method. */
  lemma {:induction false} AnswerIs(r: Routes, m: string, path: string, hasNotFound: bool, a: Answer)
    requires Answers(r, m, path, hasNotFound, a)
    ensures
      if OwnTree(r, m, path) then a == Dispatch(r.byMethod[m](path).value, false)
      else if AllTree(r, path) then a == Dispatch(r.all.value(path).value, false)
      else if m == "HEAD" && OwnTree(r, "GET", path) then a == Dispatch(r.byMethod["GET"](path).value, true)
      else if forall n :: !OwnTree(r, n, path) then a == if hasNotFound then NotFoundHandler else NotFound404
      else if m == "OPTIONS" then a.Options204? else a.MethodNotAllowed405?
  {
    assert forall n :: MatchRoute(r, n, path).Some? <==> OwnTree(r, n, path) || AllTree(r, path);
    if n :| OwnTree(r, n, path) { assert MatchRoute(r, n, path).Some?; }
  }

  /** And the list shown then: the methods whose trees match the path, HEAD with GET, and
      OPTIONS. */
  lemma {:induction false} AllowIs(r: Routes, m: string, path: string, hasNotFound: bool, a: Answer)
    requires Answers(r, m, path, hasNotFound, a) && (a.Options204? || a.MethodNotAllowed405?)
    ensures forall n :: n in a.allow <==>
      OwnTree(r, n, path) || (n == "HEAD" && OwnTree(r, "GET", path)) || n == "OPTIONS"
  {
    assert AllTree(r, path) ==> MatchRoute(r, m, path).Some?;
    assert forall n :: MatchRoute(r, n, path).Some? <==> OwnTree(r, n, path);
    assert PathExists(r, path);
  }

  /** The order of the list is lexicographic by character code. */
  lemma {:induction false} LessIff(a: string, b: string)
    ensures Less(a, b) <==>
      exists n: nat :: n <= |a| && n < |b| && a[..n] == b[..n] && (n == |a| || a[n] < b[n])
  {
    if Less(a, b) {
      if a == "" || a[0] < b[0] {
        assert a[..0] == b[..0];
      } else {
        LessIff(a[1..], b[1..]);
        var n: nat :| n <= |a[1..]| && n < |b[1..]| && a[1..][..n] == b[1..][..n]
          && (n == |a[1..]| || a[1..][n] < b[1..][n]);
        assert a[..n + 1] == [a[0]] + a[1..][..n] && b[..n + 1] == [b[0]] + b[1..][..n];
      }
    }
    if n: nat :| n <= |a| && n < |b| && a[..n] == b[..n] && (n == |a| || a[n] < b[n]) {
      if n > 0 {
        assert a[0] == a[..n][0] && b[0] == b[..n][0];
        assert a[1..][..n - 1] == a[..n][1..] && b[1..][..n - 1] == b[..n][1..];
        LessIff(a[1..], b[1..]);
      }
    }
  }

  /** The cascade leaves no choice: equal requests get equal answers, whatever the map order. */
  lemma {:induction false} AnswerUnique(r: Routes, m: string, path: string, hasNotFound: bool, a: Answer, b: Answer)
    requires Answers(r, m, path, hasNotFound, a) && Answers(r, m, path, hasNotFound, b)
    ensures a == b
  {
    if (a.Options204? || a.MethodNotAllowed405?) && (b.Options204? || b.MethodNotAllowed405?) {
      assert AsSet(a.allow) == AsSet(b.allow) by {
        forall x ensures x in AsSet(a.allow) <==> x in AsSet(b.allow) {
          assert x in AsSet(a.allow) <==> x in a.allow;
          assert x in AsSet(b.allow) <==> x in b.allow;
        }
      }
      AscendingUnique(a.allow, b.allow);
    }
  }
}
