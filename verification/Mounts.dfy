/** Sub-app mounting (js/index.ts `route`, `#applyMounts`): servers refer to each other, are
    folded in place, may be shared and may form cycles. */
module Mounts {
  import opened Common
  import opened Scopes

  /** What a server has registered: routes, and middleware or hooks (`stage`) with a scope.
      One list stands for the per-kind lists; each kind keeps its own order in it. */
  datatype Item = Route(path: string, handler: nat) | Scoped(prefix: string, stage: nat, fn: nat)

  datatype Mount = Mount(prefix: string, sub: nat)

  datatype App = App(mounted: seq<Mount>, items: seq<Item>)

  /** All servers, referred to by position. */
  type World = seq<App>

  /** Mounts point to servers, and none to the server itself: `route` refuses that. */
  ghost predicate Closed(w: World) {
    forall i, k :: 0 <= i < |w| && 0 <= k < |w[i].mounted| ==> w[i].mounted[k].sub < |w| && w[i].mounted[k].sub != i
  }

  ghost predicate Targets(ms: seq<Mount>, i: nat, n: nat) {
    forall k :: 0 <= k < |ms| ==> ms[k].sub < n && ms[k].sub != i
  }

  function Lift(mount: string, x: Item): Item {
    match x
    case Route(p, h) => Route(Join(mount, p), h)
    case Scoped(s, st, f) => Scoped(Remap(mount, s), st, f)
  }

  function LiftAll(mount: string, xs: seq<Item>): seq<Item> {
    if xs == [] then [] else LiftAll(mount, xs[..|xs| - 1]) + [Lift(mount, xs[|xs| - 1])]
  }

  function Unfolded(w: World): nat { if w == [] then 0 else Unfolded(w[..|w| - 1]) + |w[|w| - 1].mounted| }

  lemma {:induction false} UnfoldedUpdate(w: World, i: nat, a: App)
    requires i < |w|
    ensures Unfolded(w[i := a]) == Unfolded(w) - |w[i].mounted| + |a.mounted|
  {
    var n := |w| - 1;
    if i == n {
      assert w[i := a][..n] == w[..n];
    } else {
      assert w[i := a][..n] == w[..n][i := a];
      UnfoldedUpdate(w[..n], i, a);
    }
  }

  function Cleared(w: World, i: nat): (w': World)
    requires i < |w|
    ensures |w'| == |w| && Unfolded(w') + |w[i].mounted| == Unfolded(w)
  {
    UnfoldedUpdate(w, i, w[i].(mounted := []));
    w[i := w[i].(mounted := [])]
  }

  function Absorb(w: World, i: nat, m: Mount): (w': World)
    requires i < |w| && m.sub < |w|
    ensures |w'| == |w| && Unfolded(w') == Unfolded(w)
  {
    var a := w[i].(items := w[i].items + LiftAll(m.prefix, w[m.sub].items));
    UnfoldedUpdate(w, i, a);
    w[i := a]
  }

  /** Folding only ever empties mount lists and appends items. */
  ghost predicate Grows(w: World, w': World) {
    && |w'| == |w|
    && forall j :: 0 <= j < |w| ==>
         (w'[j].mounted == w[j].mounted || w'[j].mounted == []) && w[j].items <= w'[j].items
  }

  /** `#applyMounts` of server `i`. The count of unfolded mount records bounds the recursion
      on every graph, cycles included. */
  function Fold(w: World, i: nat): (w': World)
    requires Closed(w) && i < |w|
    ensures Closed(w') && Unfolded(w') <= Unfolded(w) && Grows(w, w') && w'[i].mounted == []
    decreases Unfolded(w), 1
  {
    FoldMounts(Cleared(w, i), i, w[i].mounted)
  }

  function FoldMounts(w: World, i: nat, ms: seq<Mount>): (w': World)
    requires Closed(w) && i < |w| && Targets(ms, i, |w|)
    ensures Closed(w') && Unfolded(w') <= Unfolded(w) && Grows(w, w')
    decreases Unfolded(w) + |ms|, 0
  {
    if ms == [] then w else FoldMounts(Absorb(Fold(w, ms[0].sub), i, ms[0]), i, ms[1..])
  }

  /** One round of the loop over the mounts. */
  lemma {:induction false} FoldRound(w: World, i: nat, ms: seq<Mount>, k: nat)
    requires Closed(w) && i < |w| && Targets(ms, i, |w|) && k < |ms|
    ensures var w' := Absorb(Fold(w, ms[k].sub), i, ms[k]);
      && |w'| == |w| && Closed(w') && Unfolded(w') <= Unfolded(w)
      && FoldMounts(w, i, ms[k..]) == FoldMounts(w', i, ms[k + 1..])
  {
    assert ms[k..][1..] == ms[k + 1..];
  }

  /** Repeating it adds nothing. */
  lemma {:induction false} FoldIdempotent(w: World, i: nat)
    requires Closed(w) && i < |w|
    ensures Fold(Fold(w, i), i) == Fold(w, i)
  {
    var w' := Fold(w, i);
    assert Cleared(w', i) == w';
  }

  // ---- the meaning of acyclic mounts ----

  /** A rank that falls along every mount: the graph has no cycle. */
  ghost predicate Ranked(w: World, rank: seq<nat>) {
    && |rank| == |w|
    && forall i, k :: 0 <= i < |w| && 0 <= k < |w[i].mounted| ==>
         w[i].mounted[k].sub < |w| && rank[w[i].mounted[k].sub] < rank[i]
  }

  ghost predicate Below(ms: seq<Mount>, rank: seq<nat>, bound: nat) {
    forall k :: 0 <= k < |ms| ==> ms[k].sub < |rank| && rank[ms[k].sub] < bound
  }

  /** What server `i` means: its own items, then everything each mounted server means, under
      the mount prefix. No sharing and no state. */
  ghost function Flat(w: World, rank: seq<nat>, i: nat): seq<Item>
    requires Ranked(w, rank) && i < |w|
    decreases rank[i], |w[i].mounted| + 1
  {
    w[i].items + FlatMounts(w, rank, w[i].mounted, rank[i])
  }

  ghost function FlatMounts(w: World, rank: seq<nat>, ms: seq<Mount>, bound: nat): seq<Item>
    requires Ranked(w, rank) && Below(ms, rank, bound)
    decreases bound, |ms|
  {
    if ms == [] then []
    else LiftAll(ms[0].prefix, Flat(w, rank, ms[0].sub)) + FlatMounts(w, rank, ms[1..], bound)
  }

  /** Two worlds in which the servers of rank below `bound` mean the same. */
  ghost predicate SameBelow(w: World, w': World, rank: seq<nat>, bound: nat) {
    && Ranked(w, rank) && Ranked(w', rank)
    && forall j :: 0 <= j < |w| && rank[j] < bound ==> Flat(w', rank, j) == Flat(w, rank, j)
  }

  lemma {:induction false} FlatMountsSame(w: World, w': World, rank: seq<nat>, ms: seq<Mount>, bound: nat)
    requires SameBelow(w, w', rank, bound) && Below(ms, rank, bound)
    ensures FlatMounts(w', rank, ms, bound) == FlatMounts(w, rank, ms, bound)
    decreases |ms|
  {
    if ms != [] { FlatMountsSame(w, w', rank, ms[1..], bound); }
  }

  /** Where each server is unchanged or means the same, all servers mean the same. */
  lemma {:induction false} FlatSame(w: World, w': World, rank: seq<nat>, j: nat)
    requires Ranked(w, rank) && Ranked(w', rank) && j < |w|
    requires forall k :: 0 <= k < |w| && rank[k] <= rank[j] ==> w'[k] == w[k] || Flat(w', rank, k) == Flat(w, rank, k)
    ensures Flat(w', rank, j) == Flat(w, rank, j)
    decreases rank[j]
  {
    if w'[j] == w[j] {
      forall k | 0 <= k < |w| && rank[k] < rank[j] ensures Flat(w', rank, k) == Flat(w, rank, k) {
        FlatSame(w, w', rank, k);
      }
      FlatMountsSame(w, w', rank, w[j].mounted, rank[j]);
    }
  }

  lemma {:induction false} ClearedRanked(w: World, rank: seq<nat>, i: nat)
    requires Ranked(w, rank) && i < |w|
    ensures Ranked(Cleared(w, i), rank) && SameBelow(w, Cleared(w, i), rank, rank[i])
  {
    var w' := Cleared(w, i);
    assert Ranked(w', rank);
    forall j | 0 <= j < |w| && rank[j] < rank[i] ensures Flat(w', rank, j) == Flat(w, rank, j) {
      FlatSame(w, w', rank, j);
    }
  }

  lemma {:induction false} AbsorbRanked(w: World, rank: seq<nat>, i: nat, m: Mount)
    requires Ranked(w, rank) && i < |w| && m.sub < |w|
    ensures Ranked(Absorb(w, i, m), rank) && SameBelow(w, Absorb(w, i, m), rank, rank[i])
  {
    var w' := Absorb(w, i, m);
    assert Ranked(w', rank);
    forall j | 0 <= j < |w| && rank[j] < rank[i] ensures Flat(w', rank, j) == Flat(w, rank, j) {
      FlatSame(w, w', rank, j);
    }
  }

  /** Servers other than `i` of its rank or above are left alone. */
  ghost predicate Untouched(w: World, w': World, rank: seq<nat>, i: nat)
    requires |w| == |w'| == |rank| && i < |w|
  {
    forall j :: 0 <= j < |w| && j != i && rank[j] >= rank[i] ==> w'[j] == w[j]
  }

  /** One mount: `w1` is `w` with the mounted server folded, which is then absorbed. */
  lemma {:induction false} AbsorbMeans(w: World, w1: World, rank: seq<nat>, i: nat, m: Mount)
    requires Ranked(w, rank) && Ranked(w1, rank) && i < |w| && m.sub < |w| && w1[i] == w[i]
    requires w1[m.sub].items == Flat(w, rank, m.sub) && SameBelow(w, w1, rank, rank[i])
    ensures var w2 := Absorb(w1, i, m);
      && SameBelow(w, w2, rank, rank[i]) && Untouched(w1, w2, rank, i)
      && w2[i] == w[i].(items := w[i].items + LiftAll(m.prefix, Flat(w, rank, m.sub)))
  {
    AbsorbRanked(w1, rank, i, m);
    var w2 := Absorb(w1, i, m);
    forall j | 0 <= j < |w| && rank[j] < rank[i] ensures Flat(w2, rank, j) == Flat(w, rank, j) {
      assert Flat(w2, rank, j) == Flat(w1, rank, j);
    }
  }

  lemma {:induction false} SameBelowTransitive(w: World, w1: World, w2: World, rank: seq<nat>, bound: nat)
    requires SameBelow(w, w1, rank, bound) && SameBelow(w1, w2, rank, bound)
    ensures SameBelow(w, w2, rank, bound)
  {
    forall j | 0 <= j < |w| && rank[j] < bound ensures Flat(w2, rank, j) == Flat(w, rank, j) {
      assert Flat(w2, rank, j) == Flat(w1, rank, j);
    }
  }

  ghost predicate FoldsMounts(w: World, w': World, rank: seq<nat>, i: nat, ms: seq<Mount>) {
    && i < |w| == |rank| && SameBelow(w, w', rank, rank[i]) && Untouched(w, w', rank, i) && Below(ms, rank, rank[i])
    && w'[i] == App([], w[i].items + FlatMounts(w, rank, ms, rank[i]))
  }

  lemma {:induction false} FoldsMountsCons(w: World, w2: World, w': World, rank: seq<nat>, i: nat, ms: seq<Mount>)
    requires ms != [] && i < |w| == |rank| && Below(ms, rank, rank[i]) && w[i].mounted == []
    requires SameBelow(w, w2, rank, rank[i]) && Untouched(w, w2, rank, i)
    requires w2[i] == w[i].(items := w[i].items + LiftAll(ms[0].prefix, Flat(w, rank, ms[0].sub)))
    requires FoldsMounts(w2, w', rank, i, ms[1..])
    ensures FoldsMounts(w, w', rank, i, ms)
  {
    assert SameBelow(w, w', rank, rank[i]) by { SameBelowTransitive(w, w2, w', rank, rank[i]); }
    assert w'[i].items == w[i].items + FlatMounts(w, rank, ms, rank[i]) by {
      FlatMountsSame(w, w2, rank, ms[1..], rank[i]);
      AppendAssoc(w[i].items, LiftAll(ms[0].prefix, Flat(w, rank, ms[0].sub)), FlatMounts(w, rank, ms[1..], rank[i]));
    }
  }

  lemma {:induction false} AppendAssoc(a: seq<Item>, b: seq<Item>, c: seq<Item>)
    ensures (a + b) + c == a + (b + c)
  {}

  /** Folding a list of mounts into `i` appends what the mounted servers mean. */
  lemma {:induction false} FoldMountsMeans(w: World, rank: seq<nat>, i: nat, ms: seq<Mount>)
    requires Closed(w) && Ranked(w, rank) && i < |w| && Targets(ms, i, |w|) && Below(ms, rank, rank[i])
    requires w[i].mounted == []
    ensures FoldsMounts(w, FoldMounts(w, i, ms), rank, i, ms)
    decreases Unfolded(w) + |ms|, 0
  {
    if ms == [] {
      assert w[i].items + [] == w[i].items;
    } else {
      var w1 := Fold(w, ms[0].sub);
      FoldMeans(w, rank, ms[0].sub);
      var w2 := Absorb(w1, i, ms[0]);
      AbsorbMeans(w, w1, rank, i, ms[0]);
      FoldMountsMeans(w2, rank, i, ms[1..]);
      FoldsMountsCons(w, w2, FoldMounts(w2, i, ms[1..]), rank, i, ms);
    }
  }

  /** The in-place, shared, destructive fold computes exactly the flattened meaning, and
      changes the meaning of no server. */
  lemma {:induction false} FoldMeans(w: World, rank: seq<nat>, i: nat)
    requires Closed(w) && Ranked(w, rank) && i < |w|
    ensures var w' := Fold(w, i);
      && Ranked(w', rank) && Untouched(w, w', rank, i)
      && w'[i] == App([], Flat(w, rank, i))
      && forall j :: 0 <= j < |w| ==> Flat(w', rank, j) == Flat(w, rank, j)
    decreases Unfolded(w), 1
  {
    var w0 := Cleared(w, i);
    ClearedRanked(w, rank, i);
    FoldMountsMeans(w0, rank, i, w[i].mounted);
    FlatMountsSame(w, w0, rank, w[i].mounted, rank[i]);
    var w' := Fold(w, i);
    assert w'[i] == App([], Flat(w, rank, i));
    SameBelowTransitive(w, w0, w', rank, rank[i]);
    forall j | 0 <= j < |w| ensures Flat(w', rank, j) == Flat(w, rank, j) {
      MeaningKept(w, w', rank, i, j);
    }
  }

  lemma {:induction false} MeaningKept(w: World, w': World, rank: seq<nat>, i: nat, j: nat)
    requires Ranked(w, rank) && i < |w| && j < |w| && SameBelow(w, w', rank, rank[i]) && Untouched(w, w', rank, i)
    requires w'[i] == App([], Flat(w, rank, i))
    ensures Flat(w', rank, j) == Flat(w, rank, j)
  {
    assert Flat(w', rank, i) == Flat(w, rank, i) + [];
    FlatSame(w, w', rank, j);
  }

  /** The servers as mutable objects: `#applyMounts` in its own form. */
  class Registry {
    var apps: World

    constructor (apps: World)
      ensures this.apps == apps
    {
      this.apps := apps;
    }

    method ApplyMounts(i: nat)
      requires Closed(apps) && i < |apps|
      modifies this
      ensures apps == Fold(old(apps), i)
      decreases Unfolded(apps)
    {
      var mounts := apps[i].mounted;
      apps := Cleared(apps, i); // before any recursion: this is what the termination measure counts
      var k := 0;
      while k < |mounts|
        invariant k <= |mounts| && i < |apps| && Closed(apps) && Targets(mounts, i, |apps|)
        invariant Unfolded(apps) + |mounts| <= Unfolded(old(apps))
        invariant FoldMounts(apps, i, mounts[k..]) == Fold(old(apps), i)
      {
        FoldRound(apps, i, mounts, k);
        ApplyMounts(mounts[k].sub);
        apps := Absorb(apps, i, mounts[k]);
        k := k + 1;
      }
    }
  }

  // ---- chains ----

  /** `buildChain` for one stage: what runs for a route at `path`, in order. */
  function Chain(items: seq<Item>, path: string, stage: nat): seq<nat> {
    if items == [] then []
    else
      var x := items[|items| - 1];
      Chain(items[..|items| - 1], path, stage)
      + if x.Scoped? && x.stage == stage && PrefixMatches(x.prefix, path) then [x.fn] else []
  }

  /** No scope is `/` itself, and everything else begins with a slash. */
  predicate Sound(items: seq<Item>) {
    forall k :: 0 <= k < |items| ==>
      match items[k]
      case Route(p, _) => StartsWith(p, "/")
      case Scoped(s, _, _) => s == "" || (StartsWith(s, "/") && s != "/")
  }

  /** What a chain runs: exactly the functions registered for the stage under a scope that is
      empty, the path itself or a whole-segment prefix of it, each as often as registered and
      in the order of registration, at the positions `idx`. */
  lemma {:induction false} ChainSelects(items: seq<Item>, path: string, stage: nat) returns (idx: seq<nat>)
    ensures |idx| == |Chain(items, path, stage)| && Ascends(idx)
    ensures forall k :: 0 <= k < |idx| ==>
      idx[k] < |items| && items[idx[k]].Scoped? && Chain(items, path, stage)[k] == items[idx[k]].fn
    ensures forall i: nat :: i in idx <==>
      && i < |items| && items[i].Scoped? && items[i].stage == stage
      && (items[i].prefix == "" || path == items[i].prefix
          || exists rest :: path == items[i].prefix + "/" + rest)
  {
    idx := [];
    var n := 0;
    while n < |items|
      invariant n <= |items| && |idx| == |Chain(items[..n], path, stage)| && Ascends(idx)
      invariant forall k :: 0 <= k < |idx| ==>
        idx[k] < n && items[idx[k]].Scoped? && Chain(items[..n], path, stage)[k] == items[idx[k]].fn
      invariant forall i: nat :: i in idx <==> i < n && Applies(items[i], path, stage)
    {
      assert items[..n + 1][..n] == items[..n];
      AppliesIff(items[n], path, stage);
      AscendsSnoc(idx, n);
      if Applies(items[n], path, stage) { idx := idx + [n]; }
      n := n + 1;
    }
    assert items[..n] == items;
  }

  /** Item `x` takes part in the chain for `path`. */
  ghost predicate Applies(x: Item, path: string, stage: nat) {
    && x.Scoped? && x.stage == stage
    && (x.prefix == "" || path == x.prefix || exists rest :: path == x.prefix + "/" + rest)
  }

  lemma {:induction false} AppliesIff(x: Item, path: string, stage: nat)
    ensures Applies(x, path, stage) <==> x.Scoped? && x.stage == stage && PrefixMatches(x.prefix, path)
  {
    if x.Scoped? {
      StartsWithIff(path, x.prefix + "/");
      if rest :| path == x.prefix + "/" + rest { assert path == (x.prefix + "/") + rest; }
      if rest :| path == (x.prefix + "/") + rest { assert path == x.prefix + "/" + rest; }
    }
  }

  /** Mounting rewrites paths and scopes only: handlers, stages and functions stay, one for one
      and in order. */
  lemma {:induction false} LiftAllAt(mount: string, items: seq<Item>, k: nat)
    requires k < |items|
    ensures |LiftAll(mount, items)| == |items|
    ensures LiftAll(mount, items)[k] ==
      match items[k]
      case Route(p, h) => Route(Join(mount, p), h)
      case Scoped(s, st, f) => Scoped(if s == "" then mount else Join(mount, s), st, f)
  {
    var n := |items| - 1;
    if n > 0 { LiftAllAt(mount, items[..n], if k < n then k else 0); }
  }

  lemma {:induction false} LiftPreservesChain(mount: string, items: seq<Item>, path: string, stage: nat)
    requires mount != "" && Sound(items) && StartsWith(path, "/")
    ensures Chain(LiftAll(mount, items), Join(mount, path), stage) == Chain(items, path, stage)
  {
    if items != [] {
      var n := |items| - 1;
      LiftPreservesChain(mount, items[..n], path, stage);
      var lifted := LiftAll(mount, items);
      assert lifted[..|lifted| - 1] == LiftAll(mount, items[..n]);
      if items[n].Scoped? { MountPreservesScopeIff(mount, items[n].prefix, path); }
    }
  }

  lemma {:induction false} ChainConcat(a: seq<Item>, b: seq<Item>, path: string, stage: nat)
    ensures Chain(a + b, path, stage) == Chain(a, path, stage) + Chain(b, path, stage)
  {
    if b == [] {
      assert a + b == a;
    } else {
      assert (a + b)[..|a + b| - 1] == a + b[..|b| - 1];
      ChainConcat(a, b[..|b| - 1], path, stage);
    }
  }

  /** What is mounted under a prefix contributes nothing to a path outside it. */
  lemma {:induction false} LiftIsolates(mount: string, items: seq<Item>, path: string, stage: nat)
    requires mount != "" && Sound(items) && !PrefixMatches(mount, path)
    ensures Chain(LiftAll(mount, items), path, stage) == []
  {
    if items != [] {
      var n := |items| - 1;
      LiftIsolates(mount, items[..n], path, stage);
      var lifted := LiftAll(mount, items);
      assert lifted[..|lifted| - 1] == LiftAll(mount, items[..n]);
      if items[n].Scoped? { InsideMount(mount, items[n].prefix, path); }
    }
  }

  lemma {:induction false} LiftSound(mount: string, items: seq<Item>)
    requires StartsWith(mount, "/") && mount != "/" && Sound(items)
    ensures Sound(LiftAll(mount, items))
  {
    if items != [] {
      var n := |items| - 1;
      LiftSound(mount, items[..n]);
      match items[n]
      case Route(p, _) => JoinRooted(mount, p);
      case Scoped(s, _, _) => JoinRooted(mount, s);
    }
  }

  /** All servers are sound and mounted under a prefix other than the root. */
  ghost predicate SoundWorld(w: World) {
    && (forall i :: 0 <= i < |w| ==> Sound(w[i].items))
    && (forall i, k :: 0 <= i < |w| && 0 <= k < |w[i].mounted| ==>
          StartsWith(w[i].mounted[k].prefix, "/") && w[i].mounted[k].prefix != "/")
  }

  ghost predicate SoundMounts(ms: seq<Mount>) {
    forall k :: 0 <= k < |ms| ==> StartsWith(ms[k].prefix, "/") && ms[k].prefix != "/"
  }

  lemma {:induction false} FlatSound(w: World, rank: seq<nat>, i: nat)
    requires Ranked(w, rank) && SoundWorld(w) && i < |w|
    ensures Sound(Flat(w, rank, i))
    decreases rank[i], |w[i].mounted| + 1
  {
    FlatMountsSound(w, rank, w[i].mounted, rank[i]);
  }

  lemma {:induction false} FlatMountsSound(w: World, rank: seq<nat>, ms: seq<Mount>, bound: nat)
    requires Ranked(w, rank) && SoundWorld(w) && Below(ms, rank, bound) && SoundMounts(ms)
    ensures Sound(FlatMounts(w, rank, ms, bound))
    decreases bound, |ms|
  {
    if ms != [] {
      FlatSound(w, rank, ms[0].sub);
      LiftSound(ms[0].prefix, Flat(w, rank, ms[0].sub));
      FlatMountsSound(w, rank, ms[1..], bound);
    }
  }

  lemma {:induction false} FlatMountsSplit(w: World, rank: seq<nat>, ms: seq<Mount>, k: nat, bound: nat)
    requires Ranked(w, rank) && Below(ms, rank, bound) && k < |ms|
    ensures FlatMounts(w, rank, ms, bound)
         == FlatMounts(w, rank, ms[..k], bound) + FlatMounts(w, rank, ms[k..], bound)
    decreases k
  {
    if k == 0 {
      assert ms[..0] == [] && ms[0..] == ms;
    } else {
      var tail := ms[1..];
      FlatMountsSplit(w, rank, tail, k - 1, bound);
      assert tail[..k - 1] == ms[..k][1..] && tail[k - 1..] == ms[k..];
      FlatMountsCons(w, rank, ms[..k], bound);
      FlatMountsCons(w, rank, ms, bound);
      AppendAssoc(LiftAll(ms[0].prefix, Flat(w, rank, ms[0].sub)),
        FlatMounts(w, rank, tail[..k - 1], bound), FlatMounts(w, rank, ms[k..], bound));
    }
  }

  lemma {:induction false} FlatMountsCons(w: World, rank: seq<nat>, ms: seq<Mount>, bound: nat)
    requires Ranked(w, rank) && Below(ms, rank, bound) && ms != []
    ensures FlatMounts(w, rank, ms, bound)
         == LiftAll(ms[0].prefix, Flat(w, rank, ms[0].sub)) + FlatMounts(w, rank, ms[1..], bound)
  {}

  lemma {:induction false} MountSegment(w: World, rank: seq<nat>, i: nat, k: nat)
    requires Ranked(w, rank) && i < |w| && k < |w[i].mounted|
    ensures var ms := w[i].mounted;
      Flat(w, rank, i) == (w[i].items + FlatMounts(w, rank, ms[..k], rank[i]))
                          + LiftAll(ms[k].prefix, Flat(w, rank, ms[k].sub)) + FlatMounts(w, rank, ms[k + 1..], rank[i])
  {
    var ms := w[i].mounted;
    FlatMountsSplit(w, rank, ms, k, rank[i]);
    FlatMountsCons(w, rank, ms[k..], rank[i]);
    assert ms[k..][1..] == ms[k + 1..];
    var x, y, z := FlatMounts(w, rank, ms[..k], rank[i]),
      LiftAll(ms[k].prefix, Flat(w, rank, ms[k].sub)), FlatMounts(w, rank, ms[k + 1..], rank[i]);
    AppendAssoc(x, y, z);
    AppendAssoc(w[i].items, x + y, z);
    AppendAssoc(w[i].items, x, y);
  }

  /** Folding preserves scoping, nested mounts included: in the folded server the items that
      came from one mount form one segment. For a route of that sub-app the compiled chain is
      what the items before contribute, then exactly the chain the sub-app would have
      compiled standing alone, then what the items after contribute ... */
  lemma {:induction false} FoldPreservesChains(w: World, rank: seq<nat>, i: nat, k: nat, path: string, stage: nat)
      returns (before: seq<Item>, segment: seq<Item>, after: seq<Item>)
    requires Closed(w) && Ranked(w, rank) && SoundWorld(w)
    requires i < |w| && k < |w[i].mounted| && StartsWith(path, "/")
    ensures Fold(w, i)[i].items == before + segment + after
    ensures var m := w[i].mounted[k];
      var full, alone := Join(m.prefix, path), Fold(w, m.sub)[m.sub].items;
      && segment == LiftAll(m.prefix, alone)
      && Chain(Fold(w, i)[i].items, full, stage)
         == Chain(before, full, stage) + Chain(alone, path, stage) + Chain(after, full, stage)
  {
    var m := w[i].mounted[k];
    before, segment, after := FoldSegment(w, rank, i, k);
    var alone := Fold(w, m.sub)[m.sub].items;
    LiftPreservesChain(m.prefix, alone, path, stage);
    ChainConcat(before + segment, after, Join(m.prefix, path), stage);
    ChainConcat(before, segment, Join(m.prefix, path), stage);
  }

  /** ... and for a path outside the mount prefix the segment contributes nothing. */
  lemma {:induction false} FoldIsolatesMounts(w: World, rank: seq<nat>, i: nat, k: nat, path: string, stage: nat)
      returns (before: seq<Item>, segment: seq<Item>, after: seq<Item>)
    requires Closed(w) && Ranked(w, rank) && SoundWorld(w)
    requires i < |w| && k < |w[i].mounted| && !PrefixMatches(w[i].mounted[k].prefix, path)
    ensures Fold(w, i)[i].items == before + segment + after
    ensures var m := w[i].mounted[k]; segment == LiftAll(m.prefix, Fold(w, m.sub)[m.sub].items)
    ensures Chain(Fold(w, i)[i].items, path, stage) == Chain(before, path, stage) + Chain(after, path, stage)
  {
    var m := w[i].mounted[k];
    before, segment, after := FoldSegment(w, rank, i, k);
    LiftIsolates(m.prefix, Fold(w, m.sub)[m.sub].items, path, stage);
    ChainConcat(before + segment, after, path, stage);
    ChainConcat(before, segment, path, stage);
  }

  /** The items of a folded server around those of its `k`-th mount. */
  lemma {:induction false} FoldSegment(w: World, rank: seq<nat>, i: nat, k: nat)
      returns (before: seq<Item>, segment: seq<Item>, after: seq<Item>)
    requires Closed(w) && Ranked(w, rank) && SoundWorld(w) && i < |w| && k < |w[i].mounted|
    ensures Fold(w, i)[i].items == before + segment + after
    ensures var m := w[i].mounted[k];
      segment == LiftAll(m.prefix, Fold(w, m.sub)[m.sub].items) && Sound(Fold(w, m.sub)[m.sub].items)
  {
    var m := w[i].mounted[k];
    assert Fold(w, i)[i].items == Flat(w, rank, i) by { FoldMeans(w, rank, i); }
    assert Fold(w, m.sub)[m.sub].items == Flat(w, rank, m.sub) by { FoldMeans(w, rank, m.sub); }
    MountSegment(w, rank, i, k);
    FlatSound(w, rank, m.sub);
    before := w[i].items + FlatMounts(w, rank, w[i].mounted[..k], rank[i]);
    segment := LiftAll(m.prefix, Flat(w, rank, m.sub));
    after := FlatMounts(w, rank, w[i].mounted[k + 1..], rank[i]);
  }

  // ---- any graph, cycles included ----

  /** A chain of mounts in `w` that leads from server `j` to server `x`. */
  ghost predicate Leads(w: World, j: nat, path: seq<Mount>, x: nat)
    decreases |path|
  {
    && j < |w| && x < |w|
    && if path == [] then j == x else path[0] in w[j].mounted && Leads(w, path[0].sub, path[1..], x)
  }

  /** An item of the last server as the first one sees it. */
  function Climb(path: seq<Mount>, y: Item): Item {
    if path == [] then y else Lift(path[0].prefix, Climb(path[1..], y))
  }

  ghost predicate Comes(w: World, j: nat, item: Item, path: seq<Mount>, x: nat, y: Item) {
    Leads(w, j, path, x) && y in w[x].items && item == Climb(path, y)
  }

  /** Everything in `v` stems from `w` along mounts of `w`, and `v` has no other mounts. */
  ghost predicate Sourced(w: World, v: World) {
    && |v| == |w|
    && (forall j :: 0 <= j < |w| ==> v[j].mounted == w[j].mounted || v[j].mounted == [])
    && (forall j, item :: 0 <= j < |w| && item in v[j].items ==>
      exists path, x: nat, y :: Comes(w, j, item, path, x, y))
  }

  lemma {:induction false} LiftMember(mount: string, xs: seq<Item>, item: Item)
    requires item in LiftAll(mount, xs)
    ensures exists y :: y in xs && item == Lift(mount, y)
  {
    var n := |xs| - 1;
    if item == Lift(mount, xs[n]) {
      assert xs[n] in xs;
    } else {
      LiftMember(mount, xs[..n], item);
      var y :| y in xs[..n] && item == Lift(mount, y);
      assert y in xs;
    }
  }

  lemma {:induction false} LiftedComes(w: World, i: nat, m: Mount, z: Item, path: seq<Mount>, x: nat, y: Item)
    requires i < |w| && m in w[i].mounted && Comes(w, m.sub, z, path, x, y)
    ensures Comes(w, i, Lift(m.prefix, z), [m] + path, x, y)
  {
    assert ([m] + path)[1..] == path;
  }

  lemma {:induction false} AbsorbedComes(w: World, v: World, i: nat, m: Mount, item: Item)
    requires Sourced(w, v) && i < |w| && m.sub < |w| && m in w[i].mounted && item in LiftAll(m.prefix, v[m.sub].items)
    ensures exists path, x: nat, y :: Comes(w, i, item, path, x, y)
  {
    LiftMember(m.prefix, v[m.sub].items, item);
    var z :| z in v[m.sub].items && item == Lift(m.prefix, z);
    var path, x, y :| Comes(w, m.sub, z, path, x, y);
    LiftedComes(w, i, m, z, path, x, y);
  }

  lemma {:induction false} AbsorbSourced(w: World, v: World, i: nat, m: Mount)
    requires Sourced(w, v) && i < |w| && m.sub < |w| && m in w[i].mounted
    ensures Sourced(w, Absorb(v, i, m))
  {
    var v' := Absorb(v, i, m);
    forall j, item | 0 <= j < |w| && item in v'[j].items
      ensures exists path, x: nat, y :: Comes(w, j, item, path, x, y)
    {
      if item !in v[j].items { AbsorbedComes(w, v, i, m, item); }
    }
  }

  lemma {:induction false} FoldMountsSourced(w: World, v: World, i: nat, ms: seq<Mount>)
    requires Sourced(w, v) && Closed(v) && i < |v| && Targets(ms, i, |v|)
    requires forall k :: 0 <= k < |ms| ==> ms[k] in w[i].mounted
    ensures Sourced(w, FoldMounts(v, i, ms))
    decreases Unfolded(v) + |ms|, 0
  {
    if ms != [] {
      FoldSourced(w, v, ms[0].sub);
      AbsorbSourced(w, Fold(v, ms[0].sub), i, ms[0]);
      FoldMountsSourced(w, Absorb(Fold(v, ms[0].sub), i, ms[0]), i, ms[1..]);
    }
  }

  lemma {:induction false} FoldSourced(w: World, v: World, i: nat)
    requires Sourced(w, v) && Closed(v) && i < |v|
    ensures Sourced(w, Fold(v, i))
    decreases Unfolded(v), 1
  {
    assert Sourced(w, Cleared(v, i));
    FoldMountsSourced(w, Cleared(v, i), i, v[i].mounted);
  }

  /** Climbing the same mounts keeps a scope and a path matched or unmatched. */
  lemma {:induction false} ClimbPreservesScope(path: seq<Mount>, s: Item, r: Item)
    requires s.Scoped? && r.Route? && Sound([s, r]) && SoundMounts(path)
    ensures var s', r' := Climb(path, s), Climb(path, r);
      && s'.Scoped? && r'.Route? && Sound([s', r'])
      && (PrefixMatches(s'.prefix, r'.path) <==> PrefixMatches(s.prefix, r.path))
  {
    if path == [] {
    } else {
      var rest, m := path[1..], path[0].prefix;
      ClimbPreservesScope(rest, s, r);
      var s1, r1 := Climb(rest, s), Climb(rest, r);
      assert [s1, r1][0] == s1 && [s1, r1][1] == r1;
      MountPreservesScopeIff(m, s1.prefix, r1.path);
      JoinRooted(m, r1.path);
      JoinRooted(m, s1.prefix);
    }
  }

  /** On every mount graph, cyclic ones included, each item of a folded server comes from some
      server along a chain of the original mounts ... */
  lemma {:induction false} FoldedItemsOriginate(w: World, i: nat, j: nat, item: Item)
    requires Closed(w) && i < |w| && j < |w| && item in Fold(w, i)[j].items
    ensures exists path, x: nat, y :: Comes(w, j, item, path, x, y)
  {
    forall k, it | 0 <= k < |w| && it in w[k].items ensures exists path, x: nat, y :: Comes(w, k, it, path, x, y) {
      assert Comes(w, k, it, [], k, it);
    }
    FoldSourced(w, w, i);
  }

  /** ... and a scope and a route that come along the same chain match exactly if they matched
      where they were registered. */
  lemma {:induction false} ScopesAlongMounts(w: World, j: nat, path: seq<Mount>, x: nat, s: Item, r: Item)
    requires SoundWorld(w) && Leads(w, j, path, x) && s in w[x].items && r in w[x].items && s.Scoped? && r.Route?
    ensures var s', r' := Climb(path, s), Climb(path, r);
      s'.Scoped? && r'.Route? && (PrefixMatches(s'.prefix, r'.path) <==> PrefixMatches(s.prefix, r.path))
  {
    LeadsSound(w, j, path, x);
    ClimbPreservesScope(path, s, r);
  }

  lemma {:induction false} LeadsSound(w: World, j: nat, path: seq<Mount>, x: nat)
    requires SoundWorld(w) && Leads(w, j, path, x)
    ensures SoundMounts(path)
    decreases |path|
  {
    if path != [] { LeadsSound(w, path[0].sub, path[1..], x); }
  }

  // ---- nothing is lost, on any graph ----

  lemma {:induction false} LeadsShrinks(w: World, w': World, j: nat, path: seq<Mount>, x: nat)
    requires Grows(w, w') && Leads(w', j, path, x)
    ensures Leads(w, j, path, x)
    decreases |path|
  {
    if path != [] { LeadsShrinks(w, w', path[0].sub, path[1..], x); }
  }

  lemma {:induction false} LeadsConcat(w: World, i: nat, p: seq<Mount>, j: nat, q: seq<Mount>, x: nat)
    requires Leads(w, i, p, j) && Leads(w, j, q, x)
    ensures Leads(w, i, p + q, x)
    decreases |p|
  {
    if p == [] {
      assert p + q == q;
    } else {
      assert (p + q)[1..] == p[1..] + q;
      LeadsConcat(w, p[0].sub, p[1..], j, q, x);
    }
  }

  ghost predicate Reaches(w: World, i: nat, x: nat) { exists path :: Leads(w, i, path, x) }

  /** Folding leaves alone what it does not reach. */
  lemma {:induction false} FoldMountsUntouched(w: World, i: nat, ms: seq<Mount>, j: nat)
    requires Closed(w) && i < |w| && Targets(ms, i, |w|) && j < |w| && j != i
    requires forall k :: 0 <= k < |ms| ==> !Reaches(w, ms[k].sub, j)
    ensures FoldMounts(w, i, ms)[j] == w[j]
    decreases Unfolded(w) + |ms|, 0
  {
    if ms != [] {
      FoldUntouched(w, ms[0].sub, j);
      var w2 := Absorb(Fold(w, ms[0].sub), i, ms[0]);
      forall k | 0 <= k < |ms[1..]| ensures !Reaches(w2, ms[1..][k].sub, j) {
        assert !Reaches(w, ms[k + 1].sub, j);
        forall path ensures !Leads(w2, ms[1..][k].sub, path, j) {
          if Leads(w2, ms[1..][k].sub, path, j) { LeadsShrinks(w, w2, ms[k + 1].sub, path, j); }
        }
      }
      FoldMountsUntouched(w2, i, ms[1..], j);
    }
  }

  lemma {:induction false} LeadsOver(w: World, w': World, i: nat, m: Mount, path: seq<Mount>, x: nat)
    requires Grows(w, w') && i < |w| && m in w[i].mounted && Leads(w', m.sub, path, x)
    ensures Leads(w, i, [m] + path, x) && Reaches(w, i, x)
  {
    LeadsShrinks(w, w', m.sub, path, x);
    assert ([m] + path)[1..] == path;
    assert Leads(w, i, [m] + path, x);
  }

  lemma {:induction false} FoldUntouched(w: World, i: nat, j: nat)
    requires Closed(w) && i < |w| && j < |w| && !Reaches(w, i, j)
    ensures Fold(w, i)[j] == w[j]
    decreases Unfolded(w), 1
  {
    assert !Leads(w, i, [], j);
    var w0, ms := Cleared(w, i), w[i].mounted;
    forall k | 0 <= k < |ms| ensures !Reaches(w0, ms[k].sub, j) {
      forall path ensures !Leads(w0, ms[k].sub, path, j) {
        if Leads(w0, ms[k].sub, path, j) { LeadsOver(w, w0, i, ms[k], path, j); }
      }
    }
    FoldMountsUntouched(w0, i, ms, j);
  }

  /** Item `y` of server `x` has reached `items`, along some chain of the mounts `ms`. */
  ghost predicate Arrived(w: World, ms: seq<Mount>, x: nat, y: Item, items: seq<Item>) {
    exists m, path :: m in ms && Leads(w, m.sub, path, x) && Lift(m.prefix, Climb(path, y)) in items
  }

  ghost predicate Kept(w: World, i: nat, x: nat, y: Item, items: seq<Item>) {
    exists path :: Leads(w, i, path, x) && Climb(path, y) in items
  }

  lemma {:induction false} LiftedMember(mount: string, xs: seq<Item>, y: Item)
    requires y in xs
    ensures Lift(mount, y) in LiftAll(mount, xs)
  {
    var n := |xs| - 1;
    if y != xs[n] {
      assert xs == xs[..n] + [xs[n]];
      LiftedMember(mount, xs[..n], y);
    }
  }

  /** A chain that avoids everything server `a` reaches survives the folding of `a`. */
  lemma {:induction false} LeadsSurvives(w: World, a: nat, j: nat, path: seq<Mount>, x: nat)
    requires Closed(w) && a < |w| && Leads(w, j, path, x) && !Reaches(w, a, x)
    ensures Leads(Fold(w, a), j, path, x)
    decreases |path|
  {
    if path != [] {
      if Reaches(w, a, j) {
        var p :| Leads(w, a, p, j);
        LeadsConcat(w, a, p, j, path, x);
      }
      FoldUntouched(w, a, j);
      LeadsSurvives(w, a, path[0].sub, path[1..], x);
    }
  }

  /** Items of the first mounted server arrive. */
  lemma {:induction false} AbsorbKeeps(w: World, w1: World, i: nat, m: Mount, x: nat, y: Item)
    requires i < |w| == |w1| && m.sub < |w| && Kept(w, m.sub, x, y, w1[m.sub].items)
    ensures exists path :: Leads(w, m.sub, path, x) && Lift(m.prefix, Climb(path, y)) in Absorb(w1, i, m)[i].items
  {
    var path :| Leads(w, m.sub, path, x) && Climb(path, y) in w1[m.sub].items;
    LiftedMember(m.prefix, w1[m.sub].items, Climb(path, y));
  }

  lemma {:induction false} LeadsAbsorbed(w: World, i: nat, m: Mount, j: nat, path: seq<Mount>, x: nat)
    requires i < |w| && m.sub < |w| && Leads(w, j, path, x)
    ensures Leads(Absorb(w, i, m), j, path, x)
    decreases |path|
  {
    if path != [] { LeadsAbsorbed(w, i, m, path[0].sub, path[1..], x); }
  }

  lemma {:induction false} FirstArrives(w: World, i: nat, ms: seq<Mount>, x: nat, y: Item)
    requires Closed(w) && i < |w| && Targets(ms, i, |w|) && ms != []
    requires Kept(w, ms[0].sub, x, y, Fold(w, ms[0].sub)[ms[0].sub].items)
    ensures Arrived(w, ms, x, y, FoldMounts(w, i, ms)[i].items)
  {
    var m, w1 := ms[0], Fold(w, ms[0].sub);
    AbsorbKeeps(w, w1, i, m, x, y);
    var w2 := Absorb(w1, i, m);
    var q :| Leads(w, m.sub, q, x) && Lift(m.prefix, Climb(q, y)) in w2[i].items;
    assert w2[i].items <= FoldMounts(w2, i, ms[1..])[i].items;
    assert m in ms && Lift(m.prefix, Climb(q, y)) in FoldMounts(w, i, ms)[i].items;
  }

  lemma {:induction false} LaterSurvives(
      w: World, i: nat, ms: seq<Mount>, k: nat, path: seq<Mount>, x: nat, y: Item)
    requires Closed(w) && i < |w| && Targets(ms, i, |w|) && k < |ms| && !Reaches(w, ms[0].sub, x)
    requires Leads(w, ms[k].sub, path, x) && y in w[x].items
    ensures k > 0
    ensures var w2 := Absorb(Fold(w, ms[0].sub), i, ms[0]);
      Grows(w, w2) && Leads(w2, ms[1..][k - 1].sub, path, x) && y in w2[x].items
  {
    assert Reaches(w, ms[k].sub, x);
    var w1 := Fold(w, ms[0].sub);
    LeadsSurvives(w, ms[0].sub, ms[k].sub, path, x);
    LeadsAbsorbed(w1, i, ms[0], ms[k].sub, path, x);
    assert w[x].items <= w1[x].items <= Absorb(w1, i, ms[0])[x].items;
  }

  lemma {:induction false} ArrivedLater(w: World, w2: World, ms: seq<Mount>, x: nat, y: Item, items: seq<Item>)
    requires ms != [] && Grows(w, w2) && Arrived(w2, ms[1..], x, y, items)
    ensures Arrived(w, ms, x, y, items)
  {
    var m, q :| m in ms[1..] && Leads(w2, m.sub, q, x) && Lift(m.prefix, Climb(q, y)) in items;
    LeadsShrinks(w, w2, m.sub, q, x);
    assert m in ms && Leads(w, m.sub, q, x);
  }

  lemma {:induction false} FoldMountsKeep(
      w: World, i: nat, ms: seq<Mount>, k: nat, path: seq<Mount>, x: nat, y: Item)
    requires Closed(w) && i < |w| && Targets(ms, i, |w|)
    requires k < |ms| && Leads(w, ms[k].sub, path, x) && y in w[x].items
    ensures Arrived(w, ms, x, y, FoldMounts(w, i, ms)[i].items)
    decreases Unfolded(w) + |ms|, 0, 0
  {
    if Reaches(w, ms[0].sub, x) {
      var p :| Leads(w, ms[0].sub, p, x);
      FoldKeeps(w, ms[0].sub, p, x, y);
      FirstArrives(w, i, ms, x, y);
    } else {
      LaterSurvives(w, i, ms, k, path, x, y);
      FoldMountsKeep(Absorb(Fold(w, ms[0].sub), i, ms[0]), i, ms[1..], k - 1, path, x, y);
      ArrivedLater(w, Absorb(Fold(w, ms[0].sub), i, ms[0]), ms, x, y, FoldMounts(w, i, ms)[i].items);
    }
  }

  /** Either a chain avoids the mounts of `i`, or its end is reached from `i` no later. */
  lemma {:induction false} Detour(w: World, i: nat, j: nat, path: seq<Mount>, x: nat) returns (rest: seq<Mount>)
    requires i < |w| && Leads(w, j, path, x)
    ensures Leads(Cleared(w, i), j, path, x) || (Leads(w, i, rest, x) && |rest| <= |path|)
    decreases |path|
  {
    if path == [] || j == i {
      rest := path;
    } else {
      rest := Detour(w, i, path[0].sub, path[1..], x);
    }
  }

  lemma {:induction false} KeptBelow(w: World, i: nat, x: nat, y: Item, items: seq<Item>)
    requires i < |w| && Arrived(Cleared(w, i), w[i].mounted, x, y, items)
    ensures Kept(w, i, x, y, items)
  {
    var m, q :| m in w[i].mounted && Leads(Cleared(w, i), m.sub, q, x) && Lift(m.prefix, Climb(q, y)) in items;
    LeadsOver(w, Cleared(w, i), i, m, q, x);
    assert ([m] + q)[1..] == q && Climb([m] + q, y) in items;
  }

  /** On every mount graph, cyclic ones included, nothing that server `i` mounts, directly or
      not, is lost by folding it: each item arrives along some chain of mounts. */
  lemma {:induction false} FoldKeeps(w: World, i: nat, path: seq<Mount>, x: nat, y: Item)
    requires Closed(w) && Leads(w, i, path, x) && y in w[x].items
    ensures Kept(w, i, x, y, Fold(w, i)[i].items)
    decreases Unfolded(w), 1, |path|
  {
    if path == [] {
      assert w[i].items <= Fold(w, i)[i].items;
      assert Leads(w, i, [], x) && Climb([], y) in Fold(w, i)[i].items;
    } else {
      var rest := Detour(w, i, path[0].sub, path[1..], x);
      if Leads(Cleared(w, i), path[0].sub, path[1..], x) {
        var k :| 0 <= k < |w[i].mounted| && w[i].mounted[k] == path[0];
        FoldMountsKeep(Cleared(w, i), i, w[i].mounted, k, path[1..], x, y);
        KeptBelow(w, i, x, y, Fold(w, i)[i].items);
      } else {
        FoldKeeps(w, i, rest, x, y);
      }
    }
  }
}
