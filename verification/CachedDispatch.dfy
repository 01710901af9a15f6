/** Serving a route with a response cache (src/server.rs `dispatch`): the key, the history
    and the replay put together, in terms of requests and answers only. */
module CachedDispatch {
  import opened Common
  import opened ResponseCache
  import opened CacheHistory
  import opened Replay
  import K = CacheKey

  /** A request to the route. `head`: a HEAD served by the GET route. `bodyHash`: of the raw
      body, if the request has one. */
  datatype Visit = Visit(
    verb: string, head: bool, path: string, query: Option<string>, headers: seq<K.KvPair>, bodyHash: Option<nat>)

  function EffectiveMethod(v: Visit): string { if v.head then "GET" else v.verb }

  predicate Cacheable(v: Visit) {
    var m := EffectiveMethod(v);
    m == "GET" || m == "HEAD" || m == "QUERY"
  }

  /** What the key is built from: only QUERY keys carry the body. */
  function Selector(v: Visit): K.Request {
    var m := EffectiveMethod(v);
    K.Request(m, v.path, v.query, v.headers, if m == "QUERY" then v.bodyHash else None)
  }

  /** Two requests agree on everything that selects a cached answer: the method, GET for a HEAD
      served by the GET route, the path, the query (absent same as empty), the ordered values
      of every vary header and, for QUERY, the body. */
  ghost predicate Alike(vary: seq<string>, a: Visit, b: Visit) {
    var m, n := if a.head then "GET" else a.verb, if b.head then "GET" else b.verb;
    && m == n && a.path == b.path
    && (if a.query.Some? then a.query.value else "") == (if b.query.Some? then b.query.value else "")
    && (forall i :: 0 <= i < |vary| ==> K.ValuesOf(a.headers, vary[i]) == K.ValuesOf(b.headers, vary[i]))
    && (m == "QUERY" ==> a.bodyHash == b.bodyHash)
  }

  lemma {:induction false} AlikeIff(vary: seq<string>, a: Visit, b: Visit)
    ensures K.SameVariant(vary, Selector(a), Selector(b)) <==> Alike(vary, a, b)
  {}

  /** Only safe methods, and HEAD served by GET, go through the cache. */
  lemma {:induction false} CacheableIff(v: Visit)
    ensures Cacheable(v) <==> v.head || v.verb == "GET" || v.verb == "HEAD" || v.verb == "QUERY"
  {}

  /** One request without interference: the handler would give `answer`, or the server loses
      the sender (`None`); `stream` is what a streamed answer carries. The clock is read at
      the lookup, for the expiry and under the lock. */
  method Serve(cache: LeafCache, vary: seq<string>, v: Visit, answer: Option<JsResponse>, stream: Bytes,
               requestId: string, idHeader: string, looked: nat, built: nat, locked: nat)
      returns (out: HttpResponse, hit: bool, key: string)
    requires cache.Valid()
    modifies cache
    ensures cache.Valid() && K.IsKey(key, vary, Selector(v))
    ensures hit <==> Cacheable(v) && key in old(cache.store) && old(cache.store)[key].expires > looked
    ensures hit ==> cache.store == old(cache.store)
    ensures hit ==> out == CachedResponse(HitOf(old(cache.store)[key]), v.head, requestId, idHeader)
    ensures !hit ==> out == if answer.Some? then BuildResponse(answer.value, v.head, stream) else ERROR_500
    ensures !Cacheable(v) ==> cache.store == old(cache.store)
    ensures !hit && Cacheable(v) ==>
      var seen := Looked(old(cache.store), key, looked);
      if answer.Some? && Eligible(cache.cfg, answer.value)
      then Inserted(cache.cfg, seen, key,
        EntryOf(cache.cfg, v.path, answer.value, idHeader, built), locked, cache.store)
      else cache.store == seen
  {
    key := K.BuildKey(vary, Selector(v));
    hit := false;
    if Cacheable(v) {
      var found := cache.Lookup(key, looked);
      if found.Some? {
        return CachedResponse(found.value, v.head, requestId, idHeader), true, key;
      }
    }
    if answer.None? { return ERROR_500, false, key; }
    if Cacheable(v) {
      cache.MaybeStore(key, v.path, answer.value, idHeader, built, locked);
    }
    out := BuildResponse(answer.value, v.head, stream);
  }

  /** A history in which operation `i`, if it is a store, was caused by request `visits[i]`. */
  ghost predicate Caused(vary: seq<string>, visits: seq<Visit>, ops: seq<Op>, idHeader: string) {
    && |visits| == |ops|
    && forall i {:trigger ops[i]} :: 0 <= i < |ops| && ops[i].StoreOp? ==>
         && Cacheable(visits[i]) && K.Clean(vary, Selector(visits[i])) && K.IsKey(ops[i].key, vary, Selector(visits[i]))
         && ops[i].path == visits[i].path && ops[i].idHeader == idHeader
  }

  /** The answer to request `i` is the one that request `v` may be served at `now`: it was
      given to the latest stored request that agrees with `v` on everything that selects a
      variant, within the lifetime, with no purge of that path since. */
  ghost predicate Current(
      cfg: Config, vary: seq<string>, visits: seq<Visit>, ops: seq<Op>, v: Visit, now: nat, i: int) {
    && 0 <= i < |ops| == |visits| && Stores(cfg, ops[i]) && Alike(vary, visits[i], v)
    && now < ops[i].built + cfg.ttl
    && forall j {:trigger ops[j]} :: i < j < |ops| ==>
         && !(Stores(cfg, ops[j]) && Alike(vary, visits[j], v))
         && !PurgedBy(ops[j], v.path)
  }

  lemma {:induction false} StoreSelects(
      cfg: Config, vary: seq<string>, visits: seq<Visit>, ops: seq<Op>, idHeader: string,
      v: Visit, key: string, j: nat)
    requires Caused(vary, visits, ops, idHeader) && K.Clean(vary, Selector(v)) && K.IsKey(key, vary, Selector(v))
    requires j < |ops| && Stores(cfg, ops[j])
    ensures ops[j].key == key <==> Alike(vary, visits[j], v)
  {
    K.KeyInjective(vary, Selector(visits[j]), Selector(v), ops[j].key, key);
    AlikeIff(vary, visits[j], v);
  }

  lemma {:induction false} LatestIsCurrent(
      cfg: Config, vary: seq<string>, visits: seq<Visit>, ops: seq<Op>, idHeader: string,
      v: Visit, key: string, now: nat, i: int)
    requires Caused(vary, visits, ops, idHeader) && K.Clean(vary, Selector(v)) && K.IsKey(key, vary, Selector(v))
    ensures Latest(cfg, ops, key, i) && now < ops[i].built + cfg.ttl <==> Current(cfg, vary, visits, ops, v, now, i)
  {
    if 0 <= i < |ops| && Stores(cfg, ops[i]) {
      StoreSelects(cfg, vary, visits, ops, idHeader, v, key, i);
      forall j | i < j < |ops| && Stores(cfg, ops[j])
        ensures ops[j].key == key <==> Alike(vary, visits[j], v)
      {
        StoreSelects(cfg, vary, visits, ops, idHeader, v, key, j);
      }
    }
  }

  /** A replayed answer is never stale and never someone else's variant: over every history
      of stores, lookups, purges and evictions, a hit for `v` replays the current answer,
      and shows the client what the handler's answer itself would have, up to the request-id
      and `x-cache` headers. */
  lemma {:induction false} ReplaysCurrentAnswer(
      cfg: Config, vary: seq<string>, visits: seq<Visit>, tr: seq<Store>, ops: seq<Op>,
      v: Visit, key: string, now: nat, requestId: string, idHeader: string)
      returns (i: int)
    requires Run(cfg, tr, ops) && Caused(vary, visits, ops, idHeader)
    requires K.Clean(vary, Selector(v)) && K.IsKey(key, vary, Selector(v))
    requires Lower(idHeader) == idHeader && ValidName(idHeader) && ValidValue(requestId)
    requires key in tr[|ops|] && tr[|ops|][key].expires > now
    ensures Current(cfg, vary, visits, ops, v, now, i)
    ensures var out := CachedResponse(HitOf(tr[|ops|][key]), v.head, requestId, idHeader);
      forall stream :: SameAnswer(out, BuildResponse(ops[i].res, v.head, stream), idHeader)
        <==> AllValid(PairsOf(ops[i].res)) || !AllValid(Kept(PairsOf(ops[i].res), idHeader))
  {
    HitIsLatestStore(cfg, tr, ops, key, now);
    i :| Latest(cfg, ops, key, i)
      && HitOf(tr[|ops|][key]) == HitOf(Stored(cfg, ops[i])) && now < ops[i].built + cfg.ttl;
    LatestIsCurrent(cfg, vary, visits, ops, idHeader, v, key, now, i);
    var op := ops[i];
    var out := CachedResponse(HitOf(tr[|ops|][key]), v.head, requestId, idHeader);
    var fair := AllValid(PairsOf(op.res)) || !AllValid(Kept(PairsOf(op.res), idHeader));
    forall stream ensures SameAnswer(out, BuildResponse(op.res, v.head, stream), idHeader) <==> fair {
      ReplayEqualsDirect(cfg, op.path, op.res, v.head, op.built, requestId, idHeader, stream);
    }
  }

  /** And without crowding every request with a current answer is served from the cache. */
  lemma {:induction false} HitsWheneverCurrent(
      cfg: Config, vary: seq<string>, visits: seq<Visit>, tr: seq<Store>, ops: seq<Op>,
      v: Visit, key: string, now: nat, idHeader: string)
    requires Run(cfg, tr, ops) && Caused(vary, visits, ops, idHeader) && Monotone(ops)
    requires K.Clean(vary, Selector(v)) && K.IsKey(key, vary, Selector(v))
    requires forall n :: 0 <= n < |ops| && Stores(cfg, ops[n]) ==> !Crowded(cfg, tr[n], ops[n].key, ops[n].time)
    requires forall n :: 0 <= n < |ops| ==> ops[n].time <= now
    ensures key in tr[|ops|] && tr[|ops|][key].expires > now <==> exists i :: Current(cfg, vary, visits, ops, v, now, i)
  {
    ExactUnlessCrowded(cfg, tr, ops, |ops|, key, now);
    assert ops[..|ops|] == ops;
    IdealIsLatest(cfg, ops, key);
    forall i ensures Latest(cfg, ops, key, i) && now < ops[i].built + cfg.ttl
      <==> Current(cfg, vary, visits, ops, v, now, i)
    {
      LatestIsCurrent(cfg, vary, visits, ops, idHeader, v, key, now, i);
    }
  }

  // ---- a whole session ----

  /** What happens to the cache of the route, in the order of its lock: a cacheable request
      arrives, the handler answers one that missed, or somebody purges. Requests overlap
      freely: any number of other steps may come between a request and its answer. */
  datatype Step =
    | Ask(visit: Visit, requestId: string, now: nat)
    | Answered(visit: Visit, res: JsResponse, stream: Bytes, built: nat, locked: nat)
    | Purge(target: Option<string>, time: nat)

  ghost predicate StepOk(vary: seq<string>, s: Step) {
    s.Purge? || (Cacheable(s.visit) && K.Clean(vary, Selector(s.visit)) && (s.Ask? ==> ValidValue(s.requestId)))
  }

  /** Operation `op`, caused by `v`, is what step `s` does to the cache. */
  ghost predicate Does(vary: seq<string>, idHeader: string, s: Step, op: Op, v: Visit) {
    match s
    case Ask(visit, _, now) =>
      v == visit && op.LookupOp? && op == LookupOp(op.key, now) && K.IsKey(op.key, vary, Selector(v))
    case Answered(visit, res, _, built, locked) =>
      && v == visit && op.StoreOp? && op == StoreOp(op.key, v.path, res, idHeader, built, locked)
      && K.IsKey(op.key, vary, Selector(v))
    case Purge(target, time) => op == PurgeOp(target, time)
  }

  /** A ghost record of what happened: the contents, the operations and their requests. */
  datatype History = History(tr: seq<Store>, ops: seq<Op>, visits: seq<Visit>)

  ghost predicate Records(cache: LeafCache, vary: seq<string>, idHeader: string, h: History)
    reads cache
  {
    && cache.Valid() && Run(cache.cfg, h.tr, h.ops) && Caused(vary, h.visits, h.ops, idHeader)
    && cache.store == h.tr[|h.ops|]
  }

  /** The answer `out` replayed for `s` after history `h` is the current one, shown as the
      handler's answer itself would have been. */
  ghost predicate Justified(cfg: Config, vary: seq<string>, idHeader: string, h: History, s: Step, out: HttpResponse)
    requires s.Ask?
  {
    exists i ::
      Current(cfg, vary, h.visits, h.ops, s.visit, s.now, i) && Shows(idHeader, h.ops[i].res, s.visit.head, out)
  }

  ghost predicate Shows(idHeader: string, res: JsResponse, head: bool, out: HttpResponse) {
    forall stream :: SameAnswer(out, BuildResponse(res, head, stream), idHeader)
      <==> AllValid(PairsOf(res)) || !AllValid(Kept(PairsOf(res), idHeader))
  }

  function Extend(h: History, m: Store, op: Op, v: Visit): History {
    History(h.tr + [m], h.ops + [op], h.visits + [v])
  }

  lemma {:induction false} ExtendRecords(
      cfg: Config, vary: seq<string>, idHeader: string, h: History, m: Store, op: Op, v: Visit)
    requires Run(cfg, h.tr, h.ops) && Caused(vary, h.visits, h.ops, idHeader) && Next(cfg, h.tr[|h.ops|], op, m)
    requires op.StoreOp? ==>
      && Cacheable(v) && K.Clean(vary, Selector(v)) && K.IsKey(op.key, vary, Selector(v))
      && op.path == v.path && op.idHeader == idHeader
    ensures var h' := Extend(h, m, op, v);
      Run(cfg, h'.tr, h'.ops) && Caused(vary, h'.visits, h'.ops, idHeader) && h'.tr[|h'.ops|] == m
  {
    var h' := Extend(h, m, op, v);
    forall i {:trigger h'.ops[i]} | 0 <= i < |h'.ops| ensures Next(cfg, h'.tr[i], h'.ops[i], h'.tr[i + 1]) {
      if i < |h.ops| { assert h'.ops[i] == h.ops[i]; }
    }
    forall i {:trigger h'.ops[i]} | 0 <= i < |h.ops| ensures h'.ops[i] == h.ops[i] && h'.visits[i] == h.visits[i] {}
  }

  /** Step `s`, recorded as the `n`-th of `h`, had the effect it should have and the answer
      `out` that the history before it justifies. */
  ghost predicate Explained(
      cfg: Config, vary: seq<string>, idHeader: string, s: Step, out: Option<HttpResponse>, h: History, n: nat)
    requires n < |h.ops| == |h.visits| && |h.tr| == |h.ops| + 1
  {
    && Does(vary, idHeader, s, h.ops[n], h.visits[n])
    && (s.Ask? && out.Some? ==> Justified(cfg, vary, idHeader, Until(h, n), s, out.value))
    && (s.Answered? ==> out == Some(BuildResponse(s.res, s.visit.head, s.stream)))
  }

  ghost predicate Continues(h: History, h': History) {
    && |h.ops| == |h.visits| && |h'.ops| == |h'.visits| == |h.ops| + 1
    && |h.tr| == |h.ops| + 1 && |h'.tr| == |h'.ops| + 1
    && h == History(h'.tr[..|h.tr|], h'.ops[..|h.ops|], h'.visits[..|h.ops|])
  }

  /** One step on the cache. */
  method Perform(cache: LeafCache, vary: seq<string>, idHeader: string, s: Step, ghost h: History)
      returns (out: Option<HttpResponse>, ghost h': History)
    requires Records(cache, vary, idHeader, h) && StepOk(vary, s)
    requires Lower(idHeader) == idHeader && ValidName(idHeader)
    modifies cache
    ensures Records(cache, vary, idHeader, h') && Continues(h, h')
    ensures Explained(cache.cfg, vary, idHeader, s, out, h', |h.ops|)
  {
    match s
    case Ask(v, requestId, now) =>
      var key := K.BuildKey(vary, Selector(v));
      var hit := cache.Lookup(key, now);
      out := None;
      if hit.Some? {
        out := Some(CachedResponse(hit.value, v.head, requestId, idHeader));
        ghost var i := ReplaysCurrentAnswer(cache.cfg, vary, h.visits, h.tr, h.ops, v, key, now, requestId, idHeader);
        assert Shows(idHeader, h.ops[i].res, v.head, out.value);
      }
      h' := Extend(h, cache.store, LookupOp(key, now), v);
      ExtendRecords(cache.cfg, vary, idHeader, h, cache.store, LookupOp(key, now), v);
    case Answered(v, res, stream, built, locked) =>
      var key := K.BuildKey(vary, Selector(v));
      cache.MaybeStore(key, v.path, res, idHeader, built, locked);
      out := Some(BuildResponse(res, v.head, stream));
      ghost var op := StoreOp(key, v.path, res, idHeader, built, locked);
      h' := Extend(h, cache.store, op, v);
      ExtendRecords(cache.cfg, vary, idHeader, h, cache.store, op, v);
    case Purge(target, time) =>
      var _ := cache.Purge(target);
      out := None;
      ghost var v := Visit("", false, "", None, [], None);
      h' := Extend(h, cache.store, PurgeOp(target, time), v);
      ExtendRecords(cache.cfg, vary, idHeader, h, cache.store, PurgeOp(target, time), v);
    assert Continues(h, h') && Until(h', |h.ops|) == h;
  }

  /** The history after the first `n` steps. */
  ghost function Until(h: History, n: nat): History
    requires n < |h.tr| && n <= |h.ops| && n <= |h.visits|
  {
    History(h.tr[..n + 1], h.ops[..n], h.visits[..n])
  }

  lemma {:induction false} ExplainedLater(
      cfg: Config, vary: seq<string>, idHeader: string, s: Step, out: Option<HttpResponse>, h: History, h': History,
      n: nat)
    requires Continues(h, h') && n < |h.ops| && Explained(cfg, vary, idHeader, s, out, h, n)
    ensures Explained(cfg, vary, idHeader, s, out, h', n)
  {
    assert h'.tr[..|h.tr|][..n + 1] == h'.tr[..n + 1];
    assert h'.ops[..|h.ops|][..n] == h'.ops[..n];
    assert h'.visits[..|h.ops|][..n] == h'.visits[..n];
    assert Until(h', n) == Until(h, n);
  }

  /** A route's cache from the start, over every sequence of steps: each answer replayed is the
      current one at that moment, judged by the requests, answers and purges before it alone. */
  method Session(cfg: Config, vary: seq<string>, idHeader: string, steps: seq<Step>)
      returns (outs: seq<Option<HttpResponse>>, ghost h: History)
    requires cfg.maxEntries >= 1 && Lower(idHeader) == idHeader && ValidName(idHeader)
    requires forall n :: 0 <= n < |steps| ==> StepOk(vary, steps[n])
    ensures |outs| == |steps| == |h.ops| == |h.visits| && |h.tr| == |steps| + 1
    ensures forall n :: 0 <= n < |steps| ==> Explained(cfg, vary, idHeader, steps[n], outs[n], h, n)
    ensures forall n :: 0 <= n < |steps| && steps[n].Answered? ==>
              outs[n] == Some(BuildResponse(steps[n].res, steps[n].visit.head, steps[n].stream))
  {
    var cache := new LeafCache(cfg);
    outs, h := [], History([map[]], [], []);
    var n := 0;
    while n < |steps|
      invariant n <= |steps| && fresh(cache) && cache.cfg == cfg && Records(cache, vary, idHeader, h)
      invariant |outs| == n == |h.ops|
      invariant forall k :: 0 <= k < n ==> Explained(cfg, vary, idHeader, steps[k], outs[k], h, k)
    {
      ghost var before := h;
      var out;
      out, h := Perform(cache, vary, idHeader, steps[n], h);
      forall k | 0 <= k < n ensures Explained(cfg, vary, idHeader, steps[k], outs[k], h, k) {
        ExplainedLater(cfg, vary, idHeader, steps[k], outs[k], before, h, k);
      }
      outs := outs + [out];
      n := n + 1;
    }
  }
}
