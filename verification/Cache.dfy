/** The per-route response cache (src/cache.rs): a bounded, expiring, arbitrarily evicting
    map, and the unbounded map it stands for. Times are milliseconds. */
module ResponseCache {
  import opened Common

  type Header = (string, string)

  /** The answer of a JS handler as it crosses the bridge; `body` is its UTF-8 bytes. */
  datatype JsResponse = JsResponse(
    status: Option<nat>, headers: Option<seq<Header>>, body: Option<Bytes>, streamed: Option<bool>)

  datatype Config = Config(ttl: nat, maxEntries: nat, maxBodyBytes: nat)

  datatype Entry = Entry(path: string, status: nat, headers: seq<Header>, body: Bytes, expires: nat)

  datatype Hit = Hit(status: nat, headers: seq<Header>, body: Bytes)

  function StatusOf(r: JsResponse): nat { if r.status.Some? then r.status.value else 200 }
  function PairsOf(r: JsResponse): seq<Header> { if r.headers.Some? then r.headers.value else [] }
  function BodyOf(r: JsResponse): Bytes { if r.body.Some? then r.body.value else [] }
  predicate Streamed(r: JsResponse) { r.streamed.Some? && r.streamed.value }

  /** A header that keeps the whole response out of the cache. */
  predicate OptsOut(h: Header) {
    || Lower(h.0) == "set-cookie"
    || (Lower(h.0) == "cache-control" && (Contains(Lower(h.1), "no-store") || Contains(Lower(h.1), "private")))
  }

  ghost predicate Eligible(cfg: Config, r: JsResponse) {
    && StatusOf(r) == 200 && !Streamed(r) && |BodyOf(r)| <= cfg.maxBodyBytes
    && forall i :: 0 <= i < |PairsOf(r)| ==> !OptsOut(PairsOf(r)[i])
  }

  /** Stored headers: lower-cased names, without the request-id header. */
  function Kept(pairs: seq<Header>, idHeader: string): seq<Header> {
    if pairs == [] then []
    else
      var rest := Kept(pairs[..|pairs| - 1], idHeader);
      var h := pairs[|pairs| - 1];
      if Lower(h.0) == idHeader then rest else rest + [(Lower(h.0), h.1)]
  }

  function EntryOf(cfg: Config, path: string, r: JsResponse, idHeader: string, now: nat): Entry {
    Entry(path, StatusOf(r), Kept(PairsOf(r), idHeader), BodyOf(r), now + cfg.ttl)
  }

  function HitOf(e: Entry): Hit { Hit(e.status, e.headers, e.body) }

  type Store = map<string, Entry>

  function Live(m: Store, now: nat): Store { map k | k in m && m[k].expires > now :: m[k] }

  /** The insert: into the map when there is room or the key is known, else into what
      survives the sweep, minus one arbitrary entry if the sweep freed nothing. */
  ghost predicate Inserted(cfg: Config, m: Store, key: string, e: Entry, now: nat, m': Store) {
    if |m| < cfg.maxEntries || key in m then m' == m[key := e]
    else if |Live(m, now)| < cfg.maxEntries then m' == Live(m, now)[key := e]
    else exists victim :: victim in Live(m, now) && m' == (Live(m, now) - {victim})[key := e]
  }

  function Purged(m: Store, path: Option<string>): Store {
    if path.None? then map[] else map k | k in m && m[k].path != path.value :: m[k]
  }

  function Looked(m: Store, key: string, now: nat): Store {
    if key in m && m[key].expires <= now then m - {key} else m
  }

  lemma {:induction false} LiveSize(m: Store, now: nat)
    ensures |Live(m, now)| <= |m|
    ensures |Live(m, now)| == |m| <==> (forall k :: k in m ==> m[k].expires > now)
  {
    SubKeys(Live(m, now).Keys, m.Keys);
    assert (forall k :: k in m ==> m[k].expires > now) ==> Live(m, now).Keys == m.Keys;
    if |Live(m, now)| == |m| {
      forall k | k in m ensures m[k].expires > now { assert k in Live(m, now).Keys; }
    }
  }

  lemma {:induction false} SubKeys(a: set<string>, b: set<string>)
    requires a <= b
    ensures |a| <= |b| && (|a| == |b| ==> a == b)
  {
    assert b == a + (b - a);
    assert |b| == |a| + |b - a|;
    if |a| == |b| { assert b - a == {}; }
  }

  class LeafCache {
    const cfg: Config
    var store: Store

    /** `max_entries` is at least 1: a zero is replaced by the default when routes are built. */
    ghost predicate Valid() reads this { cfg.maxEntries >= 1 && |store| <= cfg.maxEntries }

    constructor (cfg: Config)
      requires cfg.maxEntries >= 1
      ensures Valid() && this.cfg == cfg && store == map[]
    {
      this.cfg, store := cfg, map[];
    }

    method Lookup(key: string, now: nat) returns (hit: Option<Hit>)
      requires Valid()
      modifies this
      ensures Valid() && store == Looked(old(store), key, now)
      ensures hit == if key in old(store) && old(store)[key].expires > now then Some(HitOf(old(store)[key])) else None
    {
      hit := None;
      if key in store {
        if store[key].expires > now {
          hit := Some(Hit(store[key].status, store[key].headers, store[key].body));
        } else {
          RemoveSize(store, key);
          store := store - {key};
        }
      }
    }

    /** Stores an eligible response, at most once and within the entry cap. `built` is the
        clock read for the expiry, `locked` the one read under the lock for the sweep. */
    method MaybeStore(key: string, path: string, res: JsResponse, idHeader: string, built: nat, locked: nat)
      requires Valid()
      modifies this
      ensures Valid()
      ensures !Eligible(cfg, res) ==> store == old(store)
      ensures Eligible(cfg, res) ==>
        Inserted(cfg, old(store), key, EntryOf(cfg, path, res, idHeader, built), locked, store)
    {
      var status := if res.status.Some? then res.status.value else 200;
      if status != 200 || (res.streamed.Some? && res.streamed.value) { return; }
      var body := if res.body.Some? then res.body.value else [];
      if |body| > cfg.maxBodyBytes { return; }
      var cacheable, headers := StorableHeaders(if res.headers.Some? then res.headers.value else [], idHeader);
      if !cacheable { return; }
      var entry := Entry(path, status, headers, body, built + cfg.ttl);
      Insert(key, entry, locked);
    }

    /** The part under the lock. */
    method Insert(key: string, entry: Entry, now: nat)
      requires Valid()
      modifies this
      ensures Valid() && Inserted(cfg, old(store), key, entry, now, store)
    {
      if |store| >= cfg.maxEntries && key !in store {
        Sweep(now);
      }
      InsertSize(store, key, entry);
      store := store[key := entry];
    }

    /** The header loop: an opt-out keeps the response out, the request id is dropped. */
    method StorableHeaders(pairs: seq<Header>, idHeader: string) returns (ok: bool, headers: seq<Header>)
      ensures ok <==> forall j :: 0 <= j < |pairs| ==> !OptsOut(pairs[j])
      ensures ok ==> headers == Kept(pairs, idHeader)
    {
      headers := [];
      var i := 0;
      while i < |pairs|
        invariant i <= |pairs| && headers == Kept(pairs[..i], idHeader)
        invariant forall j :: 0 <= j < i ==> !OptsOut(pairs[j])
      {
        var name := Lower(pairs[i].0);
        if name == "set-cookie" { return false, []; }
        if name == "cache-control" {
          var v := Lower(pairs[i].1);
          if Contains(v, "no-store") || Contains(v, "private") { return false, []; }
        }
        assert pairs[..i + 1][..i] == pairs[..i];
        if name != idHeader { headers := headers + [(name, pairs[i].1)]; }
        i := i + 1;
      }
      assert pairs[..|pairs|] == pairs;
      ok := true;
    }

    /** The sweep of expired entries; if the cap still holds, one arbitrary entry goes too. */
    method Sweep(now: nat)
      requires Valid() && |store| >= cfg.maxEntries
      modifies this
      ensures |store| < cfg.maxEntries
      ensures |Live(old(store), now)| < cfg.maxEntries ==> store == Live(old(store), now)
      ensures |Live(old(store), now)| >= cfg.maxEntries ==>
                exists victim :: victim in Live(old(store), now) && store == Live(old(store), now) - {victim}
    {
      LiveSize(store, now);
      store := map k | k in store && store[k].expires > now :: store[k];
      if |store| >= cfg.maxEntries {
        assert |store.Keys| == |store|;
        var victim :| victim in store.Keys;
        RemoveSize(store, victim);
        store := store - {victim};
      }
    }

    method Purge(path: Option<string>) returns (removed: nat)
      requires Valid()
      modifies this
      ensures Valid() && store == Purged(old(store), path) && removed == |old(store)| - |store|
    {
      SubKeys(Purged(store, path).Keys, store.Keys);
      if path.None? {
        removed := |store|;
        store := map[];
        return;
      }
      var before := |store|;
      store := map k | k in store && store[k].path != path.value :: store[k];
      removed := before - |store|;
    }
  }

  lemma {:induction false} RemoveSize(m: Store, k: string)
    requires k in m
    ensures |m - {k}| == |m| - 1
  {
    assert (m - {k}).Keys == m.Keys - {k};
  }

  lemma {:induction false} InsertSize(m: Store, k: string, e: Entry)
    ensures |m[k := e]| == if k in m then |m| else |m| + 1
  {
    assert m[k := e].Keys == m.Keys + {k};
  }

  /** The cap holds, and what an insert keeps it keeps unaltered. */
  lemma {:induction false} InsertWithinCap(cfg: Config, m: Store, key: string, e: Entry, now: nat, m': Store)
    requires cfg.maxEntries >= 1 && |m| <= cfg.maxEntries && Inserted(cfg, m, key, e, now, m')
    ensures |m'| <= cfg.maxEntries && key in m' && m'[key] == e
    ensures forall k :: k in m' && k != key ==> k in m && m'[k] == m[k]
  {
    if |m| < cfg.maxEntries || key in m {
      InsertSize(m, key, e);
    } else if |Live(m, now)| < cfg.maxEntries {
      InsertSize(Live(m, now), key, e);
    } else {
      LiveSize(m, now);
      var victim :| victim in Live(m, now) && m' == (Live(m, now) - {victim})[key := e];
      RemoveSize(Live(m, now), victim);
      InsertSize(Live(m, now) - {victim}, key, e);
    }
  }

  function Lost(m: Store, key: string, now: nat, m': Store): set<string> {
    set k | k in m && k != key && m[k].expires > now && k !in m'
  }

  /** No place for `key` without giving up an unexpired entry. */
  ghost predicate Crowded(cfg: Config, m: Store, key: string, now: nat) {
    key !in m && |m| >= cfg.maxEntries && forall k :: k in m ==> m[k].expires > now
  }

  /** An insert costs an unexpired entry exactly when the map is full of unexpired ones, and
      then exactly one. */
  lemma {:induction false} InsertDiscards(cfg: Config, m: Store, key: string, e: Entry, now: nat, m': Store)
    requires cfg.maxEntries >= 1 && |m| <= cfg.maxEntries && Inserted(cfg, m, key, e, now, m')
    ensures |Lost(m, key, now, m')| == if Crowded(cfg, m, key, now) then 1 else 0
  {
    LiveSize(m, now);
    if |m| < cfg.maxEntries || key in m || |Live(m, now)| < cfg.maxEntries {
      assert Lost(m, key, now, m') == {};
    } else {
      var victim :| victim in Live(m, now) && m' == (Live(m, now) - {victim})[key := e];
      assert Lost(m, key, now, m') == {victim};
    }
  }
}
