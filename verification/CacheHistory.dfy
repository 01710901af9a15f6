/** The cache over whole histories of stores, lookups and purges. */
module CacheHistory {
  import opened Common
  import opened ResponseCache

  /** `time`: the clock read under the lock. A store's expiry uses the earlier `built`. */
  datatype Op =
    | StoreOp(key: string, path: string, res: JsResponse, idHeader: string, built: nat, time: nat)
    | LookupOp(key: string, time: nat)
    | PurgeOp(target: Option<string>, time: nat)

  ghost predicate Stores(cfg: Config, op: Op) { op.StoreOp? && Eligible(cfg, op.res) }

  function Stored(cfg: Config, op: Op): Entry
    requires op.StoreOp?
  {
    EntryOf(cfg, op.path, op.res, op.idHeader, op.built)
  }

  /** One operation on the cache; eviction picks any victim. */
  ghost predicate Next(cfg: Config, m: Store, op: Op, m': Store) {
    match op
    case StoreOp(key, _, _, _, _, time) =>
      if Stores(cfg, op) then Inserted(cfg, m, key, Stored(cfg, op), time, m') else m' == m
    case LookupOp(key, time) => m' == Looked(m, key, time)
    case PurgeOp(target, _) => m' == Purged(m, target)
  }

  ghost predicate Run(cfg: Config, tr: seq<Store>, ops: seq<Op>) {
    && cfg.maxEntries >= 1 && |tr| == |ops| + 1 && tr[0] == map[]
    && forall i {:trigger ops[i]} :: 0 <= i < |ops| ==> Next(cfg, tr[i], ops[i], tr[i + 1])
  }

  /** The unbounded map: nothing expires from it and nothing is evicted. */
  ghost function Ideal(cfg: Config, ops: seq<Op>): Store {
    if ops == [] then map[] else IdealStep(cfg, Ideal(cfg, ops[..|ops| - 1]), ops[|ops| - 1])
  }

  ghost function IdealStep(cfg: Config, m: Store, op: Op): Store {
    if Stores(cfg, op) then m[op.key := Stored(cfg, op)]
    else if op.PurgeOp? then Purged(m, op.target)
    else m
  }

  lemma {:induction false} IdealSnoc(cfg: Config, ops: seq<Op>, i: nat)
    requires i < |ops|
    ensures Ideal(cfg, ops[..i + 1]) == IdealStep(cfg, Ideal(cfg, ops[..i]), ops[i])
  {
    assert ops[..i + 1][..i] == ops[..i] && ops[..i + 1][i] == ops[i];
  }

  ghost predicate PurgedBy(op: Op, path: string) { op.PurgeOp? && (op.target.None? || op.target.value == path) }

  /** Operation `i` is the latest eligible store for `key`, not purged since. */
  ghost predicate Latest(cfg: Config, ops: seq<Op>, key: string, i: int) {
    && 0 <= i < |ops| && Stores(cfg, ops[i]) && ops[i].key == key
    && forall j :: i < j < |ops| ==> !(Stores(cfg, ops[j]) && ops[j].key == key) && !PurgedBy(ops[j], ops[i].path)
  }

  /** The unbounded map holds exactly the latest unpurged store of each key. */
  lemma {:induction false} IdealIsLatest(cfg: Config, ops: seq<Op>, key: string)
    ensures key in Ideal(cfg, ops) <==> exists i :: Latest(cfg, ops, key, i)
    ensures forall i :: Latest(cfg, ops, key, i) ==>
      key in Ideal(cfg, ops) && Ideal(cfg, ops)[key] == Stored(cfg, ops[i])
  {
    if ops != [] {
      var n := |ops| - 1;
      IdealIsLatest(cfg, ops[..n], key);
      if Stores(cfg, ops[n]) && ops[n].key == key {
        assert Latest(cfg, ops, key, n);
        assert forall i :: Latest(cfg, ops, key, i) ==> !(i < n);
      } else {
        LatestKept(cfg, ops, key);
      }
    }
  }

  /** An operation that does not store `key` only matters if it purges the entry. */
  lemma {:induction false} LatestKept(cfg: Config, ops: seq<Op>, key: string)
    requires ops != [] && !(Stores(cfg, ops[|ops| - 1]) && ops[|ops| - 1].key == key)
    requires var before := ops[..|ops| - 1];
      && (key in Ideal(cfg, before) <==> exists i :: Latest(cfg, before, key, i))
      && forall i :: Latest(cfg, before, key, i) ==>
        key in Ideal(cfg, before) && Ideal(cfg, before)[key] == Stored(cfg, before[i])
    ensures key in Ideal(cfg, ops) <==> exists i :: Latest(cfg, ops, key, i)
    ensures forall i :: Latest(cfg, ops, key, i) ==>
      key in Ideal(cfg, ops) && Ideal(cfg, ops)[key] == Stored(cfg, ops[i])
  {
    var n := |ops| - 1;
    var before, op := ops[..n], ops[n];
    forall i ensures Latest(cfg, ops, key, i) <==> Latest(cfg, before, key, i) && !PurgedBy(op, before[i].path) {
      LatestSnoc(cfg, ops, key, i);
    }
    if key in Ideal(cfg, before) {
      var i :| Latest(cfg, before, key, i);
      assert Ideal(cfg, before)[key].path == before[i].path;
      assert key in Ideal(cfg, ops) <==> !PurgedBy(op, before[i].path);
    }
  }

  lemma {:induction false} LatestSnoc(cfg: Config, ops: seq<Op>, key: string, i: int)
    requires ops != [] && !(Stores(cfg, ops[|ops| - 1]) && ops[|ops| - 1].key == key)
    ensures var n := |ops| - 1;
            Latest(cfg, ops, key, i) <==> Latest(cfg, ops[..n], key, i) && !PurgedBy(ops[n], ops[..n][i].path)
  {
    var n := |ops| - 1;
    var before := ops[..n];
    if Latest(cfg, before, key, i) && !PurgedBy(ops[n], before[i].path) {
      forall j | i < j < |ops| ensures !(Stores(cfg, ops[j]) && ops[j].key == key) && !PurgedBy(ops[j], ops[i].path) {
        if j < n { assert ops[j] == before[j]; }
      }
    }
    if Latest(cfg, ops, key, i) {
      assert forall j :: i < j < n ==> before[j] == ops[j];
    }
  }

  ghost predicate SubMap(m: Store, ideal: Store) { forall k :: k in m ==> k in ideal && m[k] == ideal[k] }

  lemma {:induction false} SimulationStep(cfg: Config, m: Store, op: Op, m': Store, ideal: Store)
    requires cfg.maxEntries >= 1 && |m| <= cfg.maxEntries && Next(cfg, m, op, m') && SubMap(m, ideal)
    ensures |m'| <= cfg.maxEntries
    ensures SubMap(m', IdealStep(cfg, ideal, op))
  {
    if Stores(cfg, op) {
      InsertWithinCap(cfg, m, op.key, Stored(cfg, op), op.time, m');
    } else {
      SubKeys(m'.Keys, m.Keys);
    }
  }

  /** The cap holds forever and the cache never contradicts the unbounded map. */
  lemma {:induction false} SimulatesUnbounded(cfg: Config, tr: seq<Store>, ops: seq<Op>, i: nat)
    requires Run(cfg, tr, ops) && i < |tr|
    ensures |tr[i]| <= cfg.maxEntries && SubMap(tr[i], Ideal(cfg, ops[..i]))
  {
    if i > 0 {
      SimulatesUnbounded(cfg, tr, ops, i - 1);
      IdealSnoc(cfg, ops, i - 1);
      SimulationStep(cfg, tr[i - 1], ops[i - 1], tr[i], Ideal(cfg, ops[..i - 1]));
    }
  }

  /** A hit is the latest eligible store for its key, younger than `ttl`, unpurged since. */
  lemma {:induction false} HitIsLatestStore(cfg: Config, tr: seq<Store>, ops: seq<Op>, key: string, now: nat)
    requires Run(cfg, tr, ops) && key in tr[|ops|] && tr[|ops|][key].expires > now
    ensures exists i :: Latest(cfg, ops, key, i)
              && HitOf(tr[|ops|][key]) == HitOf(Stored(cfg, ops[i])) && now < ops[i].built + cfg.ttl
  {
    SimulatesUnbounded(cfg, tr, ops, |ops|);
    assert ops[..|ops|] == ops;
    IdealIsLatest(cfg, ops, key);
  }

  /** The clock read under the lock never goes back. */
  ghost predicate Monotone(ops: seq<Op>) { forall i, j :: 0 <= i <= j < |ops| ==> ops[i].time <= ops[j].time }

  /** Nothing unexpired at `now` is missing. */
  ghost predicate Complete(m: Store, ideal: Store, now: nat) {
    forall k :: k in ideal && ideal[k].expires > now ==> k in m && m[k] == ideal[k]
  }

  lemma {:induction false} CompleteStep(cfg: Config, m: Store, op: Op, m': Store, ideal: Store, now: nat)
    requires Next(cfg, m, op, m') && Complete(m, ideal, op.time) && op.time <= now
    requires Stores(cfg, op) ==> !Crowded(cfg, m, op.key, op.time)
    requires SubMap(m, ideal) && |m| <= cfg.maxEntries
    ensures Complete(m', IdealStep(cfg, ideal, op), now)
  {
    if Stores(cfg, op) { LiveSize(m, op.time); }
  }

  lemma {:induction false} KeptMember(pairs: seq<Header>, idHeader: string, h: Header)
    requires h in Kept(pairs, idHeader)
    ensures exists i :: 0 <= i < |pairs| && h == (Lower(pairs[i].0), pairs[i].1) && h.0 != idHeader
  {
    var n := |pairs| - 1;
    if h in Kept(pairs[..n], idHeader) {
      KeptMember(pairs[..n], idHeader, h);
      var i :| 0 <= i < n && h == (Lower(pairs[..n][i].0), pairs[..n][i].1) && h.0 != idHeader;
      assert h == (Lower(pairs[i].0), pairs[i].1);
    } else {
      assert h == (Lower(pairs[n].0), pairs[n].1);
    }
  }

  /** Nothing private is ever in the cache: whatever was stored, each entry is a 200 within the
      size limit, without cookies and without an opt-out by the handler. */
  lemma {:induction false} NothingPrivateKept(cfg: Config, tr: seq<Store>, ops: seq<Op>, key: string, h: Header)
    requires Run(cfg, tr, ops) && key in tr[|ops|] && h in tr[|ops|][key].headers
    ensures tr[|ops|][key].status == 200 && |tr[|ops|][key].body| <= cfg.maxBodyBytes
    ensures h.0 != "set-cookie"
    ensures h.0 == "cache-control" ==> !Contains(Lower(h.1), "no-store") && !Contains(Lower(h.1), "private")
  {
    SimulatesUnbounded(cfg, tr, ops, |ops|);
    assert ops[..|ops|] == ops;
    IdealIsLatest(cfg, ops, key);
    var i :| Latest(cfg, ops, key, i);
    var pairs := PairsOf(ops[i].res);
    KeptMember(pairs, ops[i].idHeader, h);
    var k :| 0 <= k < |pairs| && h == (Lower(pairs[k].0), pairs[k].1);
    assert !OptsOut(pairs[k]);
  }

  /** Without crowding the bounded cache is exact: it hits precisely when the unbounded map
      holds an unexpired entry, that is, only a full map of unexpired entries costs a hit. */
  lemma {:induction false} ExactUnlessCrowded(cfg: Config, tr: seq<Store>, ops: seq<Op>, i: nat, key: string, now: nat)
    requires Run(cfg, tr, ops) && Monotone(ops) && i < |tr|
    requires forall n :: 0 <= n < i && Stores(cfg, ops[n]) ==> !Crowded(cfg, tr[n], ops[n].key, ops[n].time)
    requires forall n :: 0 <= n < i ==> ops[n].time <= now
    ensures key in tr[i] && tr[i][key].expires > now
       <==> key in Ideal(cfg, ops[..i]) && Ideal(cfg, ops[..i])[key].expires > now
  {
    SimulatesUnbounded(cfg, tr, ops, i);
    CompleteAlong(cfg, tr, ops, i, now);
  }

  lemma {:induction false} CompleteAlong(cfg: Config, tr: seq<Store>, ops: seq<Op>, i: nat, now: nat)
    requires Run(cfg, tr, ops) && Monotone(ops) && i < |tr|
    requires forall n :: 0 <= n < i && Stores(cfg, ops[n]) ==> !Crowded(cfg, tr[n], ops[n].key, ops[n].time)
    requires forall n :: 0 <= n < i ==> ops[n].time <= now
    ensures Complete(tr[i], Ideal(cfg, ops[..i]), now)
  {
    if i > 0 {
      SimulatesUnbounded(cfg, tr, ops, i - 1);
      CompleteAlong(cfg, tr, ops, i - 1, ops[i - 1].time);
      IdealSnoc(cfg, ops, i - 1);
      CompleteStep(cfg, tr[i - 1], ops[i - 1], tr[i], Ideal(cfg, ops[..i - 1]), now);
    }
  }
}
