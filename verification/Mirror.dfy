/** The sharded in-process view of the active blocks, one locked method at a time. */
module Mirror {

  /** Any address type: only equality and the shard hash matter. */
  type Addr = nat

  const MAX_TOMBSTONES: nat := 4096

  /** `expiresAt` is 0 for no expiry; `insertedAt` lets a reconcile spare newer entries. */
  datatype Entry = Entry(reason: string, expiresAt: int, insertedAt: int)

  predicate Expired(e: Entry, now: int) { e.expiresAt != 0 && e.expiresAt <= now }

  /** A shard without the entries that had expired at `now`. */
  function Shed(m: map<Addr, Entry>, now: int): map<Addr, Entry> {
    map a | a in m && !Expired(m[a], now) :: m[a]
  }

  /** The shard after an insert, and whether there was room. */
  function SetIn(m: map<Addr, Entry>, a: Addr, e: Entry, maxPerShard: nat): (map<Addr, Entry>, bool) {
    if a in m || |m| < maxPerShard then (m[a := e], true)
    else if |Shed(m, e.insertedAt)| < maxPerShard then (Shed(m, e.insertedAt)[a := e], true)
    else (Shed(m, e.insertedAt), false)
  }

  /** A shard without the entries a full scan did not see and that predate it. */
  function SweepIn(m: map<Addr, Entry>, active: map<Addr, Entry>, scanStart: int): map<Addr, Entry> {
    map a | a in m && (a in active || m[a].insertedAt >= scanStart) :: m[a]
  }

  function Vetoes(tombs: map<Addr, int>, a: Addr, scanStart: int): bool { a in tombs && tombs[a] >= scanStart }

  function Prune(tombs: map<Addr, int>, scanStart: int): map<Addr, int> {
    map a | a in tombs && tombs[a] >= scanStart :: tombs[a]
  }

  class Mirror {
    const hash: Addr -> nat
    const shards: array<map<Addr, Entry>>
    const maxPerShard: nat
    var tombs: map<Addr, int>
    var dropped: nat

    ghost predicate Valid()
      reads this, shards
    {
      && shards.Length > 0
      && forall i, a :: 0 <= i < shards.Length && a in shards[i] ==> i == ShardOf(a)
    }

    function ShardOf(a: Addr): (i: nat)
      requires shards.Length > 0
      ensures i < shards.Length
    {
      hash(a) % shards.Length
    }

    function ShardMap(a: Addr): map<Addr, Entry>
      requires shards.Length > 0
      reads shards
    {
      shards[ShardOf(a)]
    }

    constructor (maxEntries: nat, n: nat, hash: Addr -> nat)
      requires n > 0
      ensures Valid() && fresh(shards) && shards.Length == n && tombs == map[]
      ensures forall i :: 0 <= i < n ==> shards[i] == map[]
    {
      this.hash := hash;
      shards := new map<Addr, Entry>[n](_ => map[]);
      maxPerShard := if maxEntries / n < 1 then 1 else maxEntries / n;
      tombs, dropped := map[], 0;
    }

    method Get(a: Addr, now: int) returns (reason: string, found: bool)
      requires Valid()
      ensures found <==> a in ShardMap(a) && !Expired(ShardMap(a)[a], now)
      ensures found ==> reason == ShardMap(a)[a].reason
    {
      var m := shards[ShardOf(a)];
      if a !in m || (m[a].expiresAt != 0 && m[a].expiresAt <= now) { return "", false; }
      return m[a].reason, true;
    }

    /** Drops the expired entries of one shard, one after the other. */
    method ShedExpired(i: nat, now: int)
      requires i < shards.Length
      modifies shards
      ensures shards[i] == Shed(old(shards[i]), now)
      ensures forall j :: 0 <= j < shards.Length && j != i ==> shards[j] == old(shards[j])
    {
      var m0 := shards[i];
      var rest := m0.Keys;
      while rest != {}
        invariant rest <= m0.Keys
        invariant shards[i] == map k | k in m0 && (k in rest || !Expired(m0[k], now)) :: m0[k]
        invariant forall j :: 0 <= j < shards.Length && j != i ==> shards[j] == old(shards[j])
        decreases |rest|
      {
        var k :| k in rest;
        rest := rest - {k};
        if m0[k].expiresAt != 0 && m0[k].expiresAt <= now { shards[i] := shards[i] - {k}; }
      }
    }

    method Set(a: Addr, e: Entry) returns (ok: bool)
      requires Valid()
      modifies shards, this`dropped
      ensures Valid()
      ensures (ShardMap(a), ok) == SetIn(old(ShardMap(a)), a, e, maxPerShard)
      ensures forall i :: 0 <= i < shards.Length && i != ShardOf(a) ==> shards[i] == old(shards[i])
      ensures dropped == old(dropped) + (if ok then 0 else 1)
    {
      var i := ShardOf(a);
      if a !in shards[i] && |shards[i]| >= maxPerShard {
        ShedExpired(i, e.insertedAt);
        if |shards[i]| >= maxPerShard {
          dropped := dropped + 1;
          return false;
        }
      }
      shards[i] := shards[i][a := e];
      return true;
    }

    /** The oldest removal before `now`, or `a` itself when there is none. */
    method Oldest(a: Addr, now: int) returns (v: Addr)
      ensures v == a || (v in tombs && tombs[v] < now)
      ensures forall b | b in tombs && tombs[b] < now :: v in tombs && tombs[v] <= tombs[b]
    {
      var oldest := now;
      v := a;
      var rest := tombs.Keys;
      while rest != {}
        invariant rest <= tombs.Keys
        invariant oldest <= now && forall b | b in tombs && b !in rest :: oldest <= tombs[b]
        invariant (v == a && oldest == now) || (v in tombs && oldest == tombs[v] < now)
        decreases |rest|
      {
        var k :| k in rest;
        rest := rest - {k};
        if tombs[k] < oldest { v, oldest := k, tombs[k]; }
      }
    }

    /** Past the cap the oldest removal makes room. */
    method Remove(a: Addr, now: int) returns (ghost evicted: set<Addr>)
      requires Valid()
      modifies shards, this`tombs
      ensures Valid()
      ensures ShardMap(a) == old(ShardMap(a)) - {a}
      ensures forall i :: 0 <= i < shards.Length && i != ShardOf(a) ==> shards[i] == old(shards[i])
      ensures tombs == (old(tombs) - evicted)[a := now]
      ensures |old(tombs)| < MAX_TOMBSTONES ==> evicted == {}
      ensures forall v, b | v in evicted && b in old(tombs) && old(tombs)[b] < now :: v in old(tombs) && old(tombs)[v] <= old(tombs)[b]
    {
      var i := ShardOf(a);
      shards[i] := shards[i] - {a};
      evicted := Bury(a, now);
    }

    method Bury(a: Addr, now: int) returns (ghost evicted: set<Addr>)
      modifies this`tombs
      ensures tombs == (old(tombs) - evicted)[a := now]
      ensures |old(tombs)| < MAX_TOMBSTONES ==> evicted == {}
      ensures forall v, b | v in evicted && b in old(tombs) && old(tombs)[b] < now :: v in old(tombs) && old(tombs)[v] <= old(tombs)[b]
    {
      evicted := {};
      if |tombs| >= MAX_TOMBSTONES {
        var v := Oldest(a, now);
        evicted := {v};
        tombs := tombs - {v};
      }
      tombs := tombs[a := now];
    }

    method RemovedSince(a: Addr, scanStart: int) returns (removed: bool)
      modifies this`tombs
      ensures removed == Vetoes(old(tombs), a, scanStart)
      ensures tombs == if a in old(tombs) && old(tombs)[a] < scanStart then old(tombs) - {a} else old(tombs)
    {
      if a in tombs && tombs[a] < scanStart {
        tombs := tombs - {a};
        return false;
      }
      return a in tombs;
    }

    method PruneTombstones(scanStart: int)
      modifies this`tombs
      ensures tombs == Prune(old(tombs), scanStart)
    {
      var all := tombs;
      var rest := tombs.Keys;
      while rest != {}
        invariant rest <= all.Keys
        invariant tombs == map k | k in all && (k in rest || all[k] >= scanStart) :: all[k]
        decreases |rest|
      {
        var k :| k in rest;
        rest := rest - {k};
        if all[k] < scanStart { tombs := tombs - {k}; }
      }
    }

    method SweepShard(i: nat, active: map<Addr, Entry>, scanStart: int)
      requires Valid() && i < shards.Length
      modifies shards
      ensures Valid() && shards[i] == SweepIn(old(shards[i]), active, scanStart)
      ensures forall j :: 0 <= j < shards.Length && j != i ==> shards[j] == old(shards[j])
    {
      var m0 := shards[i];
      var rest := m0.Keys;
      while rest != {}
        invariant rest <= m0.Keys
        invariant shards[i] == map k | k in m0 && (k in rest || k in active || m0[k].insertedAt >= scanStart) :: m0[k]
        invariant forall j :: 0 <= j < shards.Length && j != i ==> shards[j] == old(shards[j])
        decreases |rest|
      {
        var k :| k in rest;
        rest := rest - {k};
        if k !in active && m0[k].insertedAt < scanStart { shards[i] := shards[i] - {k}; }
      }
    }

    method Sweep(active: map<Addr, Entry>, scanStart: int)
      requires Valid()
      modifies shards
      ensures Valid() && forall i :: 0 <= i < shards.Length ==> shards[i] == SweepIn(old(shards[i]), active, scanStart)
    {
      var i := 0;
      while i < shards.Length
        invariant 0 <= i <= shards.Length && Valid()
        invariant forall j :: 0 <= j < i ==> shards[j] == SweepIn(old(shards[j]), active, scanStart)
        invariant forall j :: i <= j < shards.Length ==> shards[j] == old(shards[j])
      {
        SweepShard(i, active, scanStart);
        i := i + 1;
      }
    }

    /** One scanned address: vetoed by a newer removal, or set. */
    method Upsert(a: Addr, e: Entry, scanStart: int) returns (ok: bool)
      requires Valid()
      modifies shards, this`tombs, this`dropped
      ensures Valid()
      ensures forall i :: 0 <= i < shards.Length && i != ShardOf(a) ==> shards[i] == old(shards[i])
      ensures (ShardMap(a), ok) ==
        if Vetoes(old(tombs), a, scanStart) then (old(ShardMap(a)), true) else SetIn(old(ShardMap(a)), a, e, maxPerShard)
      ensures Prune(tombs, scanStart) == Prune(old(tombs), scanStart)
      ensures dropped == old(dropped) + (if ok then 0 else 1)
    {
      var removed := RemovedSince(a, scanStart);
      if removed { return true; }
      ok := Set(a, e);
    }

    /** With nothing interleaved: a reconcile reports complete exactly when it scanned
        everything and found room for all of it, and then every scanned live address
        that was not removed since the scan started is there. A full scan leaves no
        entry that it did not see and that predates it, and takes no other that lives. */
    method Reconcile(active: map<Addr, Entry>, scanStart: int, scannedAll: bool) returns (complete: bool)
      requires Valid()
      requires forall a | a in active :: active[a].insertedAt == scanStart
      modifies shards, this`tombs, this`dropped
      ensures Valid()
      ensures complete <==> scannedAll && dropped == old(dropped)
      ensures complete ==> forall a :: Settled(shards[..], hash, a, active, old(tombs), scanStart)
      ensures scannedAll ==> forall a :: NotStale(shards[..], hash, a, active, scanStart)
      ensures forall a :: Explained(shards[..], old(shards[..]), hash, a, active, old(tombs), scanStart)
      ensures forall a :: NotSwept(shards[..], old(shards[..]), hash, a, active, scanStart, scannedAll)
      ensures tombs == Prune(old(tombs), scanStart)
    {
      hide Settled, Explained, Spared, NotStale, NotSwept, Prune, SweepIn;
      ghost var m0 := shards[..];
      if scannedAll { Sweep(active, scanStart); }
      ghost var swept := shards[..];
      complete := UpsertAll(active, scanStart, scannedAll);
      PruneTombstones(scanStart);
      forall a ensures
        && (scannedAll ==> NotStale(shards[..], hash, a, active, scanStart))
        && Explained(shards[..], m0, hash, a, active, old(tombs), scanStart)
        && NotSwept(shards[..], m0, hash, a, active, scanStart, scannedAll)
      {
        Reconciled(shards[..], swept, m0, hash, a, active, old(tombs), scanStart, scannedAll);
      }
    }

    method UpsertAll(active: map<Addr, Entry>, scanStart: int, scannedAll: bool) returns (complete: bool)
      requires Valid()
      requires forall a | a in active :: active[a].insertedAt == scanStart
      modifies shards, this`tombs, this`dropped
      ensures Valid() && (complete <==> scannedAll && dropped == old(dropped))
      ensures complete ==> forall a :: Settled(shards[..], hash, a, active, old(tombs), scanStart)
      ensures forall a :: Explained(shards[..], old(shards[..]), hash, a, active, old(tombs), scanStart)
      ensures forall a :: Spared(shards[..], old(shards[..]), hash, a, active, scanStart)
      ensures Prune(tombs, scanStart) == Prune(old(tombs), scanStart)
    {
      ghost var m0, tombs0, dropped0 := shards[..], tombs, dropped;
      complete := scannedAll;
      var rest := active.Keys;
      while rest != {}
        invariant Valid() && rest <= active.Keys && dropped >= dropped0 && (complete <==> scannedAll && dropped == dropped0)
        invariant complete ==> forall a :: a !in rest ==> Settled(shards[..], hash, a, active, tombs0, scanStart)
        invariant forall a :: Explained(shards[..], m0, hash, a, active, tombs0, scanStart)
        invariant forall a :: Spared(shards[..], m0, hash, a, active, scanStart)
        invariant Prune(tombs, scanStart) == Prune(tombs0, scanStart)
        decreases |rest|
      {
        ghost var ms, r0 := shards[..], rest;
        var k :| k in rest;
        rest := rest - {k};
        SameVeto(tombs, tombs0, k, scanStart);
        var ok := Upsert(k, active[k], scanStart);
        UpsertOne(ms, shards[..], m0, hash, k, active, tombs0, scanStart, maxPerShard, ok);
        if !ok { complete := false; }
      }
    }
  }

  function Home(ms: seq<map<Addr, Entry>>, hash: Addr -> nat, a: Addr): map<Addr, Entry>
    requires |ms| > 0
  {
    ms[hash(a) % |ms|]
  }

  ghost predicate Settled(ms: seq<map<Addr, Entry>>, hash: Addr -> nat, a: Addr,
                          active: map<Addr, Entry>, tombs: map<Addr, int>, scanStart: int)
    requires |ms| > 0
  {
    a in active && !Vetoes(tombs, a, scanStart) && !Expired(active[a], scanStart) ==>
      a in Home(ms, hash, a) && Home(ms, hash, a)[a] == active[a]
  }

  ghost predicate Explained(ms: seq<map<Addr, Entry>>, m0: seq<map<Addr, Entry>>, hash: Addr -> nat, a: Addr,
                            active: map<Addr, Entry>, tombs: map<Addr, int>, scanStart: int)
    requires |ms| == |m0| > 0
  {
    a in Home(ms, hash, a) ==>
      || (a in active && !Vetoes(tombs, a, scanStart) && Home(ms, hash, a)[a] == active[a])
      || (a in Home(m0, hash, a) && Home(ms, hash, a)[a] == Home(m0, hash, a)[a])
  }

  /** An entry that lives, and is not replaced by one that does not, stays. */
  ghost predicate Spared(ms: seq<map<Addr, Entry>>, m0: seq<map<Addr, Entry>>, hash: Addr -> nat, a: Addr,
                         active: map<Addr, Entry>, scanStart: int)
    requires |ms| == |m0| > 0
  {
    a in Home(m0, hash, a) && !Expired(Home(m0, hash, a)[a], scanStart) && (a in active ==> !Expired(active[a], scanStart)) ==>
      a in Home(ms, hash, a) && (Home(ms, hash, a)[a] == Home(m0, hash, a)[a] || (a in active && Home(ms, hash, a)[a] == active[a]))
  }

  /** The entry was scanned, or is newer than the scan. */
  ghost predicate NotStale(ms: seq<map<Addr, Entry>>, hash: Addr -> nat, a: Addr, active: map<Addr, Entry>, scanStart: int)
    requires |ms| > 0
  {
    a in Home(ms, hash, a) ==> a in active || Home(ms, hash, a)[a].insertedAt >= scanStart
  }

  /** A live entry goes only if a full scan did not see it and it predates the scan. */
  ghost predicate NotSwept(ms: seq<map<Addr, Entry>>, m0: seq<map<Addr, Entry>>, hash: Addr -> nat, a: Addr,
                           active: map<Addr, Entry>, scanStart: int, scannedAll: bool)
    requires |ms| == |m0| > 0
  {
    && a in Home(m0, hash, a) && !Expired(Home(m0, hash, a)[a], scanStart) && (a in active ==> !Expired(active[a], scanStart))
    && (!scannedAll || a in active || Home(m0, hash, a)[a].insertedAt >= scanStart)
    ==> a in Home(ms, hash, a)
  }

  lemma Reconciled(ms: seq<map<Addr, Entry>>, swept: seq<map<Addr, Entry>>, m0: seq<map<Addr, Entry>>, hash: Addr -> nat, a: Addr,
                   active: map<Addr, Entry>, tombs: map<Addr, int>, scanStart: int, scannedAll: bool)
    requires |ms| == |swept| == |m0| > 0 && forall b | b in active :: active[b].insertedAt == scanStart
    requires forall i :: 0 <= i < |m0| ==> swept[i] == if scannedAll then SweepIn(m0[i], active, scanStart) else m0[i]
    requires Explained(ms, swept, hash, a, active, tombs, scanStart) && Spared(ms, swept, hash, a, active, scanStart)
    ensures scannedAll ==> NotStale(ms, hash, a, active, scanStart)
    ensures Explained(ms, m0, hash, a, active, tombs, scanStart)
    ensures NotSwept(ms, m0, hash, a, active, scanStart, scannedAll)
  {
    var i := hash(a) % |m0|;
    assert Home(swept, hash, a) == swept[i] && Home(m0, hash, a) == m0[i];
  }

  lemma SameVeto(t: map<Addr, int>, t0: map<Addr, int>, a: Addr, scanStart: int)
    requires Prune(t, scanStart) == Prune(t0, scanStart)
    ensures Vetoes(t, a, scanStart) == Vetoes(t0, a, scanStart)
  {
    assert Vetoes(t, a, scanStart) == (a in Prune(t, scanStart));
    assert Vetoes(t0, a, scanStart) == (a in Prune(t0, scanStart));
  }

  lemma UpsertOne(ms: seq<map<Addr, Entry>>, ms': seq<map<Addr, Entry>>, m0: seq<map<Addr, Entry>>, hash: Addr -> nat, k: Addr,
                  active: map<Addr, Entry>, tombs: map<Addr, int>, scanStart: int, maxPerShard: nat, ok: bool)
    requires |ms| == |ms'| == |m0| > 0 && k in active
    requires forall a | a in active :: active[a].insertedAt == scanStart
    requires forall i :: 0 <= i < |ms| && i != hash(k) % |ms| ==> ms'[i] == ms[i]
    requires (Home(ms', hash, k), ok) ==
      if Vetoes(tombs, k, scanStart) then (Home(ms, hash, k), true) else SetIn(Home(ms, hash, k), k, active[k], maxPerShard)
    ensures forall a :: Settled(ms, hash, a, active, tombs, scanStart) && a != k ==> Settled(ms', hash, a, active, tombs, scanStart)
    ensures ok ==> Settled(ms', hash, k, active, tombs, scanStart)
    ensures forall a :: Explained(ms, m0, hash, a, active, tombs, scanStart) ==> Explained(ms', m0, hash, a, active, tombs, scanStart)
    ensures forall a :: Spared(ms, m0, hash, a, active, scanStart) ==> Spared(ms', m0, hash, a, active, scanStart)
  {
  }
}
