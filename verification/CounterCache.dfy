/** The write-behind counter cache: its local tables, what each critical section
    does to them, and the class whose methods are those critical sections.

    A method that the source runs under the cache mutex is one atomic change of
    `Cache`; CounterCacheProtocol interleaves them with the store rounds that
    run unlocked. All times are unix nanoseconds. */
module CounterCache {

  type Key = string

  const MAX_COUNTER_ENTRIES: nat := 0x2_0000
  const MAX_FLUSH_WORKERS: nat := 8
  const MAX_FLUSH_QUEUE: nat := 0x4000
  const SECOND: nat := 1_000_000_000
  const MIN_COUNTER_WINDOW: nat := SECOND

  /** `pending` holds increments that are counted in `n` but not queued for the store. */
  datatype Entry = Entry(n: int, expires: int, pending: nat)

  /** Unpushed shared-store work of a key. `del` is a pending Forget. */
  datatype Dirty = Dirty(delta: nat, deadline: int, del: bool)

  datatype Cache = Cache(
    m: map<Key, Entry>,
    dirty: map<Key, Dirty>,
    queue: seq<Key>,
    workers: nat,
    nextRoomSweep: int)

  const EMPTY_CACHE := Cache(map[], map[], [], 0, 0)

  // ---------- what the critical sections compute ----------

  /** One op folded into a key that is already dirty. */
  function FoldOp(d: Dirty, deadline: int, del: bool): Dirty {
    if del then d.(del := true, delta := 0)
    else if d.deadline != deadline then d.(delta := 1, deadline := deadline)
    else d.(delta := d.delta + 1)
  }

  /** The drainer count after work was queued, and whether a drainer must start. */
  function Hire(c: Cache): (Cache, bool) {
    if c.workers < MAX_FLUSH_WORKERS then (c.(workers := c.workers + 1), true) else (c, false)
  }

  function MarkDirty(c: Cache, key: Key, deadline: int, del: bool): (Cache, bool)
    requires !del ==> key in c.m
  {
    if key in c.dirty then
      (c.(dirty := c.dirty[key := FoldOp(c.dirty[key], deadline, del)]), false)
    else if |c.queue| >= MAX_FLUSH_QUEUE then
      (c, false)
    else if del then
      Hire(c.(dirty := c.dirty[key := Dirty(0, deadline, true)], queue := c.queue + [key]))
    else
      Hire(c.(dirty := c.dirty[key := Dirty(c.m[key].pending, deadline, false)],
              m := c.m[key := c.m[key].(pending := 0)],
              queue := c.queue + [key]))
  }

  /** An entry the room sweep may not take: live unpushed work, or an owner. */
  predicate Protected(c: Cache, key: Key, now: int)
    requires key in c.m
  {
    (c.m[key].pending != 0 && now < c.m[key].expires) || key in c.dirty
  }

  function Sweep(c: Cache, now: int): map<Key, Entry> {
    map k | k in c.m && Protected(c, k, now) :: c.m[k]
  }

  function MakeRoom(c: Cache, now: int): (Cache, bool) {
    if |c.m| < MAX_COUNTER_ENTRIES then (c, true)
    else if now < c.nextRoomSweep then (c, false)
    else (c.(m := Sweep(c, now), nextRoomSweep := now + SECOND), |Sweep(c, now)| < MAX_COUNTER_ENTRIES)
  }

  /** A counted bump, or a key shed to the overflow sketch. */
  datatype IncrResult = Counted(n: int, spawn: bool) | Shed

  /** Counts one event in the entry `e` of `key` and queues it. */
  function Bump(c: Cache, key: Key, e: Entry): (Cache, IncrResult) {
    var e' := e.(n := e.n + 1, pending := if key in c.dirty then e.pending else e.pending + 1);
    var (c', spawn) := MarkDirty(c.(m := c.m[key := e']), key, e.expires, false);
    (c', Counted(e.n + 1, spawn))
  }

  function Window(ttl: int): int {
    if ttl <= 0 then MIN_COUNTER_WINDOW else ttl
  }

  /** `read` is the clock read before the lock is taken, `now` the one read under it. */
  function Incr(c: Cache, key: Key, ttl: int, read: int, now: int): (Cache, IncrResult) {
    if key in c.m && read < c.m[key].expires then
      Bump(c, key, c.m[key])
    else if key in c.m then
      Bump(c, key, Entry(0, read + Window(ttl), 0))
    else
      var (c1, room) := MakeRoom(c, now);
      if room then Bump(c1, key, Entry(0, read + Window(ttl), 0)) else (c1, Shed)
  }

  function Forget(c: Cache, key: Key): (Cache, bool) {
    MarkDirty(c.(m := c.m - {key}), key, 0, true)
  }

  function Release(c: Cache, key: Key): (Cache, bool) {
    if key !in c.dirty then (c, false)
    else if c.dirty[key].delta == 0 && !c.dirty[key].del then (c.(dirty := c.dirty - {key}), false)
    else Hire(c.(queue := c.queue + [key]))
  }

  /** What the owner of a key does next. */
  datatype FlushAction = Gone | Delete | Released(spawn: bool) | Again | Push(delta: nat, deadline: int)

  /** One locked section at the top of the flush loop of `key`. */
  function FlushStep(c: Cache, key: Key, now: int): (Cache, FlushAction) {
    if key !in c.dirty then (c, Gone)
    else
      var d := c.dirty[key];
      if d.del then (c.(dirty := c.dirty[key := d.(del := false)]), Delete)
      else if d.delta == 0 then var (c', spawn) := Release(c, key); (c', Released(spawn))
      else if d.deadline != 0 && now >= d.deadline then (c.(dirty := c.dirty[key := d.(delta := 0)]), Again)
      else (c.(dirty := c.dirty[key := d.(delta := 0)]), Push(d.delta, d.deadline))
  }

  function Preserve(c: Cache, key: Key, claimed: nat, deadline: int): (Cache, bool) {
    if key !in c.dirty then (c, false)
    else if c.dirty[key].del then Release(c, key)
    else
      var d := c.dirty[key];
      var m' :=
        if key in c.m then
          var e := c.m[key];
          c.m[key := e.(pending := e.pending
            + (if e.expires == deadline then claimed else 0)
            + (if d.delta > 0 && e.expires == d.deadline then d.delta else 0))]
        else c.m;
      (c.(m := m', dirty := c.dirty - {key}), false)
  }

  /** Adopts the store's total for the window that was pushed. */
  function Merge(c: Cache, key: Key, deadline: int, shared: int, now: int): Cache {
    if key in c.m && c.m[key].expires == deadline && now < c.m[key].expires && shared > c.m[key].n
    then c.(m := c.m[key := c.m[key].(n := shared)])
    else c
  }

  /** A key whose parked delta the shutdown flush queues. */
  predicate Parked(c: Cache, key: Key, now: int) {
    key in c.m && c.m[key].pending != 0 && now < c.m[key].expires && key !in c.dirty
  }

  /** `order` lists the parked keys in the order the map iteration met them. */
  ghost predicate ParkedOrder(c: Cache, order: seq<Key>, now: int) {
    && (forall k :: k in order <==> Parked(c, k, now))
    && (forall i, j :: 0 <= i < j < |order| ==> order[i] != order[j])
  }

  function Promote(c: Cache, order: seq<Key>): Cache {
    var c1 := Requeue(c, order);
    c1.(workers := Max(c1.workers, Min(MAX_FLUSH_WORKERS, |c1.queue|)))
  }

  function Requeue(c: Cache, order: seq<Key>): Cache {
    c.(m := map k | k in c.m :: if k in order then c.m[k].(pending := 0) else c.m[k],
       dirty := c.dirty + map k | k in order && k in c.m :: Dirty(c.m[k].pending, c.m[k].expires, false),
       queue := c.queue + order)
  }

  function Min(a: int, b: int): int { if a <= b then a else b }
  function Max(a: int, b: int): int { if a >= b then a else b }

  /** The keys that still hold live unpushed deltas, as Flush reports them. */
  function Unpushed(c: Cache, now: int): set<Key> {
    set k | k in c.m && c.m[k].pending > 0 && now < c.m[k].expires
  }

  // ---------- the class ----------

  class CounterCache {
    var m: map<Key, Entry>
    var dirty: map<Key, Dirty>
    var queue: seq<Key>
    var workers: nat
    var nextRoomSweep: int

    ghost function State(): Cache
      reads this
    {
      Cache(m, dirty, queue, workers, nextRoomSweep)
    }

    constructor ()
      ensures State() == EMPTY_CACHE
    {
      m, dirty, queue, workers, nextRoomSweep := map[], map[], [], 0, 0;
    }

    method HireLocked() returns (spawn: bool)
      modifies this
      ensures (State(), spawn) == Hire(old(State()))
    {
      spawn := workers < MAX_FLUSH_WORKERS;
      if spawn { workers := workers + 1; }
    }

    method MarkDirtyLocked(key: Key, deadline: int, del: bool) returns (spawn: bool)
      requires !del ==> key in m
      modifies this
      ensures (State(), spawn) == MarkDirty(old(State()), key, deadline, del)
    {
      if key in dirty {
        dirty := dirty[key := FoldOp(dirty[key], deadline, del)];
        return false;
      }
      if |queue| >= MAX_FLUSH_QUEUE { return false; }
      var d := Dirty(0, deadline, del);
      if !del {
        var e := m[key];
        d := d.(delta := e.pending);
        m := m[key := e.(pending := 0)];
      }
      dirty := dirty[key := d];
      queue := queue + [key];
      spawn := HireLocked();
    }

    method MakeCounterRoomLocked(now: int) returns (ok: bool)
      modifies this
      ensures (State(), ok) == MakeRoom(old(State()), now)
    {
      if |m| < MAX_COUNTER_ENTRIES { return true; }
      if now < nextRoomSweep { return false; }
      nextRoomSweep := now + SECOND;
      var rest := m.Keys;
      while rest != {}
        invariant rest <= old(m).Keys
        invariant m == map k | k in old(m) && (k in rest || Protected(old(State()), k, now)) :: old(m)[k]
        invariant dirty == old(dirty) && queue == old(queue) && workers == old(workers)
        invariant nextRoomSweep == now + SECOND
        decreases |rest|
      {
        var key :| key in rest;
        rest := rest - {key};
        if m[key].pending == 0 || now >= m[key].expires {
          if key !in dirty { m := m - {key}; }
        }
      }
      assert m == Sweep(old(State()), now);
      return |m| < MAX_COUNTER_ENTRIES;
    }

    /** The overflow branch is left to the sketch: the caller counts there on `Shed`. */
    method IncrLocked(key: Key, ttl: int, read: int, now: int) returns (r: IncrResult)
      modifies this
      ensures (State(), r) == Incr(old(State()), key, ttl, read, now)
    {
      var window := if ttl <= 0 then MIN_COUNTER_WINDOW else ttl;
      var e: Entry;
      if key in m && read < m[key].expires {
        e := m[key];
      } else {
        if key in m {
          m := m - {key};
        } else {
          var ok := MakeCounterRoomLocked(now);
          if !ok { return Shed; }
        }
        e := Entry(0, read + window, 0);
      }
      e := e.(n := e.n + 1);
      if key !in dirty { e := e.(pending := e.pending + 1); }
      m := m[key := e];
      assert key in old(m) ==> m == old(m)[key := e];
      var spawn := MarkDirtyLocked(key, e.expires, false);
      r := Counted(e.n, spawn);
    }

    method ForgetLocked(key: Key) returns (spawn: bool)
      modifies this
      ensures (State(), spawn) == Forget(old(State()), key)
    {
      m := m - {key};
      spawn := MarkDirtyLocked(key, 0, true);
    }

    method ReleaseLocked(key: Key) returns (spawn: bool)
      modifies this
      ensures (State(), spawn) == Release(old(State()), key)
    {
      if key !in dirty { return false; }
      if dirty[key].delta == 0 && !dirty[key].del {
        dirty := dirty - {key};
        return false;
      }
      queue := queue + [key];
      spawn := HireLocked();
    }

    /** Drain's locked section: take the next key, or retire the drainer. */
    method NextLocked() returns (key: Key, found: bool)
      requires workers > 0
      modifies this
      ensures found == (old(queue) != [])
      ensures found ==> key == old(queue)[0] && State() == old(State()).(queue := old(queue)[1..])
      ensures !found ==> State() == old(State()).(workers := old(workers) - 1)
    {
      if |queue| == 0 {
        workers := workers - 1;
        return "", false;
      }
      key, found := queue[0], true;
      queue := queue[1..];
    }

    method FlushStepLocked(key: Key, now: int) returns (a: FlushAction)
      modifies this
      ensures (State(), a) == FlushStep(old(State()), key, now)
    {
      if key !in dirty { return Gone; }
      var d := dirty[key];
      if d.del {
        dirty := dirty[key := d.(del := false)];
        return Delete;
      }
      if d.delta == 0 {
        var spawn := ReleaseLocked(key);
        return Released(spawn);
      }
      dirty := dirty[key := d.(delta := 0)];
      if d.deadline != 0 && now >= d.deadline { return Again; }
      return Push(d.delta, d.deadline);
    }

    method PreserveFailedIncr(key: Key, claimed: nat, deadline: int) returns (spawn: bool)
      modifies this
      ensures (State(), spawn) == Preserve(old(State()), key, claimed, deadline)
    {
      if key !in dirty { return false; }
      var d := dirty[key];
      if d.del {
        spawn := ReleaseLocked(key);
        return;
      }
      if key in m {
        var e := m[key];
        if e.expires == deadline { e := e.(pending := e.pending + claimed); }
        if d.delta > 0 && e.expires == d.deadline { e := e.(pending := e.pending + d.delta); }
        m := m[key := e];
      }
      dirty := dirty - {key};
      spawn := false;
    }

    method MergeLocked(key: Key, deadline: int, shared: int, now: int)
      modifies this
      ensures State() == Merge(old(State()), key, deadline, shared, now)
    {
      if key in m && m[key].expires == deadline && now < m[key].expires && shared > m[key].n {
        m := m[key := m[key].(n := shared)];
      }
    }

    /** The queueing half of Flush's first locked section. */
    method RequeueParkedLocked(now: int) returns (ghost order: seq<Key>)
      modifies this
      ensures ParkedOrder(old(State()), order, now)
      ensures State() == Requeue(old(State()), order)
    {
      var rest := m.Keys;
      ghost var c0 := State();
      order := [];
      RequeueNothing(c0);
      while rest != {}
        invariant rest <= c0.m.Keys
        invariant State() == Requeue(c0, order)
        invariant forall k :: k in order <==> k !in rest && Parked(c0, k, now)
        invariant forall i, j :: 0 <= i < j < |order| ==> order[i] != order[j]
        decreases |rest|
      {
        var key :| key in rest;
        RequeueFrame(c0, order, key);
        if m[key].pending != 0 && now < m[key].expires && key !in dirty {
          RequeueOneMore(c0, order, key);
          dirty := dirty[key := Dirty(m[key].pending, m[key].expires, false)];
          m := m[key := m[key].(pending := 0)];
          queue := queue + [key];
          order := order + [key];
        }
        rest := rest - {key};
      }
    }

    /** Flush's first locked section. `order` is the order in which keys were queued. */
    method PromoteLocked(now: int) returns (ghost order: seq<Key>, spawn: nat)
      modifies this
      ensures ParkedOrder(old(State()), order, now)
      ensures State() == Promote(old(State()), order)
      ensures workers == old(workers) + spawn
    {
      order := RequeueParkedLocked(now);
      spawn := 0;
      ghost var c1 := State();
      while workers < MAX_FLUSH_WORKERS && workers < |queue|
        invariant workers == c1.workers + spawn
        invariant workers == c1.workers || workers <= Min(MAX_FLUSH_WORKERS, |queue|)
        invariant State() == c1.(workers := workers)
        decreases MAX_FLUSH_WORKERS - workers
      {
        workers := workers + 1;
        spawn := spawn + 1;
      }
    }

    /** Flush's last locked section. */
    method CountUnpushed(now: int) returns (left: nat)
      ensures left == |Unpushed(State(), now)|
      ensures left == 0 <==> forall k | k in m :: m[k].pending == 0 || now >= m[k].expires
    {
      left := CountPending(m, now);
      ghost var all := Unpushed(State(), now);
      assert all == set k | k in m && Pushable(m, k, now);
      if left == 0 {
        forall k | k in m ensures m[k].pending == 0 || now >= m[k].expires { assert k !in all; }
      } else {
        ghost var k :| k in all;
      }
    }
  }

  predicate Pushable(m: map<Key, Entry>, k: Key, now: int)
    requires k in m
  {
    m[k].pending > 0 && now < m[k].expires
  }

  method CountPending(m: map<Key, Entry>, now: int) returns (left: nat)
    ensures left == |set k | k in m && Pushable(m, k, now)|
  {
    hide Pushable;
    left := 0;
    ghost var counted: set<Key> := {};
    var rest := m.Keys;
    while rest != {}
      invariant rest <= m.Keys && left == |counted|
      invariant forall k :: k in counted <==> k in m && k !in rest && Pushable(m, k, now)
      decreases |rest|
    {
      var key :| key in rest;
      rest := rest - {key};
      if Pushable(m, key, now) {
        counted := counted + {key};
        left := left + 1;
      }
    }
    assert counted == set k | k in m && Pushable(m, k, now);
  }

  lemma RequeueNothing(c: Cache)
    ensures Requeue(c, []) == c
  {
    assert (map k | k in [] && k in c.m :: Dirty(c.m[k].pending, c.m[k].expires, false)) == map[];
  }

  lemma RequeueFrame(c: Cache, order: seq<Key>, key: Key)
    requires key in c.m && key !in order
    ensures var c' := Requeue(c, order);
            key in c'.m && c'.m[key] == c.m[key] && (key in c'.dirty <==> key in c.dirty)
  {
  }

  lemma RequeueOneMore(c: Cache, order: seq<Key>, key: Key)
    requires key in c.m && key !in order
    ensures var c' := Requeue(c, order);
            Requeue(c, order + [key]) ==
              c'.(m := c'.m[key := c.m[key].(pending := 0)],
                  dirty := c'.dirty[key := Dirty(c.m[key].pending, c.m[key].expires, false)],
                  queue := c'.queue + [key])
  {
    assert forall k :: k in order + [key] <==> k in order || k == key;
    assert c.queue + (order + [key]) == (c.queue + order) + [key];
  }
}
