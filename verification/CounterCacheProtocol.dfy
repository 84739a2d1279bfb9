/** All interleavings of the counter cache: requests, Forget, the shutdown flush,
    the drainers and their unlocked store rounds.

    Every critical section is one event, every store round is a separate event
    with its own outcome. A request reads its clock before it takes the lock, so
    the time it carries may be older than the clock when its event happens.

    The books are kept per slot. A slot is one window of one key between two
    Forgets of that key: `counted` is what requests were told was counted, and
    every count ends as acknowledged by the store, expired, or forgotten. */
module CounterCacheProtocol {
  import opened CounterCache
  import TtlStore

  datatype Slot = Slot(key: Key, deadline: int, epoch: nat)

  /** Where a drain goroutine stands. */
  datatype Drainer =
    | Idle                                   // top of the drain loop
    | Flushing(key: Key)                     // top of the flush loop of `key`
    | Deleting(key: Key)                     // store delete in flight
    | Releasing(key: Key)                    // the delete failed
    | Pushing(slot: Slot, delta: nat)        // store increment in flight
    | Merging(slot: Slot, shared: int)       // the store answered `shared`
    | Preserving(slot: Slot, delta: nat)     // the store round failed

  datatype Ledger = Ledger(
    counted: Slot -> nat,
    acked: Slot -> nat,
    expired: Slot -> nat,
    forgotten: Slot -> nat)

  datatype Sys = Sys(
    clock: int,
    c: Cache,
    drainers: seq<Drainer>,
    epochs: Key -> nat,          // how often each key was forgotten
    store: TtlStore.Store,
    ledger: Ledger)

  datatype PushOutcome = Answered | Lost(landed: bool)

  datatype Event =
    | Tick(elapsed: nat)
    | Request(key: Key, ttl: int, read: int)
    | ForgetKey(key: Key)
    | FlushAll(order: seq<Key>)
    | Take(i: nat)
    | FlushTop(i: nat)
    | DeleteRound(i: nat, ok: bool, landed: bool)
    | GiveUp(i: nat)
    | PushRound(i: nat, outcome: PushOutcome)
    | MergeBack(i: nat)
    | PreserveBack(i: nat)
    | PeerWrite(store: TtlStore.Store)

  predicate HasClaim(d: Drainer) { d.Pushing? || d.Merging? || d.Preserving? }

  // ---------- the places a count can be ----------

  function PendingIn(c: Cache, slot: Slot): nat {
    if slot.key in c.m && c.m[slot.key].expires == slot.deadline then c.m[slot.key].pending else 0
  }

  function DirtyIn(c: Cache, slot: Slot): nat {
    if slot.key in c.dirty && c.dirty[slot.key].deadline == slot.deadline then c.dirty[slot.key].delta else 0
  }

  /** The part of `slot` in the cache tables, when its key is in forget-epoch `epoch`. */
  function LocalAt(c: Cache, epoch: nat, slot: Slot): nat {
    if slot.epoch == epoch then PendingIn(c, slot) + DirtyIn(c, slot) else 0
  }

  function ClaimOf(d: Drainer, slot: Slot): nat {
    if (d.Pushing? || d.Preserving?) && d.slot == slot then d.delta else 0
  }

  function ClaimedAt(ds: seq<Drainer>, slot: Slot): nat {
    if ds == [] then 0 else ClaimedAt(ds[..|ds| - 1], slot) + ClaimOf(ds[|ds| - 1], slot)
  }

  /** Everything still on its way to the store. */
  function Unsettled(s: Sys, slot: Slot): nat {
    LocalAt(s.c, s.epochs(slot.key), slot) + ClaimedAt(s.drainers, slot)
  }

  function Current(s: Sys, key: Key, deadline: int): Slot { Slot(key, deadline, s.epochs(key)) }

  /** The keys held by drainers, each as often as it is held. */
  function KeyOf(d: Drainer): multiset<Key> {
    match d
    case Idle => multiset{}
    case Flushing(k) => multiset{k}
    case Deleting(k) => multiset{k}
    case Releasing(k) => multiset{k}
    case Pushing(slot, _) => multiset{slot.key}
    case Merging(slot, _) => multiset{slot.key}
    case Preserving(slot, _) => multiset{slot.key}
  }

  function HeldBy(ds: seq<Drainer>): multiset<Key> {
    if ds == [] then multiset{} else HeldBy(ds[..|ds| - 1]) + KeyOf(ds[|ds| - 1])
  }

  // ---------- the events ----------

  predicate Enabled(s: Sys, e: Event) {
    match e
    case Tick(_) => true
    case Request(_, _, read) => 0 <= read <= s.clock
    case ForgetKey(_) => true
    case FlushAll(order) =>
      && (forall k | k in order :: Parked(s.c, k, s.clock))
      && (forall k | k in s.c.m :: Parked(s.c, k, s.clock) ==> k in order)
      && (forall a, b :: 0 <= a < b < |order| ==> order[a] != order[b])
    case Take(i) => i < |s.drainers| && s.drainers[i].Idle? && s.c.workers > 0
    case FlushTop(i) => i < |s.drainers| && s.drainers[i].Flushing?
    case DeleteRound(i, _, _) => i < |s.drainers| && s.drainers[i].Deleting?
    case GiveUp(i) => i < |s.drainers| && s.drainers[i].Releasing?
    case PushRound(i, _) => i < |s.drainers| && s.drainers[i].Pushing?
    case MergeBack(i) => i < |s.drainers| && s.drainers[i].Merging?
    case PreserveBack(i) => i < |s.drainers| && s.drainers[i].Preserving?
    case PeerWrite(_) => true
  }

  function Spawn(ds: seq<Drainer>, spawn: bool): seq<Drainer> { if spawn then ds + [Idle] else ds }

  function Idlers(n: nat): seq<Drainer> { seq(n, _ => Idle) }

  /** The counts of `slot` that are unsettled in `s` and no longer in `t`. */
  function Gap(s: Sys, t: Sys, slot: Slot): nat {
    if Unsettled(s, slot) > Unsettled(t, slot) then Unsettled(s, slot) - Unsettled(t, slot) else 0
  }

  function Plus(a: nat, b: nat): nat { a + b }

  function BookExpired(s: Sys, t: Sys): Sys {
    var l := t.ledger;
    t.(ledger := l.(expired := slot => Plus(l.expired(slot), Gap(s, t, slot))))
  }

  function BookForgotten(s: Sys, t: Sys): Sys {
    var l := t.ledger;
    t.(ledger := l.(forgotten := slot => Plus(l.forgotten(slot), Gap(s, t, slot))))
  }

  function BookAcked(t: Sys, claim: Slot, delta: nat): Sys {
    var l := t.ledger;
    t.(ledger := l.(acked := slot => Plus(l.acked(slot), if slot == claim then delta else 0)))
  }

  function BookCounted(t: Sys, bumped: Slot): Sys {
    var l := t.ledger;
    t.(ledger := l.(counted := slot => Plus(l.counted(slot), if slot == bumped then 1 else 0)))
  }

  function ApplyRequest(s: Sys, key: Key, ttl: int, read: int): Sys {
    var (c', r) := Incr(s.c, key, ttl, read, s.clock);
    var t := s.(c := c', drainers := Spawn(s.drainers, r.Counted? && r.spawn));
    var t' := BookExpired(s, t);
    if r.Counted? then BookCounted(t', Current(t, key, c'.m[key].expires)) else t'
  }

  function ApplyForget(s: Sys, key: Key): Sys {
    var (c', spawn) := Forget(s.c, key);
    BookForgotten(s, s.(c := c', drainers := Spawn(s.drainers, spawn),
                        epochs := k => if k == key then s.epochs(k) + 1 else s.epochs(k)))
  }

  function ApplyFlushAll(s: Sys, order: seq<Key>): Sys {
    var c' := Promote(s.c, order);
    s.(c := c', drainers := s.drainers + Idlers(c'.workers - s.c.workers))
  }

  function ApplyTake(s: Sys, i: nat): Sys
    requires Enabled(s, Take(i))
  {
    if s.c.queue == [] then
      s.(c := s.c.(workers := s.c.workers - 1), drainers := s.drainers[..i] + s.drainers[i + 1..])
    else
      s.(c := s.c.(queue := s.c.queue[1..]), drainers := s.drainers[i := Flushing(s.c.queue[0])])
  }

  function ApplyFlushTop(s: Sys, i: nat): Sys
    requires Enabled(s, FlushTop(i))
  {
    var key := s.drainers[i].key;
    var (c', a) := FlushStep(s.c, key, s.clock);
    var t := s.(c := c');
    match a
    case Gone => t.(drainers := s.drainers[i := Idle])
    case Delete => t.(drainers := s.drainers[i := Deleting(key)])
    case Released(spawn) => t.(drainers := Spawn(s.drainers[i := Idle], spawn))
    case Again => BookExpired(s, t)
    case Push(delta, deadline) => t.(drainers := s.drainers[i := Pushing(Current(s, key, deadline), delta)])
  }

  function ApplyDeleteRound(s: Sys, i: nat, ok: bool, landed: bool): Sys
    requires Enabled(s, DeleteRound(i, ok, landed))
  {
    var key := s.drainers[i].key;
    s.(drainers := s.drainers[i := if ok then Flushing(key) else Releasing(key)],
       store := if ok || landed then TtlStore.Drop(s.store, key) else s.store)
  }

  function ApplyGiveUp(s: Sys, i: nat): Sys
    requires Enabled(s, GiveUp(i))
  {
    var (c', spawn) := Release(s.c, s.drainers[i].key);
    s.(c := c', drainers := Spawn(s.drainers[i := Idle], spawn))
  }

  /** A lost round may still have landed in the store; the drainer cannot know. */
  function ApplyPushRound(s: Sys, i: nat, outcome: PushOutcome): Sys
    requires Enabled(s, PushRound(i, outcome))
  {
    var slot, delta := s.drainers[i].slot, s.drainers[i].delta;
    var (st, reply) := TtlStore.IncrByDeadline(TtlStore.View(s.store, s.clock), slot.key, delta, slot.deadline, s.clock);
    if outcome.Lost? || reply.IncrFailed? then
      s.(drainers := s.drainers[i := Preserving(slot, delta)],
         store := if outcome.Lost? && !outcome.landed then s.store else st)
    else if reply.applied then
      BookAcked(s.(drainers := s.drainers[i := Merging(slot, reply.value)], store := st), slot, delta)
    else
      BookExpired(s, s.(drainers := s.drainers[i := Flushing(slot.key)]))
  }

  function ApplyMergeBack(s: Sys, i: nat): Sys
    requires Enabled(s, MergeBack(i))
  {
    var d := s.drainers[i];
    s.(c := Merge(s.c, d.slot.key, d.slot.deadline, d.shared, s.clock),
       drainers := s.drainers[i := Flushing(d.slot.key)])
  }

  function ApplyPreserveBack(s: Sys, i: nat): Sys
    requires Enabled(s, PreserveBack(i))
  {
    var d := s.drainers[i];
    var (c', spawn) := Preserve(s.c, d.slot.key, d.delta, d.slot.deadline);
    var t := s.(c := c', drainers := Spawn(s.drainers[i := Idle], spawn));
    if d.slot.key in s.c.dirty && s.c.dirty[d.slot.key].del then BookForgotten(s, t) else BookExpired(s, t)
  }

  function Apply(s: Sys, e: Event): Sys
    requires Enabled(s, e)
  {
    match e
    case Tick(elapsed) => s.(clock := s.clock + elapsed)
    case Request(key, ttl, read) => ApplyRequest(s, key, ttl, read)
    case ForgetKey(key) => ApplyForget(s, key)
    case FlushAll(order) => ApplyFlushAll(s, order)
    case Take(i) => ApplyTake(s, i)
    case FlushTop(i) => ApplyFlushTop(s, i)
    case DeleteRound(i, ok, landed) => ApplyDeleteRound(s, i, ok, landed)
    case GiveUp(i) => ApplyGiveUp(s, i)
    case PushRound(i, outcome) => ApplyPushRound(s, i, outcome)
    case MergeBack(i) => ApplyMergeBack(s, i)
    case PreserveBack(i) => ApplyPreserveBack(s, i)
    case PeerWrite(st) => s.(store := st)
  }

  function Init(clock: nat, store: TtlStore.Store): Sys {
    Sys(clock, EMPTY_CACHE, [], _ => 0, store, Ledger(_ => 0, _ => 0, _ => 0, _ => 0))
  }

  ghost predicate Run(s: Sys, es: seq<Event>, t: Sys)
    decreases |es|
  {
    if es == [] then s == t else Enabled(s, es[0]) && Run(Apply(s, es[0]), es[1..], t)
  }

  ghost predicate Reachable(t: Sys) {
    exists clock: nat, store, es :: Run(Init(clock, store), es, t)
  }

  // ---------- the invariant ----------

  /** Every dirty key is queued exactly once or held by exactly one drainer, never
      both, nothing else is queued or held, and queued work has a live drainer. */
  ghost predicate Owned(s: Sys) {
    && |s.drainers| == s.c.workers <= MAX_FLUSH_WORKERS
    && (s.c.queue != [] ==> s.drainers != [])
    && multiset(s.c.queue) + HeldBy(s.drainers) == multiset(s.c.dirty.Keys)
  }

  /** A dirty key parks nothing, and a positive delta carries its entry's deadline. */
  ghost predicate KeyOk(c: Cache, k: Key) {
    && (k in c.m ==> c.m[k].expires > 0)
    && (k in c.m && k in c.dirty ==> c.m[k].pending == 0)
    && (k in c.dirty && c.dirty[k].delta > 0 ==> k in c.m && c.m[k].expires == c.dirty[k].deadline)
  }

  ghost predicate Deltas(s: Sys) {
    0 <= s.clock && forall k: Key :: KeyOk(s.c, k)
  }

  /** A claim of the current epoch is of the entry's window or of an ended earlier one. */
  ghost predicate ClaimOk(c: Cache, epoch: nat, clock: int, slot: Slot) {
    && slot.key in c.dirty
    && slot.epoch <= epoch
    && (slot.epoch < epoch <==> c.dirty[slot.key].del)
    && (slot.epoch == epoch ==>
      && slot.key in c.m
      && slot.deadline <= c.m[slot.key].expires
      && (slot.deadline < c.m[slot.key].expires ==> slot.deadline <= clock))
  }

  ghost predicate Claims(s: Sys) {
    forall i :: 0 <= i < |s.drainers| && HasClaim(s.drainers[i]) ==>
      ClaimOk(s.c, s.epochs(s.drainers[i].slot.key), s.clock, s.drainers[i].slot)
  }

  /** Every count is in exactly one place. */
  ghost predicate Balanced(s: Sys, slot: Slot) {
    s.ledger.counted(slot) == Unsettled(s, slot) + s.ledger.acked(slot) + s.ledger.expired(slot) + s.ledger.forgotten(slot)
  }

  /** Only an ended window loses counts to expiry, only a Forget loses them otherwise. */
  ghost predicate Justified(s: Sys, slot: Slot) {
    && (s.ledger.expired(slot) > 0 ==> slot.deadline <= s.clock)
    && (s.ledger.forgotten(slot) > 0 ==> slot.epoch < s.epochs(slot.key))
  }

  ghost predicate Books(s: Sys) {
    forall slot: Slot :: Balanced(s, slot) && Justified(s, slot)
  }

  ghost predicate Inv(s: Sys) {
    Owned(s) && Deltas(s) && Claims(s) && Books(s)
  }

  // ---------- sums over the drainers ----------

  lemma {:induction false} DrainersConcat(a: seq<Drainer>, b: seq<Drainer>, slot: Slot)
    ensures ClaimedAt(a + b, slot) == ClaimedAt(a, slot) + ClaimedAt(b, slot)
    ensures HeldBy(a + b) == HeldBy(a) + HeldBy(b)
  {
    if b == [] {
      assert a + b == a;
    } else {
      var n := |b| - 1;
      assert (a + b)[..|a + b| - 1] == a + b[..n];
      DrainersConcat(a, b[..n], slot);
    }
  }

  lemma DrainersOne(d: Drainer, slot: Slot)
    ensures ClaimedAt([d], slot) == ClaimOf(d, slot)
    ensures HeldBy([d]) == KeyOf(d)
  {
    assert [d][..0] == [];
  }

  lemma DrainersRemove(ds: seq<Drainer>, i: nat, slot: Slot)
    requires i < |ds|
    ensures ClaimedAt(ds, slot) == ClaimedAt(ds[..i] + ds[i + 1..], slot) + ClaimOf(ds[i], slot)
    ensures HeldBy(ds) == HeldBy(ds[..i] + ds[i + 1..]) + KeyOf(ds[i])
  {
    assert ds == (ds[..i] + [ds[i]]) + ds[i + 1..];
    DrainersConcat(ds[..i] + [ds[i]], ds[i + 1..], slot);
    DrainersConcat(ds[..i], [ds[i]], slot);
    DrainersConcat(ds[..i], ds[i + 1..], slot);
    DrainersOne(ds[i], slot);
  }

  lemma DrainersReplace(ds: seq<Drainer>, i: nat, d: Drainer, slot: Slot)
    requires i < |ds|
    ensures ClaimedAt(ds[i := d], slot) + ClaimOf(ds[i], slot) == ClaimedAt(ds, slot) + ClaimOf(d, slot)
    ensures HeldBy(ds[i := d]) + KeyOf(ds[i]) == HeldBy(ds) + KeyOf(d)
  {
    DrainersRemove(ds, i, slot);
    DrainersRemove(ds[i := d], i, slot);
    assert ds[i := d][..i] + ds[i := d][i + 1..] == ds[..i] + ds[i + 1..];
  }

  lemma DrainersSpawn(ds: seq<Drainer>, spawn: bool, slot: Slot)
    ensures ClaimedAt(Spawn(ds, spawn), slot) == ClaimedAt(ds, slot)
    ensures HeldBy(Spawn(ds, spawn)) == HeldBy(ds)
  {
    if spawn {
      DrainersConcat(ds, [Idle], slot);
      DrainersOne(Idle, slot);
    }
  }

  lemma {:induction false} DrainersIdle(n: nat, slot: Slot)
    ensures ClaimedAt(Idlers(n), slot) == 0
    ensures HeldBy(Idlers(n)) == multiset{}
  {
    if n > 0 {
      assert Idlers(n)[..n - 1] == Idlers(n - 1);
      DrainersIdle(n - 1, slot);
    }
  }

  /** A key held twice counts twice. */
  lemma HeldTwice(ds: seq<Drainer>, i: nat, j: nat)
    requires i < j < |ds|
    ensures KeyOf(ds[i]) + KeyOf(ds[j]) <= HeldBy(ds)
  {
    var slot := Slot("", 0, 0);
    DrainersRemove(ds, j, slot);
    DrainersRemove(ds[..j] + ds[j + 1..], i, slot);
    assert (ds[..j] + ds[j + 1..])[i] == ds[i];
  }

  /** The holder of a key holds it alone, and it is dirty and not queued. */
  lemma SoleHolder(s: Sys, i: nat, key: Key)
    requires Owned(s) && i < |s.drainers| && key in KeyOf(s.drainers[i])
    ensures key in s.c.dirty && key !in s.c.queue
    ensures forall j :: 0 <= j < |s.drainers| && j != i ==> key !in KeyOf(s.drainers[j])
  {
    DrainersRemove(s.drainers, i, Slot("", 0, 0));
    assert key in multiset(s.c.queue) + HeldBy(s.drainers);
    assert multiset(s.c.dirty.Keys)[key] == 1;
    forall j | 0 <= j < |s.drainers| && j != i ensures key !in KeyOf(s.drainers[j]) {
      HeldTwice(s.drainers, if i < j then i else j, if i < j then j else i);
    }
  }

  // ---------- requests ----------

  /** Queue, workers and dirty keys after at most `key` was queued. */
  ghost predicate QueuedOne(c: Cache, c': Cache, key: Key, spawn: bool) {
    if c'.queue == c.queue then
      c'.dirty.Keys == c.dirty.Keys && c'.workers == c.workers && !spawn
    else
      && key !in c.dirty && c'.queue == c.queue + [key] && c'.dirty.Keys == c.dirty.Keys + {key}
      && spawn == (c.workers < MAX_FLUSH_WORKERS)
      && c'.workers == (if spawn then c.workers + 1 else c.workers)
  }

  /** Entries other than `key` are untouched or swept, and nothing dirty is swept. */
  ghost predicate OthersKept(c: Cache, c': Cache, key: Key, now: int) {
    forall k: Key :: k != key ==>
      && (k in c'.dirty <==> k in c.dirty)
      && (k in c.dirty ==> c'.dirty[k] == c.dirty[k] && (k in c.m <==> k in c'.m))
      && (k in c'.m ==> k in c.m && c'.m[k] == c.m[k])
      && (k in c.m && k !in c'.m ==> c.m[k].pending == 0 || now >= c.m[k].expires)
  }

  lemma BumpEffect(c: Cache, key: Key, e: Entry)
    requires KeyOk(c, key) && e.expires > 0
    requires key in c.m && c.m[key].expires == e.expires ==> e == c.m[key]
    requires !(key in c.m && c.m[key].expires == e.expires) ==> e.pending == 0
    ensures var (c', r) := Bump(c, key, e);
            && r == Counted(e.n + 1, c'.queue != c.queue && c.workers < MAX_FLUSH_WORKERS)
            && QueuedOne(c, c', key, r.spawn) && OthersKept(c, c', key, 0)
            && KeyOk(c', key)
            && key in c'.m && c'.m[key].expires == e.expires && c'.m[key].n == e.n + 1
            && (key in c.dirty ==> key in c'.dirty && c'.dirty[key].del == c.dirty[key].del)
  {
  }

  lemma BumpSlot(c: Cache, key: Key, e: Entry, slot: Slot)
    requires KeyOk(c, key) && e.expires > 0
    requires key in c.m && c.m[key].expires == e.expires ==> e == c.m[key]
    requires !(key in c.m && c.m[key].expires == e.expires) ==> e.pending == 0
    ensures var (c', _) := Bump(c, key, e);
            var before, after := PendingIn(c, slot) + DirtyIn(c, slot), PendingIn(c', slot) + DirtyIn(c', slot);
            && (slot.key == key && slot.deadline == e.expires ==> after == before + 1)
            && (slot.key == key && slot.deadline != e.expires ==>
                  after <= before && (after < before ==> key in c.m && slot.deadline == c.m[key].expires))
            && (slot.key != key ==> after == before)
  {
  }

  lemma SweepEffect(c: Cache, key: Key, now: int)
    requires key !in c.m
    ensures var (c1, _) := MakeRoom(c, now);
            c1.dirty == c.dirty && c1.queue == c.queue && c1.workers == c.workers && key !in c1.m && OthersKept(c, c1, key, now)
  {
  }

  lemma SweepSlot(c: Cache, now: int, slot: Slot)
    ensures var (c1, _) := MakeRoom(c, now);
            var before, after := PendingIn(c, slot) + DirtyIn(c, slot), PendingIn(c1, slot) + DirtyIn(c1, slot);
            after <= before && (after < before ==> slot.deadline <= now)
  {
  }

  /** The entry that a counted request bumps. */
  function Opened(c: Cache, key: Key, ttl: int, read: int): Entry {
    if key in c.m && read < c.m[key].expires then c.m[key] else Entry(0, read + Window(ttl), 0)
  }

  lemma IncrEffect(c: Cache, key: Key, ttl: int, read: int, now: int)
    requires forall k: Key :: KeyOk(c, k)
    requires 0 <= read <= now
    ensures var (c', r) := Incr(c, key, ttl, read, now);
            && QueuedOne(c, c', key, r.Counted? && r.spawn) && OthersKept(c, c', key, now)
            && (forall k: Key :: KeyOk(c', k))
            && (r.Counted? ==>
                && key in c'.m && c'.m[key].expires == Opened(c, key, ttl, read).expires
                && r.n == c'.m[key].n == Opened(c, key, ttl, read).n + 1)
            && (r.Shed? ==> key !in c.m && key !in c'.m)
            && (key in c.dirty ==> key in c'.dirty && c'.dirty[key].del == c.dirty[key].del)
  {
    var e := Opened(c, key, ttl, read);
    assert KeyOk(c, key);
    var c1 := if key in c.m then c else MakeRoom(c, now).0;
    if key !in c.m { SweepEffect(c, key, now); }
    assert KeyOk(c1, key);
    BumpEffect(c1, key, e);
    var (c', r) := Incr(c, key, ttl, read, now);
    forall k: Key ensures KeyOk(c', k) {
      assert KeyOk(c, k);
    }
  }

  lemma IncrSlot(c: Cache, key: Key, ttl: int, read: int, now: int, slot: Slot)
    requires KeyOk(c, key)
    requires 0 <= read <= now
    ensures var (c', r) := Incr(c, key, ttl, read, now);
            var before, after := PendingIn(c, slot) + DirtyIn(c, slot), PendingIn(c', slot) + DirtyIn(c', slot);
            if r.Counted? && slot.key == key && slot.deadline == Opened(c, key, ttl, read).expires then after == before + 1
            else after <= before && (after < before ==> slot.deadline <= now)
  {
    var e := Opened(c, key, ttl, read);
    if key in c.m {
      BumpSlot(c, key, e, slot);
    } else {
      SweepSlot(c, now, slot);
      var c1 := MakeRoom(c, now).0;
      BumpSlot(c1, key, e, slot);
    }
  }

  lemma RequestBooks(s: Sys, key: Key, ttl: int, read: int, slot: Slot)
    requires Inv(s) && Enabled(s, Request(key, ttl, read))
    ensures Balanced(ApplyRequest(s, key, ttl, read), slot)
    ensures Justified(ApplyRequest(s, key, ttl, read), slot)
  {
    var (c', r) := Incr(s.c, key, ttl, read, s.clock);
    assert KeyOk(s.c, key) && Balanced(s, slot) && Justified(s, slot);
    IncrEffect(s.c, key, ttl, read, s.clock);
    IncrSlot(s.c, key, ttl, read, s.clock, slot);
    DrainersSpawn(s.drainers, r.Counted? && r.spawn, slot);
  }

  lemma RequestClaim(c: Cache, key: Key, ttl: int, read: int, now: int, epoch: nat, slot: Slot)
    requires forall k: Key :: KeyOk(c, k)
    requires 0 <= read <= now
    requires ClaimOk(c, epoch, now, slot)
    ensures ClaimOk(Incr(c, key, ttl, read, now).0, epoch, now, slot)
  {
    IncrEffect(c, key, ttl, read, now);
  }

  lemma QueuedOneOwned(c: Cache, c': Cache, key: Key, spawn: bool, held: multiset<Key>)
    requires QueuedOne(c, c', key, spawn)
    requires multiset(c.queue) + held == multiset(c.dirty.Keys)
    ensures multiset(c'.queue) + held == multiset(c'.dirty.Keys)
  {
    if c'.queue != c.queue {
      assert multiset(c'.queue) == multiset(c.queue) + multiset{key};
      assert multiset(c'.dirty.Keys) == multiset(c.dirty.Keys) + multiset{key};
    }
  }

  lemma RequestOwned(s: Sys, key: Key, ttl: int, read: int)
    requires Inv(s) && Enabled(s, Request(key, ttl, read))
    ensures Owned(ApplyRequest(s, key, ttl, read)) && Deltas(ApplyRequest(s, key, ttl, read))
  {
    var (c', r) := Incr(s.c, key, ttl, read, s.clock);
    IncrEffect(s.c, key, ttl, read, s.clock);
    DrainersSpawn(s.drainers, r.Counted? && r.spawn, Slot("", 0, 0));
    QueuedOneOwned(s.c, c', key, r.Counted? && r.spawn, HeldBy(s.drainers));
  }

  lemma RequestInv(s: Sys, key: Key, ttl: int, read: int)
    requires Inv(s) && Enabled(s, Request(key, ttl, read))
    ensures Inv(ApplyRequest(s, key, ttl, read))
  {
    var t := ApplyRequest(s, key, ttl, read);
    RequestOwned(s, key, ttl, read);
    forall slot: Slot ensures Balanced(t, slot) && Justified(t, slot) { RequestBooks(s, key, ttl, read, slot); }
    forall i | 0 <= i < |t.drainers| && HasClaim(t.drainers[i])
      ensures ClaimOk(t.c, t.epochs(t.drainers[i].slot.key), t.clock, t.drainers[i].slot)
    {
      var slot := s.drainers[i].slot;
      RequestClaim(s.c, key, ttl, read, s.clock, s.epochs(slot.key), slot);
    }
  }

  // ---------- Forget and the shutdown flush ----------

  /** `c'` differs from `c` at `key` only. */
  ghost predicate OnlyAt(c: Cache, c': Cache, key: Key) {
    forall k: Key :: k != key ==>
      && (k in c.m <==> k in c'.m) && (k in c.m ==> c'.m[k] == c.m[k])
      && (k in c.dirty <==> k in c'.dirty) && (k in c.dirty ==> c'.dirty[k] == c.dirty[k])
  }

  lemma ForgetEffect(c: Cache, key: Key)
    ensures var (c', spawn) := Forget(c, key);
            && QueuedOne(c, c', key, spawn) && OnlyAt(c, c', key)
            && key !in c'.m && (key in c'.dirty ==> c'.dirty[key].delta == 0 && c'.dirty[key].del)
  {
  }

  lemma ForgetBooks(s: Sys, key: Key, slot: Slot)
    requires Balanced(s, slot) && Justified(s, slot)
    ensures Balanced(ApplyForget(s, key), slot) && Justified(ApplyForget(s, key), slot)
  {
    var (c', spawn) := Forget(s.c, key);
    ForgetEffect(s.c, key);
    DrainersSpawn(s.drainers, spawn, slot);
  }

  lemma ForgetOwned(s: Sys, key: Key)
    requires Owned(s)
    ensures Owned(ApplyForget(s, key))
  {
    var (c', spawn) := Forget(s.c, key);
    ForgetEffect(s.c, key);
    DrainersSpawn(s.drainers, spawn, Slot("", 0, 0));
    QueuedOneOwned(s.c, c', key, spawn, HeldBy(s.drainers));
  }

  lemma ForgetInv(s: Sys, key: Key)
    requires Inv(s)
    ensures Inv(ApplyForget(s, key))
  {
    var t := ApplyForget(s, key);
    ForgetOwned(s, key);
    ForgetClaims(s, key);
    hide ApplyForget, ClaimedAt, HeldBy;
    forall slot: Slot ensures Balanced(t, slot) && Justified(t, slot) {
      assert Balanced(s, slot) && Justified(s, slot);
      ForgetBooks(s, key, slot);
    }
  }

  lemma ForgetClaims(s: Sys, key: Key)
    requires Inv(s)
    ensures Deltas(ApplyForget(s, key)) && Claims(ApplyForget(s, key))
  {
    hide HeldBy, ClaimedAt, Balanced, Justified;
    var t := ApplyForget(s, key);
    ForgetEffect(s.c, key);
    forall k: Key ensures KeyOk(t.c, k) { assert KeyOk(s.c, k); }
    forall i | 0 <= i < |t.drainers| && HasClaim(t.drainers[i])
      ensures ClaimOk(t.c, t.epochs(t.drainers[i].slot.key), t.clock, t.drainers[i].slot)
    {
      assert t.drainers[i] == s.drainers[i];
    }
  }

  lemma {:induction false} DistinctMultiset(order: seq<Key>)
    requires forall a, b :: 0 <= a < b < |order| ==> order[a] != order[b]
    ensures multiset(order) == multiset(set k | k in order)
  {
    if order != [] {
      var n := |order| - 1;
      DistinctMultiset(order[..n]);
      assert order == order[..n] + [order[n]];
      assert (set k | k in order) == (set k | k in order[..n]) + {order[n]};
    }
  }

  lemma DirtyGrows(dirty: set<Key>, order: seq<Key>, queue: seq<Key>, held: multiset<Key>)
    requires multiset(queue) + held == multiset(dirty)
    requires forall a, b :: 0 <= a < b < |order| ==> order[a] != order[b]
    requires forall k | k in order :: k !in dirty
    ensures multiset(queue + order) + held == multiset(dirty + set k | k in order)
  {
    DistinctMultiset(order);
    var added := set k | k in order;
    assert multiset(dirty + added) == multiset(dirty) + multiset(added);
  }

  lemma PromoteOwned(s: Sys, order: seq<Key>)
    requires Owned(s) && Enabled(s, FlushAll(order))
    ensures Owned(ApplyFlushAll(s, order))
  {
    hide HeldBy, ClaimedAt;
    var c' := Promote(s.c, order);
    PromoteShape(s.c, order);
    DirtyGrows(s.c.dirty.Keys, order, s.c.queue, HeldBy(s.drainers));
    hide Promote, Parked;
    IdlersHoldNothing(s.drainers, c'.workers - s.c.workers);
  }

  lemma IdlersHoldNothing(ds: seq<Drainer>, n: nat)
    ensures HeldBy(ds + Idlers(n)) == HeldBy(ds) && |Idlers(n)| == n
  {
    DrainersIdle(n, Slot("", 0, 0));
    DrainersConcat(ds, Idlers(n), Slot("", 0, 0));
  }

  lemma PromoteShape(c: Cache, order: seq<Key>)
    requires forall k | k in order :: k in c.m
    requires forall k | k in order :: k !in c.dirty
    ensures var c' := Promote(c, order);
            && c'.queue == c.queue + order && c'.dirty.Keys == c.dirty.Keys + (set k | k in order)
            && c.workers <= c'.workers && (c.workers <= MAX_FLUSH_WORKERS ==> c'.workers <= MAX_FLUSH_WORKERS)
            && (c'.queue != [] ==> c'.workers > 0)
  {
  }

  lemma PromoteBooks(s: Sys, order: seq<Key>, slot: Slot)
    requires Inv(s) && Enabled(s, FlushAll(order))
    ensures Balanced(ApplyFlushAll(s, order), slot) && Justified(ApplyFlushAll(s, order), slot)
  {
    hide HeldBy, ClaimedAt, Owned, Claims;
    var c' := Promote(s.c, order);
    var n := c'.workers - s.c.workers;
    assert KeyOk(s.c, slot.key) && Balanced(s, slot) && Justified(s, slot);
    PromoteLocal(s.c, order, s.clock, s.epochs(slot.key), slot);
    hide Promote, LocalAt;
    DrainersIdle(n, slot);
    DrainersConcat(s.drainers, Idlers(n), slot);
  }

  /** Queueing a parked delta moves it within the cache. */
  lemma PromoteLocal(c: Cache, order: seq<Key>, clock: int, epoch: nat, slot: Slot)
    requires KeyOk(c, slot.key) && (slot.key in order ==> Parked(c, slot.key, clock))
    ensures LocalAt(Promote(c, order), epoch, slot) == LocalAt(c, epoch, slot)
    ensures Promote(c, order).workers >= c.workers
  {
  }

  lemma PromoteInv(s: Sys, order: seq<Key>)
    requires Inv(s) && Enabled(s, FlushAll(order))
    ensures Inv(ApplyFlushAll(s, order))
  {
    var t := ApplyFlushAll(s, order);
    PromoteOwned(s, order);
    assert Deltas(t) by {
      forall k: Key ensures KeyOk(t.c, k) { assert KeyOk(s.c, k); }
    }
    forall slot: Slot ensures Balanced(t, slot) && Justified(t, slot) { PromoteBooks(s, order, slot); }
    forall i | 0 <= i < |t.drainers| && HasClaim(t.drainers[i])
      ensures ClaimOk(t.c, t.epochs(t.drainers[i].slot.key), t.clock, t.drainers[i].slot)
    {
      assert t.drainers[i] == s.drainers[i];
    }
  }

  // ---------- drainers ----------

  lemma TakeOwned(s: Sys, i: nat)
    requires Owned(s) && Enabled(s, Take(i))
    ensures Owned(ApplyTake(s, i))
  {
    hide HeldBy, ClaimedAt;
    var slot := Slot("", 0, 0);
    var q := s.c.queue;
    if q == [] {
      DrainersRemove(s.drainers, i, slot);
    } else {
      DrainersReplace(s.drainers, i, Flushing(q[0]), slot);
      assert multiset(q) == multiset(q[1..]) + multiset{q[0]} by { assert q == [q[0]] + q[1..]; }
      assert HeldBy(s.drainers[i := Flushing(q[0])]) == HeldBy(s.drainers) + multiset{q[0]};
    }
  }

  lemma TakeBooks(s: Sys, i: nat, slot: Slot)
    requires Enabled(s, Take(i)) && Balanced(s, slot) && Justified(s, slot)
    ensures Balanced(ApplyTake(s, i), slot) && Justified(ApplyTake(s, i), slot)
  {
    hide HeldBy, ClaimedAt;
    if s.c.queue == [] { DrainersRemove(s.drainers, i, slot); }
    else { DrainersReplace(s.drainers, i, Flushing(s.c.queue[0]), slot); }
  }

  lemma TakeInv(s: Sys, i: nat)
    requires Inv(s) && Enabled(s, Take(i))
    ensures Inv(ApplyTake(s, i))
  {
    var t := ApplyTake(s, i);
    TakeOwned(s, i);
    forall slot: Slot ensures Balanced(t, slot) && Justified(t, slot) {
      assert Balanced(s, slot) && Justified(s, slot);
      TakeBooks(s, i, slot);
    }
    forall k: Key ensures KeyOk(t.c, k) { assert KeyOk(s.c, k); }
    forall j | 0 <= j < |t.drainers| && HasClaim(t.drainers[j])
      ensures ClaimOk(t.c, t.epochs(t.drainers[j].slot.key), t.clock, t.drainers[j].slot)
    {
      var j' := if s.c.queue == [] && j >= i then j + 1 else j;
      assert t.drainers[j] == s.drainers[j'];
    }
  }

  /** The part of the invariant that one locked section of drainer `i` on its own
      key keeps, given what it did to that key. */
  lemma SectionInv(s: Sys, t: Sys, i: nat, key: Key, d: Drainer, spawn: bool)
    requires Inv(s) && i < |s.drainers| && KeyOf(s.drainers[i]) == multiset{key}
    requires t.drainers == Spawn(s.drainers[i := d], spawn)
    requires t.clock == s.clock && t.epochs == s.epochs
    requires OnlyAt(s.c, t.c, key) && KeyOk(t.c, key)
    requires HasClaim(d) ==> d.slot.key == key && ClaimOk(t.c, s.epochs(key), s.clock, d.slot)
    ensures Deltas(t) && Claims(t)
  {
    SoleHolder(s, i, key);
    hide HeldBy, ClaimedAt, Owned, Books;
    forall k: Key ensures KeyOk(t.c, k) { assert KeyOk(s.c, k); }
    SectionClaims(s, t, i, key, d, spawn);
  }

  /** Claims after the section: the other drainers hold other keys. */
  lemma SectionClaims(s: Sys, t: Sys, i: nat, key: Key, d: Drainer, spawn: bool)
    requires Claims(s) && i < |s.drainers| && t.drainers == Spawn(s.drainers[i := d], spawn)
    requires forall j :: 0 <= j < |s.drainers| && j != i ==> key !in KeyOf(s.drainers[j])
    requires t.clock == s.clock && t.epochs == s.epochs && OnlyAt(s.c, t.c, key)
    requires HasClaim(d) ==> d.slot.key == key && ClaimOk(t.c, s.epochs(key), s.clock, d.slot)
    ensures Claims(t)
  {
    forall j | 0 <= j < |t.drainers| && HasClaim(t.drainers[j])
      ensures ClaimOk(t.c, t.epochs(t.drainers[j].slot.key), t.clock, t.drainers[j].slot)
    {
      if j != i {
        assert j < |s.drainers| && t.drainers[j] == s.drainers[j];
        assert s.drainers[j].slot.key != key;
      }
    }
  }

  /** Ownership after the section: the key kept, dropped, or queued again. */
  lemma SectionOwned(s: Sys, t: Sys, i: nat, key: Key, d: Drainer, spawn: bool)
    requires Owned(s) && i < |s.drainers| && KeyOf(s.drainers[i]) == multiset{key}
    requires t.drainers == Spawn(s.drainers[i := d], spawn)
    requires t.c.workers == s.c.workers + (if spawn then 1 else 0) <= MAX_FLUSH_WORKERS
    requires
      || (KeyOf(d) == multiset{key} && t.c.queue == s.c.queue && t.c.dirty.Keys == s.c.dirty.Keys)
      || (d == Idle && t.c.queue == s.c.queue && t.c.dirty.Keys == s.c.dirty.Keys - {key})
      || (d == Idle && t.c.queue == s.c.queue + [key] && t.c.dirty.Keys == s.c.dirty.Keys)
    ensures Owned(t)
  {
    hide HeldBy, ClaimedAt;
    var slot := Slot("", 0, 0);
    var held, held' := HeldBy(s.drainers), HeldBy(t.drainers);
    SoleHolder(s, i, key);
    assert held' + multiset{key} == held + KeyOf(d) by {
      DrainersReplace(s.drainers, i, d, slot);
      DrainersSpawn(s.drainers[i := d], spawn, slot);
      assert t.drainers == Spawn(s.drainers[i := d], spawn);
    }
    assert |t.drainers| == |s.drainers| + (if spawn then 1 else 0);
    if d != Idle || KeyOf(d) == multiset{key} {
      Cancel(held', held, key);
    } else if t.c.queue == s.c.queue {
      DirtyShrinks(s.c.queue, held, held', s.c.dirty.Keys, key);
    } else {
      assert multiset(t.c.queue) == multiset(s.c.queue) + multiset{key};
      assert held + multiset{} == held;
      assert (multiset(s.c.queue) + multiset{key}) + held' == multiset(s.c.queue) + (held' + multiset{key});
    }
  }

  lemma Cancel(a: multiset<Key>, b: multiset<Key>, key: Key)
    requires a + multiset{key} == b + multiset{key}
    ensures a == b
  {
    forall k: Key ensures a[k] == b[k] {
      assert (a + multiset{key})[k] == a[k] + multiset{key}[k];
      assert (b + multiset{key})[k] == b[k] + multiset{key}[k];
    }
  }

  lemma DirtyShrinks(queue: seq<Key>, held: multiset<Key>, held': multiset<Key>, dirty: set<Key>, key: Key)
    requires key in dirty && multiset(queue) + held == multiset(dirty)
    requires held' + multiset{key} == held + multiset{}
    ensures multiset(queue) + held' == multiset(dirty - {key})
  {
    assert multiset(dirty) == multiset(dirty - {key}) + multiset{key};
    assert (multiset(queue) + held') + multiset{key} == multiset(queue) + (held' + multiset{key});
    Cancel(multiset(queue) + held', multiset(dirty - {key}), key);
  }

  /** Books after a section that moves counts between the key's places, or books
      what it dropped. `claim` is the slot of drainer `i` afterwards, if any. */
  lemma SectionClaimed(s: Sys, i: nat, d: Drainer, spawn: bool, slot: Slot)
    requires i < |s.drainers|
    ensures ClaimedAt(Spawn(s.drainers[i := d], spawn), slot) + ClaimOf(s.drainers[i], slot)
         == ClaimedAt(s.drainers, slot) + ClaimOf(d, slot)
  {
    DrainersReplace(s.drainers, i, d, slot);
    DrainersSpawn(s.drainers[i := d], spawn, slot);
  }

  lemma FlushTopBooks(s: Sys, i: nat, slot: Slot)
    requires Inv(s) && Enabled(s, FlushTop(i))
    ensures Balanced(ApplyFlushTop(s, i), slot) && Justified(ApplyFlushTop(s, i), slot)
  {
    hide HeldBy, ClaimedAt;
    var key := s.drainers[i].key;
    var (c', a) := FlushStep(s.c, key, s.clock);
    assert Balanced(s, slot) && Justified(s, slot) && KeyOk(s.c, key);
    SoleHolder(s, i, key);
    SectionClaimed(s, i, Idle, a.Released? && a.spawn, slot);
    SectionClaimed(s, i, Deleting(key), false, slot);
    if a.Push? { SectionClaimed(s, i, Pushing(Current(s, key, a.deadline), a.delta), false, slot); }
  }

  /** What the section leaves its drainer with. */
  function FlushTopNext(s: Sys, i: nat): Drainer
    requires Enabled(s, FlushTop(i))
  {
    var key := s.drainers[i].key;
    match FlushStep(s.c, key, s.clock).1
    case Gone => Idle
    case Delete => Deleting(key)
    case Released(_) => Idle
    case Again => s.drainers[i]
    case Push(delta, deadline) => Pushing(Current(s, key, deadline), delta)
  }

  /** The cache's part: the key kept, or dropped when nothing is owed. */
  lemma FlushEffect(c: Cache, key: Key, clock: int)
    requires KeyOk(c, key) && key in c.dirty
    ensures var (c', a) := FlushStep(c, key, clock);
            && c'.workers == c.workers && c'.queue == c.queue && OnlyAt(c, c', key) && KeyOk(c', key)
            && !a.Gone? && (a.Released? ==> !a.spawn)
            && c'.dirty.Keys == (if a.Released? then c.dirty.Keys - {key} else c.dirty.Keys)
            && (a.Push? ==> key in c'.m && c'.m[key].expires == a.deadline && !c'.dirty[key].del)
  {
  }

  lemma FlushTopShape(s: Sys, i: nat)
    requires Enabled(s, FlushTop(i))
    ensures var t, key := ApplyFlushTop(s, i), s.drainers[i].key;
            var (c', a) := FlushStep(s.c, key, s.clock);
            && t.clock == s.clock && t.epochs == s.epochs && t.c == c'
            && (!a.Released? || !a.spawn ==> t.drainers == s.drainers[i := FlushTopNext(s, i)])
  {
    hide FlushStep, Gap, Plus;
  }

  lemma FlushTopReady(s: Sys, i: nat)
    requires Owned(s) && Enabled(s, FlushTop(i)) && KeyOk(s.c, s.drainers[i].key)
    ensures var t, d, key := ApplyFlushTop(s, i), FlushTopNext(s, i), s.drainers[i].key;
            && t.clock == s.clock && t.epochs == s.epochs && t.drainers == Spawn(s.drainers[i := d], false)
            && t.c.workers == s.c.workers && t.c.queue == s.c.queue
            && (|| (KeyOf(d) == multiset{key} && t.c.dirty.Keys == s.c.dirty.Keys)
                || (d == Idle && t.c.dirty.Keys == s.c.dirty.Keys - {key}))
            && OnlyAt(s.c, t.c, key) && KeyOk(t.c, key)
            && (HasClaim(d) ==> d.slot.key == key && ClaimOk(t.c, s.epochs(key), s.clock, d.slot))
  {
    hide HeldBy, FlushStep, OnlyAt, KeyOk, ApplyFlushTop, Owned;
    SoleHolder(s, i, s.drainers[i].key);
    FlushEffect(s.c, s.drainers[i].key, s.clock);
    FlushTopShape(s, i);
  }

  lemma AllKeys(s: Sys, key: Key)
    requires Deltas(s)
    ensures KeyOk(s.c, key)
  {
  }

  lemma Hired(s: Sys)
    requires Owned(s)
    ensures s.c.workers <= MAX_FLUSH_WORKERS
  {
  }

  lemma FlushTopInv(s: Sys, i: nat)
    requires Inv(s) && Enabled(s, FlushTop(i))
    ensures Inv(ApplyFlushTop(s, i))
  {
    hide HeldBy, ClaimedAt, FlushStep, FlushTopNext, ApplyFlushTop, Owned, Deltas, Claims;
    var t, d, key := ApplyFlushTop(s, i), FlushTopNext(s, i), s.drainers[i].key;
    assert KeyOk(s.c, key) by { AllKeys(s, key); }
    FlushTopReady(s, i);
    Hired(s);
    SectionOwned(s, t, i, key, d, false);
    SectionInv(s, t, i, key, d, false);
    forall slot: Slot ensures Balanced(t, slot) && Justified(t, slot) { FlushTopBooks(s, i, slot); }
  }

  lemma GiveUpSection(s: Sys, i: nat)
    requires Inv(s) && Enabled(s, GiveUp(i))
    ensures var t := ApplyGiveUp(s, i); Owned(t) && Deltas(t) && Claims(t)
  {
    hide HeldBy, ClaimedAt, Books;
    var key := s.drainers[i].key;
    var t := ApplyGiveUp(s, i);
    var (c', spawn) := Release(s.c, key);
    SoleHolder(s, i, key);
    assert KeyOk(s.c, key);
    SectionOwned(s, t, i, key, Idle, spawn);
    SectionInv(s, t, i, key, Idle, spawn);
  }

  lemma GiveUpInv(s: Sys, i: nat)
    requires Inv(s) && Enabled(s, GiveUp(i))
    ensures Inv(ApplyGiveUp(s, i))
  {
    hide HeldBy, ClaimedAt, Owned, Deltas, Claims, ApplyGiveUp;
    GiveUpSection(s, i);
    forall slot: Slot ensures Balanced(ApplyGiveUp(s, i), slot) && Justified(ApplyGiveUp(s, i), slot) { GiveUpBooks(s, i, slot); }
  }

  lemma GiveUpBooks(s: Sys, i: nat, slot: Slot)
    requires Inv(s) && Enabled(s, GiveUp(i))
    ensures Balanced(ApplyGiveUp(s, i), slot) && Justified(ApplyGiveUp(s, i), slot)
  {
    hide HeldBy, ClaimedAt;
    assert Balanced(s, slot) && Justified(s, slot);
    SectionClaimed(s, i, Idle, Release(s.c, s.drainers[i].key).1, slot);
  }

  lemma DeleteRoundInv(s: Sys, i: nat, ok: bool, landed: bool)
    requires Inv(s) && Enabled(s, DeleteRound(i, ok, landed))
    ensures Inv(ApplyDeleteRound(s, i, ok, landed))
  {
    hide HeldBy, ClaimedAt;
    var key := s.drainers[i].key;
    var t := ApplyDeleteRound(s, i, ok, landed);
    assert KeyOk(s.c, key);
    SectionOwned(s, t, i, key, t.drainers[i], false);
    SectionInv(s, t, i, key, t.drainers[i], false);
    forall slot: Slot ensures Balanced(t, slot) && Justified(t, slot) {
      assert Balanced(s, slot) && Justified(s, slot);
      SectionClaimed(s, i, t.drainers[i], false, slot);
    }
  }

  lemma PushRoundBooks(s: Sys, i: nat, outcome: PushOutcome, slot: Slot)
    requires Inv(s) && Enabled(s, PushRound(i, outcome))
    ensures Balanced(ApplyPushRound(s, i, outcome), slot) && Justified(ApplyPushRound(s, i, outcome), slot)
  {
    hide HeldBy, ClaimedAt, Owned, Deltas;
    assert Balanced(s, slot) && Justified(s, slot);
    SectionClaimed(s, i, ApplyPushRound(s, i, outcome).drainers[i], false, slot);
  }

  lemma PushRoundShape(s: Sys, i: nat, outcome: PushOutcome)
    requires Enabled(s, PushRound(i, outcome))
    ensures var t := ApplyPushRound(s, i, outcome);
            && t.c == s.c && t.epochs == s.epochs && t.clock == s.clock
            && |t.drainers| == |s.drainers| && t.drainers == s.drainers[i := t.drainers[i]]
            && KeyOf(t.drainers[i]) == KeyOf(s.drainers[i])
            && (HasClaim(t.drainers[i]) ==> t.drainers[i].slot == s.drainers[i].slot)
  {
    hide HeldBy, ClaimedAt, TtlStore.IncrByDeadline, TtlStore.View, Gap, Plus;
    var t, slot, delta := ApplyPushRound(s, i, outcome), s.drainers[i].slot, s.drainers[i].delta;
    var reply := TtlStore.IncrByDeadline(TtlStore.View(s.store, s.clock), slot.key, delta, slot.deadline, s.clock).1;
    var d :=
      if outcome.Lost? || reply.IncrFailed? then Preserving(slot, delta)
      else if reply.applied then Merging(slot, reply.value)
      else Flushing(slot.key);
    assert t.drainers == s.drainers[i := d];
    assert t.c == s.c && t.epochs == s.epochs && t.clock == s.clock;
    hide ApplyPushRound;
  }

  lemma PushRoundInv(s: Sys, i: nat, outcome: PushOutcome)
    requires Inv(s) && Enabled(s, PushRound(i, outcome))
    ensures Inv(ApplyPushRound(s, i, outcome))
  {
    hide HeldBy, ClaimedAt;
    var key := s.drainers[i].slot.key;
    var t := ApplyPushRound(s, i, outcome);
    PushRoundShape(s, i, outcome);
    hide ApplyPushRound;
    assert KeyOk(s.c, key);
    assert ClaimOk(s.c, s.epochs(key), s.clock, s.drainers[i].slot);
    SectionOwned(s, t, i, key, t.drainers[i], false);
    SectionInv(s, t, i, key, t.drainers[i], false);
    forall slot: Slot ensures Balanced(t, slot) && Justified(t, slot) { PushRoundBooks(s, i, outcome, slot); }
  }

  lemma MergeBackSection(s: Sys, i: nat)
    requires Inv(s) && Enabled(s, MergeBack(i))
    ensures var t := ApplyMergeBack(s, i); Owned(t) && Deltas(t) && Claims(t)
  {
    hide HeldBy, ClaimedAt, Books;
    var key := s.drainers[i].slot.key;
    var t := ApplyMergeBack(s, i);
    assert KeyOk(s.c, key);
    SectionOwned(s, t, i, key, t.drainers[i], false);
    SectionInv(s, t, i, key, t.drainers[i], false);
  }

  lemma MergeBackInv(s: Sys, i: nat)
    requires Inv(s) && Enabled(s, MergeBack(i))
    ensures Inv(ApplyMergeBack(s, i))
  {
    hide HeldBy, ClaimedAt, Owned, Deltas, Claims;
    MergeBackSection(s, i);
    var t := ApplyMergeBack(s, i);
    forall slot: Slot ensures Balanced(t, slot) && Justified(t, slot) {
      assert Balanced(s, slot) && Justified(s, slot);
      SectionClaimed(s, i, t.drainers[i], false, slot);
    }
  }

  /** The failed claim and what folded in behind it, back in the pending slot. */
  lemma PreserveEffect(c: Cache, epoch: nat, clock: int, claim: Slot, delta: nat)
    requires KeyOk(c, claim.key) && ClaimOk(c, epoch, clock, claim)
    ensures var (c', spawn) := Preserve(c, claim.key, delta, claim.deadline);
            && OnlyAt(c, c', claim.key) && KeyOk(c', claim.key)
            && (c.dirty[claim.key].del ==> c' == Release(c, claim.key).0 && claim.epoch < epoch)
            && (!c.dirty[claim.key].del ==>
                  && !spawn && c'.dirty == c.dirty - {claim.key} && c'.queue == c.queue && c'.workers == c.workers
                  && claim.epoch == epoch)
  {
  }

  lemma PreserveSlot(c: Cache, epoch: nat, clock: int, claim: Slot, delta: nat, slot: Slot)
    requires KeyOk(c, claim.key) && ClaimOk(c, epoch, clock, claim)
    ensures var c' := Preserve(c, claim.key, delta, claim.deadline).0;
            var before, after := PendingIn(c, slot) + DirtyIn(c, slot), PendingIn(c', slot) + DirtyIn(c', slot);
            var back := !c.dirty[claim.key].del && slot.key == claim.key && slot.deadline == claim.deadline
                        && c.m[claim.key].expires == claim.deadline;
            && after == before + (if back then delta else 0)
            && (!c.dirty[claim.key].del && slot == claim && !back ==> claim.deadline <= clock)
  {
  }

  lemma PreserveBackBooks(s: Sys, i: nat, slot: Slot)
    requires Inv(s) && Enabled(s, PreserveBack(i))
    ensures Balanced(ApplyPreserveBack(s, i), slot) && Justified(ApplyPreserveBack(s, i), slot)
  {
    hide HeldBy, ClaimedAt;
    var d := s.drainers[i];
    var (c', spawn) := Preserve(s.c, d.slot.key, d.delta, d.slot.deadline);
    assert Balanced(s, slot) && Justified(s, slot) && KeyOk(s.c, d.slot.key);
    assert ClaimOk(s.c, s.epochs(d.slot.key), s.clock, d.slot);
    SectionClaimed(s, i, Idle, spawn, slot);
    PreserveEffect(s.c, s.epochs(d.slot.key), s.clock, d.slot, d.delta);
    PreserveSlot(s.c, s.epochs(d.slot.key), s.clock, d.slot, d.delta, slot);
  }

  /** The failed claim released or kept back, as one section of its drainer. */
  lemma PreserveBackShape(s: Sys, i: nat)
    requires Inv(s) && Enabled(s, PreserveBack(i))
    ensures var t, d, key := ApplyPreserveBack(s, i), s.drainers[i], s.drainers[i].slot.key;
            var spawn := Preserve(s.c, key, d.delta, d.slot.deadline).1;
            && t.clock == s.clock && t.epochs == s.epochs && t.drainers == Spawn(s.drainers[i := Idle], spawn)
            && t.c.workers == s.c.workers + (if spawn then 1 else 0) <= MAX_FLUSH_WORKERS
            && (|| (t.c.queue == s.c.queue && t.c.dirty.Keys == s.c.dirty.Keys - {key})
                || (t.c.queue == s.c.queue + [key] && t.c.dirty.Keys == s.c.dirty.Keys))
            && OnlyAt(s.c, t.c, key) && KeyOk(t.c, key)
  {
    hide HeldBy, ClaimedAt, Books;
    var d := s.drainers[i];
    SoleHolder(s, i, d.slot.key);
    assert KeyOk(s.c, d.slot.key);
    assert ClaimOk(s.c, s.epochs(d.slot.key), s.clock, d.slot);
    PreserveEffect(s.c, s.epochs(d.slot.key), s.clock, d.slot, d.delta);
  }

  lemma PreserveBackInv(s: Sys, i: nat)
    requires Inv(s) && Enabled(s, PreserveBack(i))
    ensures Inv(ApplyPreserveBack(s, i))
  {
    hide HeldBy, ClaimedAt, Preserve, ApplyPreserveBack, Owned, Deltas, Claims;
    var d := s.drainers[i];
    var t, spawn := ApplyPreserveBack(s, i), Preserve(s.c, d.slot.key, d.delta, d.slot.deadline).1;
    PreserveBackShape(s, i);
    SectionOwned(s, t, i, d.slot.key, Idle, spawn);
    SectionInv(s, t, i, d.slot.key, Idle, spawn);
    forall slot: Slot ensures Balanced(t, slot) && Justified(t, slot) { PreserveBackBooks(s, i, slot); }
  }

  // ---------- every run ----------

  lemma NextInv(s: Sys, e: Event)
    requires Inv(s) && Enabled(s, e)
    ensures Inv(Apply(s, e))
  {
    match e
    case Tick(_) => TickInv(s, Apply(s, e));
    case Request(key, ttl, read) => RequestInv(s, key, ttl, read);
    case ForgetKey(key) => ForgetInv(s, key);
    case FlushAll(order) => PromoteInv(s, order);
    case Take(i) => TakeInv(s, i);
    case FlushTop(i) => FlushTopInv(s, i);
    case DeleteRound(i, ok, landed) => DeleteRoundInv(s, i, ok, landed);
    case GiveUp(i) => GiveUpInv(s, i);
    case PushRound(i, outcome) => PushRoundInv(s, i, outcome);
    case MergeBack(i) => MergeBackInv(s, i);
    case PreserveBack(i) => PreserveBackInv(s, i);
    case PeerWrite(_) => TickInv(s, Apply(s, e));
  }

  lemma TickInv(s: Sys, t: Sys)
    requires Inv(s) && t == s.(clock := t.clock, store := t.store) && s.clock <= t.clock
    ensures Inv(t)
  {
    hide HeldBy, ClaimedAt;
    forall slot: Slot ensures Balanced(t, slot) && Justified(t, slot) {
      assert Balanced(s, slot) && Justified(s, slot);
    }
  }

  lemma {:induction false} RunInv(s: Sys, es: seq<Event>, t: Sys)
    requires Inv(s) && Run(s, es, t)
    ensures Inv(t)
    decreases |es|
  {
    if es != [] {
      NextInv(s, es[0]);
      RunInv(Apply(s, es[0]), es[1..], t);
    }
  }

  lemma ReachableInv(t: Sys)
    requires Reachable(t)
    ensures Inv(t)
  {
    var clock: nat, store, es :| Run(Init(clock, store), es, t);
    RunInv(Init(clock, store), es, t);
  }

  // ---------- what holds in every reachable state ----------

  /** Every count, live or not, is at every step in exactly one place; it is written
      off as expired only once its window has ended, and as forgotten only once a
      Forget of its key came after it. */
  lemma EveryCountIsSomewhere(t: Sys, slot: Slot)
    requires Reachable(t)
    ensures t.ledger.counted(slot)
         == LocalAt(t.c, t.epochs(slot.key), slot) + ClaimedAt(t.drainers, slot)
          + t.ledger.acked(slot) + t.ledger.expired(slot) + t.ledger.forgotten(slot)
    ensures t.ledger.expired(slot) > 0 ==> slot.deadline <= t.clock
    ensures t.ledger.forgotten(slot) > 0 ==> slot.epoch < t.epochs(slot.key)
  {
    ReachableInv(t);
    assert Balanced(t, slot) && Justified(t, slot);
  }

  /** A live count of a key that was not forgotten since is acknowledged by the
      store, claimed by a drainer, queued, or parked: nothing else can happen to
      it, whatever rounds failed and whatever was evicted. */
  lemma LiveCountsNeverLost(t: Sys, slot: Slot)
    requires Reachable(t)
    requires t.clock < slot.deadline && t.epochs(slot.key) <= slot.epoch
    ensures t.ledger.counted(slot)
         == t.ledger.acked(slot) + ClaimedAt(t.drainers, slot) + LocalAt(t.c, t.epochs(slot.key), slot)
  {
    ReachableInv(t);
    assert Balanced(t, slot) && Justified(t, slot);
  }

  /** Each key's unpushed work has exactly one owner. */
  lemma SingleOwnership(t: Sys, key: Key)
    requires Reachable(t)
    ensures |t.drainers| == t.c.workers <= MAX_FLUSH_WORKERS
    ensures key in t.c.dirty ==> multiset(t.c.queue)[key] + HeldBy(t.drainers)[key] == 1
    ensures key !in t.c.dirty ==> multiset(t.c.queue)[key] + HeldBy(t.drainers)[key] == 0
    ensures forall i, j :: 0 <= i < j < |t.drainers| && key in KeyOf(t.drainers[i]) ==> key !in KeyOf(t.drainers[j])
    ensures key in t.c.dirty && key in t.c.m ==> t.c.m[key].pending == 0
    ensures key in t.c.dirty && t.c.dirty[key].delta > 0 ==>
              key in t.c.m && t.c.m[key].expires == t.c.dirty[key].deadline
  {
    ReachableInv(t);
    assert KeyOk(t.c, key);
    assert (multiset(t.c.queue) + HeldBy(t.drainers))[key] == multiset(t.c.dirty.Keys)[key];
    forall i, j | 0 <= i < j < |t.drainers| && key in KeyOf(t.drainers[i])
      ensures key !in KeyOf(t.drainers[j])
    {
      SoleHolder(t, i, key);
    }
  }

  /** No key is stranded: queued work has a drainer, and with no drainer nothing is dirty. */
  lemma NothingStranded(t: Sys)
    requires Reachable(t)
    ensures t.c.queue != [] ==> t.drainers != []
    ensures t.c.workers == 0 ==> t.c.dirty == map[]
  {
    ReachableInv(t);
    if t.c.workers == 0 {
      assert multiset(t.c.dirty.Keys) == multiset{};
      forall k: Key ensures k !in t.c.dirty { assert multiset(t.c.dirty.Keys)[k] == 0; }
    }
  }

  /** A store answer for one window never touches a later window of its key: the
      entry is of that window, or the window has ended and the answer is dropped. */
  lemma LateAnswerIsolated(s: Sys, i: nat)
    requires Reachable(s) && Enabled(s, MergeBack(i))
    ensures var slot := s.drainers[i].slot;
            slot.epoch == s.epochs(slot.key) ==>
              && slot.key in s.c.m && slot.deadline <= s.c.m[slot.key].expires
              && (slot.deadline < s.c.m[slot.key].expires ==> Apply(s, MergeBack(i)).c == s.c && slot.deadline <= s.clock)
  {
    ReachableInv(s);
    var slot := s.drainers[i].slot;
    assert ClaimOk(s.c, s.epochs(slot.key), s.clock, slot);
  }

  /** The running total a request is answered with, when it is counted in the map. */
  function Answer(s: Sys, e: Event): int
    requires e.Request?
  {
    match Incr(s.c, e.key, e.ttl, e.read, s.clock).1
    case Counted(n, _) => n
    case Shed => 0
  }

  lemma MergesOnlyRaise(s: Sys, e: Event, key: Key)
    requires Enabled(s, e) && !e.Request? && key in s.c.m
    ensures var t := Apply(s, e); key in t.c.m && e != ForgetKey(key) ==> t.c.m[key].n >= s.c.m[key].n
  {
    hide HeldBy, ClaimedAt, Gap, TtlStore.IncrByDeadline, TtlStore.View;
  }

  /** Within a window the local count never goes back, and a counted request
      raises it by one and returns it. */
  lemma LocalCountMonotone(s: Sys, e: Event, key: Key)
    requires Reachable(s) && Enabled(s, e) && key in s.c.m
    ensures var t := Apply(s, e);
            key in t.c.m && t.c.m[key].expires == s.c.m[key].expires && e != ForgetKey(key) ==>
              && t.c.m[key].n >= s.c.m[key].n
              && (e.Request? && e.key == key ==>
                    t.c.m[key].n == s.c.m[key].n + 1 && Answer(s, e) == t.c.m[key].n)
  {
    hide HeldBy, ClaimedAt, Gap, TtlStore.IncrByDeadline, TtlStore.View;
    if e.Request? {
      ReachableInv(s);
      hide Inv;
      IncrEffect(s.c, e.key, e.ttl, e.read, s.clock);
      assert OthersKept(s.c, Apply(s, e).c, e.key, s.clock);
    } else {
      MergesOnlyRaise(s, e, key);
      hide Apply;
    }
  }

  /** A push that arrives after its window ended writes nothing; one that lands
      gives the record the window's own deadline or leaves the expiry it had. */
  lemma PushRespectsWindow(s: Sys, i: nat, outcome: PushOutcome)
    requires Enabled(s, PushRound(i, outcome))
    ensures var slot := s.drainers[i].slot;
            var live, st := TtlStore.View(s.store, s.clock), Apply(s, PushRound(i, outcome)).store;
            && (slot.deadline != 0 && s.clock >= slot.deadline ==> st == s.store || st == live)
            && (forall k | k in live :: k in st && st[k].expires == live[k].expires)
            && (forall k | k in st && k !in s.store :: k == slot.key && st[k].expires == slot.deadline)
  {
    hide HeldBy, ClaimedAt;
    var slot := s.drainers[i].slot;
    TtlStore.IncrKeepsWindow(TtlStore.View(s.store, s.clock), slot.key, s.drainers[i].delta, slot.deadline, s.clock);
  }
}
