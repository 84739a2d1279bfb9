/** What the counter cache gets done: what a request is told and leaves queued, what a
    drainer claims and lands, which store totals are adopted, and what Forget and the
    shutdown flush reach. Everything is said of the tables and the store after an event. */
module CounterProgress {
  import opened CounterCache
  import opened CounterCacheProtocol
  import TtlStore

  // ---------- store totals are adopted ----------

  /** A store total that comes back in time for its own window is adopted by the local
      count if it is higher; any other answer changes nothing. */
  lemma MergeAdopts(s: Sys, i: nat)
    requires Enabled(s, MergeBack(i))
    ensures var t, slot, shared := Apply(s, MergeBack(i)), s.drainers[i].slot, s.drainers[i].shared;
            if slot.key in s.c.m && s.c.m[slot.key].expires == slot.deadline && s.clock < slot.deadline then
              var n := s.c.m[slot.key].n;
              t.c == s.c.(m := s.c.m[slot.key := s.c.m[slot.key].(n := if shared > n then shared else n)])
            else t.c == s.c
  {
  }

  /** The entry of the window stays in the table all along. */
  ghost predicate Kept(s: Sys, es: seq<Event>, key: Key, deadline: int)
    decreases |es|
  {
    && key in s.c.m && s.c.m[key].expires == deadline
    && (es == [] || (Enabled(s, es[0]) && Kept(Apply(s, es[0]), es[1..], key, deadline)))
  }

  lemma {:induction false} CountGrows(s: Sys, es: seq<Event>, t: Sys, key: Key, deadline: int)
    requires Reachable(s) && Run(s, es, t) && Kept(s, es, key, deadline)
    ensures key in t.c.m && t.c.m[key].expires == deadline && t.c.m[key].n >= s.c.m[key].n && Reachable(t)
    decreases |es|
  {
    hide Apply, Enabled, Reachable;
    if es != [] {
      NextReachable(s, es[0]);
      LocalCountMonotone(s, es[0], key);
      ForgetDrops(s, es[0], key);
      CountGrows(Apply(s, es[0]), es[1..], t, key, deadline);
    }
  }

  lemma ForgetDrops(s: Sys, e: Event, key: Key)
    requires Enabled(s, e)
    ensures e == ForgetKey(key) ==> key !in Apply(s, e).c.m
  {
    if e.ForgetKey? { ForgetEffect(s.c, e.key); }
    hide Forget;
  }

  lemma {:induction false} RunThen(s: Sys, es: seq<Event>, t: Sys, e: Event)
    requires Run(s, es, t) && Enabled(t, e)
    ensures Run(s, es + [e], Apply(t, e))
    decreases |es|
  {
    hide Apply, Enabled;
    if es == [] {
      assert Run(Apply(s, e), [], Apply(t, e));
      assert [e][1..] == [];
    } else {
      RunThen(Apply(s, es[0]), es[1..], t, e);
      assert (es + [e])[0] == es[0] && (es + [e])[1..] == es[1..] + [e];
    }
  }

  lemma NextReachable(s: Sys, e: Event)
    requires Reachable(s) && Enabled(s, e)
    ensures Reachable(Apply(s, e))
  {
    hide Apply, Enabled;
    var clock: nat, store, es :| Run(Init(clock, store), es, s);
    RunThen(Init(clock, store), es, s, e);
  }

  /** So from then on, until the entry is forgotten or evicted, the local count of the
      window is at least every total the store answered for it, and a counted request is
      told more. */
  lemma AdoptedStays(s: Sys, i: nat, es: seq<Event>, t: Sys, e: Event)
    requires Reachable(s) && Enabled(s, MergeBack(i)) && Run(Apply(s, MergeBack(i)), es, t)
    requires var slot := s.drainers[i].slot; s.clock < slot.deadline && Kept(s, [MergeBack(i)] + es, slot.key, slot.deadline)
    ensures var slot, shared := s.drainers[i].slot, s.drainers[i].shared;
            && slot.key in t.c.m && t.c.m[slot.key].n >= shared
            && (e.Request? && e.key == slot.key && Enabled(t, e) && e.read < slot.deadline ==> Answer(t, e) > shared)
  {
    var slot, shared := s.drainers[i].slot, s.drainers[i].shared;
    MergeAdopts(s, i);
    NextReachable(s, MergeBack(i));
    var all := [MergeBack(i)] + es;
    assert all[0] == MergeBack(i) && all[1..] == es;
    CountGrows(Apply(s, MergeBack(i)), es, t, slot.key, slot.deadline);
    hide Apply, Kept, Reachable;
  }

  // ---------- a request ----------

  /** The window a request counts in: the live one, or a new one from its clock reading. */
  lemma RequestCounts(s: Sys, key: Key, ttl: int, read: int)
    requires Reachable(s) && Enabled(s, Request(key, ttl, read))
    ensures var t, answer := Apply(s, Request(key, ttl, read)), Answer(s, Request(key, ttl, read));
            && (key in s.c.m && read < s.c.m[key].expires ==>
                  answer == s.c.m[key].n + 1 && key in t.c.m && t.c.m[key].expires == s.c.m[key].expires)
            && (key in s.c.m && read >= s.c.m[key].expires ==> answer == 1 && key in t.c.m)
            && (key !in s.c.m && |s.c.m| < 0x2_0000 ==> answer == 1 && key in t.c.m)
            && (key in t.c.m ==> t.c.m[key].n == answer)
            && (answer == 1 && key in t.c.m && !(key in s.c.m && read < s.c.m[key].expires) ==>
                  t.c.m[key].expires == read + (if ttl <= 0 then 1_000_000_000 else ttl))
  {
    hide HeldBy, ClaimedAt, Gap;
    ReachableInv(s);
    IncrEffect(s.c, key, ttl, read, s.clock);
    NewEntry(s.c, key, ttl, read, s.clock);
    hide Incr, Inv;
  }

  lemma NewEntry(c: Cache, key: Key, ttl: int, read: int, now: int)
    ensures key in c.m || |c.m| < MAX_COUNTER_ENTRIES ==> Incr(c, key, ttl, read, now).1.Counted?
  {
  }

  /** A request is shed only from a full table, and then only when it was swept within the
      last second or everything that is left has live unpushed work or an owner. */
  lemma ShedOnlyWhenFull(s: Sys, key: Key, ttl: int, read: int)
    requires Enabled(s, Request(key, ttl, read)) && key !in Apply(s, Request(key, ttl, read)).c.m
    ensures var t := Apply(s, Request(key, ttl, read));
            && |s.c.m| >= 0x2_0000 && |t.c.m| >= 0x2_0000
            && (s.clock < s.c.nextRoomSweep || (
                  && t.c.nextRoomSweep == s.clock + 1_000_000_000
                  && forall k | k in t.c.m :: k in s.c.dirty || (t.c.m[k].pending > 0 && s.clock < t.c.m[k].expires)))
  {
    hide Gap, Incr;
    ShedFromFull(s.c, key, ttl, read, s.clock);
  }

  lemma ShedFromFull(c: Cache, key: Key, ttl: int, read: int, now: int)
    ensures var c' := Incr(c, key, ttl, read, now).0;
            key !in c'.m ==>
              && |c.m| >= MAX_COUNTER_ENTRIES && |c'.m| >= MAX_COUNTER_ENTRIES
              && (now < c.nextRoomSweep || (
                    && c'.nextRoomSweep == now + SECOND
                    && forall k | k in c'.m :: k in c.dirty || (c'.m[k].pending > 0 && now < c'.m[k].expires)))
  {
    hide Bump;
    BumpedIsThere(c, key, read + Window(ttl));
    BumpedIsThere(MakeRoom(c, now).0, key, read + Window(ttl));
  }

  lemma BumpedIsThere(c: Cache, key: Key, expires: int)
    ensures key in Bump(c, key, Entry(0, expires, 0)).0.m
    ensures key in c.m ==> key in Bump(c, key, c.m[key]).0.m
  {
  }

  /** A counted request leaves its key with an owner, and a key that had none queued with
      a drainer more, up to the eight; only a full queue makes it wait. */
  lemma CountedIsQueued(s: Sys, key: Key, ttl: int, read: int)
    requires Reachable(s) && Enabled(s, Request(key, ttl, read)) && Answer(s, Request(key, ttl, read)) > 0
    ensures var t := Apply(s, Request(key, ttl, read));
            && (key in t.c.dirty || |s.c.queue| >= 0x4000)
            && (key in t.c.dirty && key !in s.c.dirty ==>
                  t.c.queue == s.c.queue + [key] && t.c.workers == (if s.c.workers < 8 then s.c.workers + 1 else s.c.workers)
                  && key in t.c.m && t.c.m[key].pending == 0 && t.c.dirty[key].deadline == t.c.m[key].expires)
  {
    hide HeldBy, ClaimedAt, Gap;
    var e := Opened(s.c, key, ttl, read);
    var c1 := if key in s.c.m then s.c else MakeRoom(s.c, s.clock).0;
    assert c1.dirty == s.c.dirty && c1.queue == s.c.queue && c1.workers == s.c.workers;
    BumpQueues(c1, key, e);
    hide Bump;
  }

  lemma BumpQueues(c: Cache, key: Key, e: Entry)
    ensures var c' := Bump(c, key, e).0;
            && (key in c'.dirty || |c.queue| >= MAX_FLUSH_QUEUE)
            && (key in c'.dirty && key !in c.dirty ==>
                  c'.queue == c.queue + [key] && c'.workers == (if c.workers < MAX_FLUSH_WORKERS then c.workers + 1 else c.workers)
                  && key in c'.m && c'.m[key].pending == 0 && c'.dirty[key].deadline == c'.m[key].expires)
  {
  }

  // ---------- a drainer ----------

  /** What the owner of a key does next follows from what is owed: a forgotten key is
      deleted, a live delta is claimed in whole, an ended one is given up, and a key
      that owes nothing is let go. */
  lemma OwnerClaims(s: Sys, i: nat)
    requires Reachable(s) && Enabled(s, FlushTop(i))
    ensures var t, key := Apply(s, FlushTop(i)), s.drainers[i].key;
            && key in s.c.dirty
            && var d := s.c.dirty[key];
               if d.del then t.drainers == s.drainers[i := Deleting(key)] && t.c == s.c.(dirty := s.c.dirty[key := d.(del := false)])
               else if d.delta == 0 then t.drainers == s.drainers[i := Idle] && t.c == s.c.(dirty := s.c.dirty - {key})
               else
                 && t.c == s.c.(dirty := s.c.dirty[key := d.(delta := 0)])
                 && t.drainers == (if s.clock < d.deadline then s.drainers[i := Pushing(Slot(key, d.deadline, s.epochs(key)), d.delta)] else s.drainers)
  {
    hide HeldBy, ClaimedAt, Gap;
    ReachableInv(s);
    SoleHolder(s, i, s.drainers[i].key);
    assert KeyOk(s.c, s.drainers[i].key);
    hide Inv;
  }

  /** The next key is the one that has waited longest. */
  lemma TakesTheOldest(s: Sys, i: nat)
    requires Enabled(s, Take(i))
    ensures var t := Apply(s, Take(i));
            && t.c.m == s.c.m && t.c.dirty == s.c.dirty
            && (s.c.queue != [] ==> t.drainers == s.drainers[i := Flushing(s.c.queue[0])] && s.c.queue == [s.c.queue[0]] + t.c.queue)
            && (s.c.queue == [] ==> t.c.workers == s.c.workers - 1 && |t.drainers| == |s.drainers| - 1)
  {
  }

  /** A push that is answered in time has added exactly its delta to the store's record
      of the key, and to no other, and the drainer has the new total in hand. */
  lemma PushLands(s: Sys, i: nat)
    requires Enabled(s, PushRound(i, Answered))
    requires var slot := s.drainers[i].slot; s.clock < slot.deadline && slot.deadline > 0
    requires var live, key := TtlStore.View(s.store, s.clock), s.drainers[i].slot.key; key in live ==> live[key].value.Number?
    ensures var t, slot, delta, live := Apply(s, PushRound(i, Answered)), s.drainers[i].slot, s.drainers[i].delta, TtlStore.View(s.store, s.clock);
            var total := (if slot.key in live then live[slot.key].value.n else 0) + delta;
            && t.store == live[slot.key := TtlStore.Entry(TtlStore.Number(total), if slot.key in live then live[slot.key].expires else slot.deadline)]
            && t.drainers == s.drainers[i := Merging(slot, total)]
            && t.ledger.acked(slot) == s.ledger.acked(slot) + delta
  {
    hide TtlStore.IncrByDeadline, TtlStore.View, HeldBy, ClaimedAt, Gap;
    var slot := s.drainers[i].slot;
    TtlStore.IncrCounts(TtlStore.View(s.store, s.clock), slot.key, s.drainers[i].delta, slot.deadline, s.clock);
  }

  // ---------- Forget and the shutdown flush ----------

  /** A forgotten key counts from nothing again, and its store record is owed a delete,
      unless the queue is full; the delete takes it. */
  lemma ForgetReaches(s: Sys, key: Key)
    ensures var t := Apply(s, ForgetKey(key));
            && key !in t.c.m && t.epochs(key) == s.epochs(key) + 1
            && (key in t.c.dirty ==> t.c.dirty[key].del && t.c.dirty[key].delta == 0)
            && (key in t.c.dirty || |s.c.queue| >= 0x4000)
            && (forall k | k != key :: (k in t.c.m <==> k in s.c.m) && (k in s.c.m ==> t.c.m[k] == s.c.m[k]) && t.epochs(k) == s.epochs(k))
  {
    hide Gap;
  }

  lemma DeleteLands(s: Sys, i: nat, landed: bool)
    requires Enabled(s, DeleteRound(i, true, landed))
    ensures var t, key := Apply(s, DeleteRound(i, true, landed)), s.drainers[i].key;
            && key !in t.store && t.drainers == s.drainers[i := Flushing(key)]
            && forall k | k in s.store && k != key :: k in t.store && t.store[k] == s.store[k]
  {
  }

  /** The shutdown flush leaves nothing parked: every live parked delta is queued whole,
      and there are drainers for as many keys as there may be. */
  lemma FlushQueuesAll(s: Sys, order: seq<Key>)
    requires Enabled(s, FlushAll(order))
    ensures var t := Apply(s, FlushAll(order));
            && (forall k :: !Parked(t.c, k, s.clock))
            && (forall k | Parked(s.c, k, s.clock) ::
                  && k in t.c.queue && k in t.c.dirty && t.c.dirty[k] == Dirty(s.c.m[k].pending, s.c.m[k].expires, false)
                  && k in t.c.m && t.c.m[k] == s.c.m[k].(pending := 0))
            && t.c.workers >= (if |t.c.queue| < 8 then |t.c.queue| else 8) && t.c.workers >= s.c.workers
  {
  }
}
