/** The enforcement manager around the mirror, each call run on its own: the
    packed completeness word, notifications and one reconcile. How these calls
    interleave is the subject of MirrorProtocol. */
module MirrorManager {
  import opened Mirror

  /** One word: the drop generation, and in bit zero whether the mirror is complete. */
  function Generation(word: nat): nat { word / 2 }
  predicate Complete(word: nat) { word % 2 == 1 }

  /** `ttl` is 0 for a block without expiry. */
  datatype BlockEvent = BlockEvent(addr: Addr, reason: string, ttl: int, remove: bool)

  class Manager {
    const mirror: Mirror
    const readThrough: bool      // the store is shared: a miss always asks it
    var state: nat
    var seeded: bool

    constructor (mirror: Mirror, readThrough: bool)
      ensures this.mirror == mirror && this.readThrough == readThrough && state == 0 && !seeded
    {
      this.mirror, this.readThrough, state, seeded := mirror, readThrough, 0, false;
    }

    predicate ReadThrough()
      reads this
    {
      readThrough || !seeded || !Complete(state)
    }

    method MarkIncomplete()
      modifies this`state
      ensures Generation(state) == old(Generation(state)) + 1 && !Complete(state)
    {
      state := (state / 2 + 1) * 2;
    }

    /** A result is published only under the generation it was scanned under. */
    method Publish(generation: nat, complete: bool)
      modifies this`state
      ensures Generation(state) == old(Generation(state))
      ensures Complete(state) == if old(Generation(state)) == generation then complete else old(Complete(state))
    {
      if state / 2 != generation { return; }
      state := state / 2 * 2 + (if complete then 1 else 0);
    }

    /** A removal leaves a tombstone; an addition is in the mirror afterwards, or
        the mirror is marked incomplete. */
    method Notify(ev: BlockEvent, now: int)
      requires mirror.Valid()
      modifies this`state, mirror, mirror.shards
      ensures mirror.Valid()
      ensures ev.remove ==> ev.addr !in mirror.ShardMap(ev.addr) && Vetoes(mirror.tombs, ev.addr, now) && state == old(state)
      ensures ev.remove ==> mirror.ShardMap(ev.addr) == old(mirror.ShardMap(ev.addr)) - {ev.addr}
      ensures !ev.remove ==>
        var e, before := Entry(ev.reason, if ev.ttl > 0 then now + ev.ttl else 0, now), old(mirror.ShardMap(ev.addr));
        if ev.addr in before || |before| < mirror.maxPerShard || |Shed(before, now)| < mirror.maxPerShard
        then ev.addr in mirror.ShardMap(ev.addr) && mirror.ShardMap(ev.addr)[ev.addr] == e && state == old(state)
        else ev.addr !in mirror.ShardMap(ev.addr) && Generation(state) == old(Generation(state)) + 1 && !Complete(state)
    {
      if ev.remove {
        ghost var evicted := mirror.Remove(ev.addr, now);
        return;
      }
      var exp := if ev.ttl > 0 then now + ev.ttl else 0;
      var ok := mirror.Set(ev.addr, Entry(ev.reason, exp, now));
      if !ok { MarkIncomplete(); }
    }

    /** A reconcile on a scanned snapshot; a failed scan changes nothing. */
    method ReconcileOnce(active: map<Addr, Entry>, scannedAll: bool, scanStart: int, failed: bool)
      requires mirror.Valid() && forall a | a in active :: active[a].insertedAt == scanStart
      modifies this, mirror, mirror.shards
      ensures mirror.Valid() && Generation(state) == old(Generation(state))
      ensures failed ==> state == old(state) && seeded == old(seeded) && mirror.shards[..] == old(mirror.shards[..])
      ensures !failed ==> seeded
      ensures !failed ==> (Complete(state) <==> scannedAll && mirror.dropped == old(mirror.dropped))
      ensures !failed && Complete(state) ==>
        forall a :: Settled(mirror.shards[..], mirror.hash, a, active, old(mirror.tombs), scanStart)
      ensures !failed && scannedAll ==>
        forall a :: NotStale(mirror.shards[..], mirror.hash, a, active, scanStart)
    {
      var generation := state / 2;
      if failed { return; }
      var complete := mirror.Reconcile(active, scanStart, scannedAll);
      Publish(generation, complete);
      seeded := true;
    }
  }
}
