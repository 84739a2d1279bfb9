/** The in-process store: general keys spread over shards, the scannable block
    keys in one central map with an index, expired entries dropped lazily.

    Every operation refines its specification on the live view: `v` is the view
    of the abstract store before the operation, and `Shows` ties the shards and
    the central map to it. One clock reading serves a whole operation. */
module ShardedMemory {
  import opened Options
  import opened TtlStore
  import opened BlockCommits
  import Backoff

  const BLOCK_PREFIX := "block:"

  /** Only the block index namespace is central. */
  predicate IsCentral(key: string) { BLOCK_PREFIX <= key }

  /** What an increment answers, and the entry it writes if any. */
  datatype IncrPlan = Leave(reply: IncrReply) | Write(reply: IncrReply, entry: Entry)

  function PlanIncr(cur: Option<Entry>, delta: int, deadline: int, now: int): IncrPlan {
    if cur.Some? && !cur.value.value.Number? then Leave(IncrFailed)
    else if deadline != 0 && now >= deadline then Leave(Incr(if cur.Some? then cur.value.value.n else 0, false))
    else if cur.Some? then Write(Incr(cur.value.value.n + delta, true), cur.value.(value := Number(cur.value.value.n + delta)))
    else Write(Incr(delta, true), Entry(Number(delta), deadline))
  }

  lemma PlanIsIncr(v: Store, key: string, delta: int, deadline: int, now: nat)
    ensures var plan := PlanIncr(if key in v then Some(v[key]) else None, delta, deadline, now);
            && IncrByDeadline(v, key, delta, deadline, now) == (if plan.Write? then v[key := plan.entry] else v, plan.reply)
            && (plan.Write? && (key in v ==> Live(v[key], now)) ==> Live(plan.entry, now))
  {
  }

  lemma DropIsMinus(v: Store, key: string)
    ensures Drop(v, key) == v - {key}
  {
  }

  class ShardedMemory {
    const hash: string -> nat
    const shards: array<Store>
    var central: Store
    var activeBlocks: set<string>

    function ShardOf(key: string): (i: nat)
      requires shards.Length > 0
      ensures i < shards.Length
    {
      hash(key) % shards.Length
    }

    /** The map that holds `key`. */
    function Home(key: string): Store
      requires shards.Length > 0
      reads this, shards
    {
      if IsCentral(key) then central else shards[ShardOf(key)]
    }

    ghost predicate Valid()
      reads this, shards
    {
      && shards.Length > 0
      && activeBlocks <= central.Keys
      && forall k | k in central :: IsCentral(k)
    }

    /** `v` is exactly what callers can see at `now`. */
    ghost predicate Shows(v: Store, now: int)
      requires Valid()
      reads this, shards
    {
      forall k: string ::
        && (k in v <==> k in Home(k) && Live(Home(k)[k], now))
        && (k in v ==> v[k] == Home(k)[k])
    }

    /** Every live block is in the index. Kept by all operations but an
        increment of a block key. */
    ghost predicate Indexed(now: int)
      requires Valid()
      reads this, shards
    {
      forall k | k in central && Live(central[k], now) :: k in activeBlocks
    }

    constructor (n: nat, hash: string -> nat)
      requires n > 0
      ensures Valid() && fresh(shards) && shards.Length == n
      ensures forall now :: Shows(map[], now) && Indexed(now)
    {
      this.hash := hash;
      shards := new Store[n](_ => map[]);
      central, activeBlocks := map[], {};
    }

    /** What a lookup finds in the key's own map; an expired entry is dropped. */
    method GetLocked(key: string, now: int, ghost v: Store) returns (e: Option<Entry>)
      requires Valid() && Shows(v, now)
      modifies this`central, this`activeBlocks, shards
      ensures Valid() && Shows(v, now) && (old(Indexed(now)) ==> Indexed(now))
      ensures e == if key in v then Some(v[key]) else None
    {
      if IsCentral(key) {
        if key in central && Live(central[key], now) { return Some(central[key]); }
        central, activeBlocks := central - {key}, activeBlocks - {key};
      } else {
        var i := ShardOf(key);
        if key in shards[i] && Live(shards[i][key], now) { return Some(shards[i][key]); }
        shards[i] := shards[i] - {key};
      }
      return None;
    }

    method PutLocked(key: string, e: Entry, now: int, ghost v: Store)
      requires Valid() && Shows(v, now) && Live(e, now)
      modifies this`central, this`activeBlocks, shards
      ensures Valid() && Shows(v[key := e], now) && (old(Indexed(now)) ==> Indexed(now))
    {
      if IsCentral(key) {
        central, activeBlocks := central[key := e], activeBlocks + {key};
      } else {
        var i := ShardOf(key);
        shards[i] := shards[i][key := e];
      }
    }

    method Delete(key: string, now: int, ghost v: Store)
      requires Valid() && Shows(v, now)
      modifies this`central, this`activeBlocks, shards
      ensures Valid() && Shows(Drop(v, key), now) && (old(Indexed(now)) ==> Indexed(now))
    {
      if IsCentral(key) {
        central, activeBlocks := central - {key}, activeBlocks - {key};
      } else {
        var i := ShardOf(key);
        shards[i] := shards[i] - {key};
      }
    }

    method Get(key: string, now: int, ghost v: Store) returns (r: Option<Value>)
      requires Valid() && Shows(v, now)
      modifies this`central, this`activeBlocks, shards
      ensures Valid() && Shows(v, now) && (old(Indexed(now)) ==> Indexed(now))
      ensures r == Lookup(v, key)
    {
      var e := GetLocked(key, now, v);
      r := if e.Some? then Some(e.value.value) else None;
    }

    method Set(key: string, value: Value, ttl: int, now: nat, ghost v: Store)
      requires Valid() && Shows(v, now)
      modifies this`central, this`activeBlocks, shards
      ensures Valid() && Shows(v[key := Entry(value, Expiry(ttl, now))], now) && (old(Indexed(now)) ==> Indexed(now))
    {
      PutLocked(key, Entry(value, Expiry(ttl, now)), now, v);
    }

    method CompareAndSwap(key: string, expected: Option<Value>, replacement: Value, ttl: int, now: nat, ghost v: Store)
      returns (swapped: bool)
      requires Valid() && Shows(v, now)
      modifies this`central, this`activeBlocks, shards
      ensures Valid()
      ensures swapped <==> if expected.None? then key !in v else key in v && v[key].value == expected.value
      ensures Shows(if swapped then v[key := Entry(replacement, if ttl > 0 then now + ttl else 0)] else v, now)
      ensures (if swapped then v[key := Entry(replacement, if ttl > 0 then now + ttl else 0)] else v, swapped)
           == TtlStore.CompareAndSwap(v, key, expected, replacement, ttl, now)
      ensures old(Indexed(now)) ==> Indexed(now)
    {
      var cur := GetLocked(key, now, v);
      if expected.None? {
        if cur.Some? { return false; }
      } else if cur.None? || cur.value.value != expected.value {
        return false;
      }
      PutLocked(key, Entry(replacement, Expiry(ttl, now)), now, v);
      return true;
    }

    method CompareAndDelete(key: string, expected: Option<Value>, now: nat, ghost v: Store) returns (deleted: bool)
      requires Valid() && Shows(v, now)
      modifies this`central, this`activeBlocks, shards
      ensures Valid()
      ensures deleted <==> expected.Some? && key in v && v[key].value == expected.value
      ensures Shows(if deleted then v - {key} else v, now)
      ensures (if deleted then v - {key} else v, deleted) == TtlStore.CompareAndDelete(v, key, expected)
      ensures old(Indexed(now)) ==> Indexed(now)
    {
      hide Live, Drop;
      DropIsMinus(v, key);
      if expected.None? { return false; }
      var cur := GetLocked(key, now, v);
      if cur.None? || cur.value.value != expected.value { return false; }
      Delete(key, now, v);
      return true;
    }

    /** An increment writes the key's map but never the block index. */
    method IncrByDeadline(key: string, delta: int, deadline: int, now: nat, ghost v: Store) returns (r: IncrReply)
      requires Valid() && Shows(v, now)
      modifies this`central, this`activeBlocks, shards
      ensures Valid() && Shows(TtlStore.IncrByDeadline(v, key, delta, deadline, now).0, now)
      ensures r == TtlStore.IncrByDeadline(v, key, delta, deadline, now).1
      ensures old(Indexed(now)) && !IsCentral(key) ==> Indexed(now)
    {
      var cur := GetLocked(key, now, v);
      var next: IncrPlan := PlanIncr(cur, delta, deadline, now);
      PlanIsIncr(v, key, delta, deadline, now);
      hide TtlStore.IncrByDeadline, Live;
      if next.Write? { WriteUnindexed(key, next.entry, now, v); }
      return next.reply;
    }

    method WriteUnindexed(key: string, e: Entry, now: int, ghost v: Store)
      requires Valid() && Shows(v, now) && Live(e, now)
      modifies this`central, shards
      ensures Valid() && Shows(v[key := e], now) && (old(Indexed(now)) && !IsCentral(key) ==> Indexed(now))
    {
      if IsCentral(key) {
        central := central[key := e];
      } else {
        var i := ShardOf(key);
        shards[i] := shards[i][key := e];
      }
    }

    /** The comparison that stops the commit, if any. */
    method CheckLocked(c: BlockCommit, now: nat, ghost v: Store) returns (r: Option<Refusal>)
      requires Valid() && Shows(v, now)
      modifies this`central, this`activeBlocks, shards
      ensures Valid() && Shows(v, now) && (old(Indexed(now)) ==> Indexed(now))
      ensures r == BlockRefusal(v, c)
    {
      hide Live;
      var held := GetLocked(c.holdKey, now, v);
      if held.Some? { return Some(HoldLive); }
      var guard := Get(c.guardKey, now, v);
      if guard != c.guardValue { return Some(GenerationMoved); }
      var cur := Get(c.blockKey, now, v);
      if cur != c.expectedBlock { return Some(BlockMoved); }
      return None;
    }

    /** The counter and the block, once nothing stops them. */
    method WriteLocked(c: BlockCommit, offenses: nat, counterExpiry: int, ttl: nat, now: nat, ghost v: Store)
      requires Valid() && Shows(v, now)
      requires c.counterKey in v ==> counterExpiry == v[c.counterKey].expires
      requires c.counterKey !in v ==> counterExpiry == Expiry(c.counterTTL, now)
      modifies this`central, this`activeBlocks, shards
      ensures Valid() && (old(Indexed(now)) ==> Indexed(now))
      ensures Shows(v[c.counterKey := Entry(Number(offenses), counterExpiry)][c.blockKey := Entry(c.newBlock, Expiry(ttl, now))], now)
    {
      var counter := Entry(Number(offenses), counterExpiry);
      assert c.counterKey in v ==> Live(v[c.counterKey], now);
      PutLocked(c.counterKey, counter, now, v);
      PutLocked(c.blockKey, Entry(c.newBlock, Expiry(ttl, now)), now, v[c.counterKey := counter]);
    }

    method CommitBlock(c: BlockCommit, now: nat, ghost v: Store) returns (r: BlockResult)
      requires Valid() && Shows(v, now) && IsCentral(c.blockKey)
      modifies this`central, this`activeBlocks, shards
      ensures Valid() && Shows(BlockCommits.CommitBlock(v, c, now).0, now) && (old(Indexed(now)) ==> Indexed(now))
      ensures r == BlockCommits.CommitBlock(v, c, now).1
    {
      hide Live, BlockRefusal;
      var refusal := CheckLocked(c, now, v);
      if refusal.Some? { return Refused(refusal.value); }
      var counter := GetLocked(c.counterKey, now, v);
      var offenses, counterExpiry := 1, Expiry(c.counterTTL, now);
      if counter.Some? {
        offenses := CounterValue(counter.value.value) + 1;
        counterExpiry := counter.value.expires;
      }
      var ttl, _ := Backoff.BlockBackoffTTL(c.baseTTL, c.maxTTL, offenses);
      WriteLocked(c, offenses, counterExpiry, ttl, now, v);
      return Committed(offenses, ttl);
    }

    method CommitEvent(c: EventCommit, now: nat, ghost v: Store) returns (r: EventResult)
      requires Valid() && Shows(v, now)
      modifies this`central, this`activeBlocks, shards
      ensures Valid() && Shows(BlockCommits.CommitEvent(v, c, now).0, now)
      ensures old(Indexed(now)) && !IsCentral(c.counterKey) ==> Indexed(now)
      ensures r == BlockCommits.CommitEvent(v, c, now).1
    {
      var held := GetLocked(c.holdKey, now, v);
      if held.Some? { return EventResult(false, 0); }
      var reply := IncrByDeadline(c.counterKey, 1, Expiry(c.counterTTL, now), now, v);
      r := if reply.Incr? then EventResult(reply.applied, reply.value) else EventFailed;
    }

    method CommitUnblock(c: UnblockCommit, now: nat, ghost v: Store)
      requires Valid() && Shows(v, now) && IsCentral(c.blockKey)
      modifies this`central, this`activeBlocks, shards
      ensures Valid() && Shows(BlockCommits.CommitUnblock(v, c, now), now) && (old(Indexed(now)) ==> Indexed(now))
    {
      var hold, gen := Entry(Text("1"), Expiry(c.holdTTL, now)), Entry(c.generation, Expiry(c.generationTTL, now));
      PutLocked(c.holdKey, hold, now, v);
      PutLocked(c.generationKey, gen, now, v[c.holdKey := hold]);
      ghost var v2 := v[c.holdKey := hold][c.generationKey := gen];
      Delete(c.blockKey, now, v2);
      if c.resetBackoff { Delete(c.counterKey, now, Drop(v2, c.blockKey)); }
    }

    /** An index entry whose block has gone is dropped with the block. */
    method ForgetExpired(key: string, now: int, ghost v: Store) returns (e: Option<Entry>)
      requires Valid() && Shows(v, now) && key in activeBlocks
      modifies this`central, this`activeBlocks
      ensures Valid() && Shows(v, now) && (old(Indexed(now)) ==> Indexed(now))
      ensures old(activeBlocks) - {key} <= activeBlocks <= old(activeBlocks)
      ensures e == if key in v then Some(v[key]) else None
    {
      assert IsCentral(key);
      if key in central && Live(central[key], now) { return Some(central[key]); }
      central, activeBlocks := central - {key}, activeBlocks - {key};
      return None;
    }

    /** Walks the index only. A limited walk says whether it left anything out,
        and a complete one returns every live block. */
    method ScanActiveBlocks(limit: int, now: nat, ghost v: Store) returns (out: Store, complete: bool)
      requires Valid() && Shows(v, now)
      modifies this`central, this`activeBlocks
      ensures Valid() && Shows(v, now) && (old(Indexed(now)) ==> Indexed(now))
      ensures forall k | k in out :: IsCentral(k) && k in v && out[k] == v[k]
      ensures limit > 0 ==> |out| <= limit
      ensures !complete ==> limit > 0 && |out| == limit
      ensures complete && old(Indexed(now)) ==> forall k | k in v && IsCentral(k) :: k in out
    {
      out, complete := map[], true;
      var rest := activeBlocks;
      ghost var index := activeBlocks;
      assert Indexed(now) ==> forall k | k in v && IsCentral(k) :: k in index;
      while rest != {}
        invariant Valid() && Shows(v, now) && (old(Indexed(now)) ==> Indexed(now))
        invariant rest <= activeBlocks <= index
        invariant forall k | k in out :: IsCentral(k) && k in v && out[k] == v[k]
        invariant limit > 0 ==> |out| <= limit
        invariant forall k | k in v && k in index && k !in rest :: k in out
        decreases |rest|
      {
        var key :| key in rest;
        assert key in central && IsCentral(key);
        rest := rest - {key};
        var e := ForgetExpired(key, now, v);
        if e.Some? {
          if limit > 0 && |out| >= limit { return out, false; }
          out := out[key := e.value];
        }
      }
    }

    /** As time passes callers see the same store without what expired meanwhile. */
    lemma TimePasses(v: Store, now: int, later: int)
      requires Valid() && Shows(v, now) && now <= later
      ensures Shows(View(v, later), later) && (Indexed(now) ==> Indexed(later))
    {
    }
  }
}
