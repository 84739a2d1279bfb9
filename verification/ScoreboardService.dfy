/** The scoreboard's operations run one after the other against the in-process
    store. Each contract gives the live view it leaves; UnblockProtocol splits
    the same operations at their store calls and interleaves them. */
module ScoreboardService {
  import opened Options
  import opened TtlStore
  import opened BlockCommits
  import opened Scoreboard
  import opened AddressRecords
  import opened ShardedMemory
  import Backoff

  /** A configured event and its window in nanoseconds. */
  datatype Window = Window(event: string, length: int)

  /** Buckets count whole seconds, at least one. */
  function WindowBucket(unixNow: int, length: int): int
    requires length > 0
  {
    EventBucket(unixNow, length / SECOND)
  }

  /** The keys a reset addresses: three buckets around now per usable window. */
  function ResetKeys(windows: seq<Window>, ip: IP, generation: string, unixNow: int): set<string> {
    if windows == [] then {}
    else
      var w, rest := windows[|windows| - 1], ResetKeys(windows[..|windows| - 1], ip, generation, unixNow);
      if w.event == "" || w.length <= 0 then rest
      else
        var b := WindowBucket(unixNow, w.length);
        rest + {EventKey(w.event, ip, generation, b - 1), EventKey(w.event, ip, generation, b), EventKey(w.event, ip, generation, b + 1)}
  }

  function Usable(windows: seq<Window>): nat {
    if windows == [] then 0
    else Usable(windows[..|windows| - 1]) + (if windows[|windows| - 1].event == "" || windows[|windows| - 1].length <= 0 then 0 else 1)
  }

  function Without(v: Store, keys: set<string>): Store { map k | k in v && k !in keys :: v[k] }

  /** The generation as a caller reads it. */
  function Token(v: Store, ip: IP): Option<Value> { Lookup(v, GenKey(ip)) }

  function BlockOf(v: Store, ip: IP, block: Value, ttl: int, maxTTL: int, guard: Option<Value>): BlockCommit {
    BlockCommit(BlockKey(ip), Lookup(v, BlockKey(ip)), block,
                if ttl <= 0 then 60 * SECOND else ttl, if maxTTL <= 0 then HARD_MAX_BLOCK_TTL else maxTTL,
                BlockCountKey(ip), BACKOFF_WINDOW, HoldKey(ip), GenKey(ip), guard)
  }

  class Service {
    const store: ShardedMemory
    const canon: string -> IP       // reduces the textual forms of one address to one of them
    const unblockHold: int          // 0 disables the coordination with unblocks

    constructor (store: ShardedMemory, canon: string -> IP, unblockHold: int)
      ensures this.store == store && this.canon == canon && this.unblockHold == unblockHold
    {
      this.store, this.canon, this.unblockHold := store, canon, unblockHold;
    }

    ghost predicate Sees(v: Store, now: int)
      reads store, store.shards
    {
      store.Valid() && store.Shows(v, now) && store.Indexed(now)
    }

    /** The canonical form of an address is its own. */
    ghost predicate Canonical() { forall x :: canon(canon(x)) == canon(x) }

    /** The block of an address as it is tried on a store that shows `v`. */
    ghost function TheBlock(v: Store, ip: IP, block: Value, ttl: int, maxTTL: int): BlockCommit {
      BlockOf(v, ip, block, ttl, maxTTL, if unblockHold <= 0 then None else Token(v, ip))
    }

    method UnblockToken(ip: IP, now: nat, ghost v: Store) returns (token: Option<Value>)
      requires Sees(v, now)
      modifies store, store.shards
      ensures Sees(v, now)
      ensures token == if unblockHold <= 0 then None else Token(v, ip)
    {
      if unblockHold <= 0 { return None; }
      token := store.Get(GenKey(ip), now, v);
    }

    method HoldUnblock(address: string, generation: Value, now: nat, ghost v: Store) returns (ghost v': Store)
      requires Sees(v, now)
      modifies store, store.shards
      ensures Sees(v', now)
      ensures v' == if unblockHold <= 0 then v else
        v[HoldKey(canon(address)) := Entry(Text("1"), now + unblockHold)]
         [GenKey(canon(address)) := Entry(generation, now + GEN_RETENTION)]
      ensures forall other | other != canon(address) :: SameRecords(v, v', other)
    {
      hide SameRecords, BlockKey, BlockCountKey;
      if unblockHold <= 0 {
        forall other: IP ensures SameRecords(v, v, other) { Unchanged(v, other); }
        return v;
      }
      var ip := canon(address);
      store.Set(HoldKey(ip), Text("1"), unblockHold, now, v);
      v' := v[HoldKey(ip) := Entry(Text("1"), now + unblockHold)];
      store.Set(GenKey(ip), generation, GEN_RETENTION, now, v');
      v' := v'[GenKey(ip) := Entry(generation, now + GEN_RETENTION)];
      HoldApart(v, ip, Entry(Text("1"), now + unblockHold), Entry(generation, now + GEN_RETENTION));
    }

    /** With nothing in between only a live hold refuses the block, and a refused
        block changes nothing. With the coordination disabled a generation left
        over from when it was enabled refuses it as well. */
    method Block(address: string, block: Value, ttl: int, maxTTL: int, now: nat, ghost v: Store)
      returns (r: BlockResult, ghost v': Store)
      requires Sees(v, now)
      modifies store, store.shards
      ensures Sees(v', now)
      ensures (v', r) == CommitBlock(v, TheBlock(v, canon(address), block, ttl, maxTTL), now)
      ensures unblockHold > 0 ==> (r.Committed? <==> HoldKey(canon(address)) !in v)
      ensures r.Refused? ==> v' == v && r.why != BlockMoved
      ensures forall other | other != canon(address) :: SameRecords(v, v', other)
    {
      hide SameRecords, CommitBlock, BlockKey, BlockCountKey, HoldKey, GenKey;
      var ip := canon(address);
      BlockKeyIsCentral(ip);
      var guard := UnblockToken(ip, now, v);
      var prev := store.Get(BlockKey(ip), now, v);
      var c := BlockCommit(BlockKey(ip), prev, block,
        if ttl <= 0 then 60 * SECOND else ttl, if maxTTL <= 0 then HARD_MAX_BLOCK_TTL else maxTTL,
        BlockCountKey(ip), BACKOFF_WINDOW, HoldKey(ip), GenKey(ip), guard);
      r := store.CommitBlock(c, now, v);
      v' := CommitBlock(v, c, now).0;
      BlockOutcome(v, c, now);
      BlockApart(v, c, ip, now);
    }

    /** A block is tried exactly when the event commits and reaches the limit, and then
        on the store as the event left it. */
    method RecordEvent(address: string, evtype: string, limit: int, window: int, block: Value, ttl: int, maxTTL: int,
                       unixNow: int, now: nat, ghost v: Store)
      returns (tried: bool, ghost v': Store)
      requires Sees(v, now) && Canonical()
      requires Token(v, canon(address)).Some? ==> Token(v, canon(address)).value.Text?
      modifies store, store.shards
      ensures Sees(v', now)
      ensures limit <= 0 || window <= 0 ==> !tried && v' == v
      ensures limit > 0 && window > 0 ==>
        var ip := canon(address);
        var gen := if unblockHold <= 0 || Token(v, ip).None? then "" else Token(v, ip).value.text;
        var c := EventCommit(EventKey(evtype, ip, gen, WindowBucket(unixNow, window)), 2 * window, HoldKey(ip));
        var (v1, e) := CommitEvent(v, c, now);
        && tried == (e.EventResult? && e.committed && e.value >= limit)
        && (HoldKey(ip) in v ==> !tried && v' == v)
        && v' == if tried then CommitBlock(v1, TheBlock(v1, ip, block, ttl, maxTTL), now).0 else v1
      ensures ColonFree(evtype) && (Token(v, canon(address)).Some? ==> ColonFree(Token(v, canon(address)).value.text)) ==>
        forall other | other != canon(address) :: SameRecords(v, v', other)
    {
      hide SameRecords, CommitBlock, CommitEvent, EventKey, BlockKey, BlockCountKey, HoldKey, WindowBucket;
      if limit <= 0 || window <= 0 {
        forall other: IP ensures SameRecords(v, v, other) { Unchanged(v, other); }
        return false, v;
      }
      var ip := canon(address);
      var token := UnblockToken(ip, now, v);
      var gen, bucket := if token.None? then "" else token.value.text, WindowBucket(unixNow, window);
      var c := EventCommit(EventKey(evtype, ip, gen, bucket), 2 * window, HoldKey(ip));
      EventKeyNotCentral(evtype, ip, gen, bucket);
      var e := store.CommitEvent(c, now, v);
      v' := CommitEvent(v, c, now).0;
      ghost var v1 := v';
      HeldEvent(v, c, now);
      if ColonFree(evtype) && ColonFree(gen) { EventApart(v, c, ip, evtype, gen, bucket, now); }
      if !(e.EventResult? && e.committed && e.value >= limit) { return false, v'; }
      tried := true;
      var placed: BlockResult;
      placed, v' := Block(ip, block, ttl, maxTTL, now, v');
      assert canon(ip) == ip;
      if ColonFree(evtype) && ColonFree(gen) {
        forall other | other != ip ensures SameRecords(v, v', other) { SameTwice(v, v1, v', other); }
      }
    }

    /** An unblock without coordination: the records are simply deleted. */
    method Lift(ip: IP, resetBackoff: bool, now: nat, ghost v: Store) returns (ghost v': Store)
      requires Sees(v, now)
      modifies store, store.shards
      ensures Sees(v', now)
      ensures v' == Without(v, {BlockKey(ip)} + (if resetBackoff then {BlockCountKey(ip)} else {}))
    {
      v' := v;
      var block, count := BlockKey(ip), BlockCountKey(ip);
      DropIsWithout(v, block, count);
      hide BlockKey, BlockCountKey, Drop, Without;
      if resetBackoff {
        store.Delete(count, now, v');
        v' := Drop(v', count);
      }
      store.Delete(block, now, v');
      v' := Drop(v', block);
    }

    method CommitUnblock(address: string, generation: Value, resetBackoff: bool, now: nat, ghost v: Store)
      returns (ghost v': Store)
      requires Sees(v, now)
      modifies store, store.shards
      ensures Sees(v', now)
      ensures BlockKey(canon(address)) !in v' && (resetBackoff ==> BlockCountKey(canon(address)) !in v')
      ensures unblockHold > 0 ==>
        var ip := canon(address);
        v' == BlockCommits.CommitUnblock(v, UnblockCommit(HoldKey(ip), unblockHold, GenKey(ip), generation, GEN_RETENTION, BlockKey(ip), BlockCountKey(ip), resetBackoff), now)
      ensures unblockHold <= 0 ==>
        v' == Without(v, {BlockKey(canon(address))} + (if resetBackoff then {BlockCountKey(canon(address))} else {}))
      ensures forall other | other != canon(address) :: SameRecords(v, v', other)
    {
      hide SameRecords;
      var ip := canon(address);
      if unblockHold <= 0 {
        v' := Lift(ip, resetBackoff, now, v);
        LiftApart(v, ip, resetBackoff);
        return;
      }
      var c := UnblockCommit(HoldKey(ip), unblockHold, GenKey(ip), generation, GEN_RETENTION, BlockKey(ip), BlockCountKey(ip), resetBackoff);
      store.CommitUnblock(c, now, v);
      v' := BlockCommits.CommitUnblock(v, c, now);
      UnblockApart(v, c, ip, now);
    }

    /** One window's three buckets: the live one and its neighbours. */
    method ResetWindow(ip: IP, generation: string, event: string, bucket: int, now: nat, ghost v: Store)
      returns (keys: nat, ghost v': Store)
      requires Sees(v, now)
      modifies store, store.shards
      ensures Sees(v', now) && keys == 3
      ensures v' == Without(v, {EventKey(event, ip, generation, bucket - 1), EventKey(event, ip, generation, bucket), EventKey(event, ip, generation, bucket + 1)})
    {
      hide EventKey;
      keys, v' := 0, v;
      var b := bucket - 1;
      ghost var done: set<string> := {};
      while b <= bucket + 1
        invariant bucket - 1 <= b <= bucket + 2 && keys == b - bucket + 1
        invariant Sees(v', now)
        invariant done == set x | bucket - 1 <= x < b :: EventKey(event, ip, generation, x)
        invariant v' == Without(v, done)
      {
        var key := EventKey(event, ip, generation, b);
        store.Delete(key, now, v');
        v' := Drop(v', key);
        keys := keys + 1;
        done := done + {key};
        b := b + 1;
      }
      assert done == {EventKey(event, ip, generation, bucket - 1), EventKey(event, ip, generation, bucket), EventKey(event, ip, generation, bucket + 1)};
    }

    /** One entry of the configured windows; an unusable one is skipped. */
    method ResetOne(w: Window, ip: IP, generation: string, unixNow: int, now: nat, ghost v: Store)
      returns (keys: nat, ghost v': Store)
      requires Sees(v, now)
      modifies store, store.shards
      ensures Sees(v', now)
      ensures v' == Without(v, ResetKeys([w], ip, generation, unixNow)) && keys == 3 * Usable([w])
    {
      OneMoreWindow(v, [], w, ip, generation, unixNow);
      NoWindows(v, ip, generation, unixNow);
      assert [] + [w] == [w];
      if w.event == "" || w.length <= 0 { return 0, v; }
      keys, v' := ResetWindow(ip, generation, w.event, WindowBucket(unixNow, w.length), now, v);
    }

    /** The in-process store never fails a delete, so only the key count is returned. */
    method ResetEventCounters(address: string, generation: string, windows: seq<Window>, unixNow: int, now: nat, ghost v: Store)
      returns (keys: nat, ghost v': Store)
      requires Sees(v, now)
      modifies store, store.shards
      ensures Sees(v', now)
      ensures v' == Without(v, ResetKeys(windows, canon(address), generation, unixNow))
      ensures keys == 3 * Usable(windows)
    {
      var ip := canon(address);
      keys, v' := 0, v;
      var i := 0;
      NoWindows(v, ip, generation, unixNow);
      hide *;
      while i < |windows|
        invariant 0 <= i <= |windows|
        invariant Sees(v', now)
        invariant v' == Without(v, ResetKeys(windows[..i], ip, generation, unixNow))
        invariant keys == 3 * Usable(windows[..i])
      {
        WindowsStep(v, windows, i, ip, generation, unixNow);
        var n;
        n, v' := ResetOne(windows[i], ip, generation, unixNow, now, v');
        keys := keys + n;
        i := i + 1;
      }
      assert windows[..|windows|] == windows;
    }
  }

  /** A change of the four plain records of an address and one of its counters. */
  lemma OnlyOwnRecords(v: Store, v': Store, ip: IP, evtype: string, generation: string, bucket: int)
    requires ColonFree(evtype) && ColonFree(generation)
    requires forall key | key !in {BlockKey(ip), BlockCountKey(ip), HoldKey(ip), GenKey(ip), EventKey(evtype, ip, generation, bucket)} :: SameAt(v, v', key)
    ensures forall other | other != ip :: SameRecords(v, v', other)
  {
    hide EventKey, BlockKey, BlockCountKey, HoldKey, GenKey;
    assert KeyOf(EventKey(evtype, ip, generation, bucket), ip);
    forall other | other != ip ensures SameRecords(v, v', other) { OthersUntouched(v, v', ip, other); }
  }

  lemma HoldApart(v: Store, ip: IP, hold: Entry, gen: Entry)
    ensures var v' := v[HoldKey(ip) := hold][GenKey(ip) := gen]; forall other | other != ip :: SameRecords(v, v', other)
  {
    hide EventKey, BlockKey, BlockCountKey, HoldKey, GenKey, SameRecords;
    OnlyOwnRecords(v, v[HoldKey(ip) := hold][GenKey(ip) := gen], ip, "", "", 0);
  }

  lemma EventApart(v: Store, c: EventCommit, ip: IP, evtype: string, generation: string, bucket: int, now: int)
    requires c.counterKey == EventKey(evtype, ip, generation, bucket) && ColonFree(evtype) && ColonFree(generation)
    ensures forall other | other != ip :: SameRecords(v, CommitEvent(v, c, now).0, other)
  {
    hide EventKey, BlockKey, BlockCountKey, HoldKey, GenKey, SameRecords;
    OnlyOwnRecords(v, CommitEvent(v, c, now).0, ip, evtype, generation, bucket);
  }

  lemma BlockApart(v: Store, c: BlockCommit, ip: IP, now: int)
    requires c.blockKey == BlockKey(ip) && c.counterKey == BlockCountKey(ip)
    ensures forall other | other != ip :: SameRecords(v, CommitBlock(v, c, now).0, other)
  {
    hide EventKey, BlockKey, BlockCountKey, HoldKey, GenKey, SameRecords, BlockRefusal, Offenses;
    OnlyOwnRecords(v, CommitBlock(v, c, now).0, ip, "", "", 0);
  }

  lemma UnblockApart(v: Store, c: UnblockCommit, ip: IP, now: int)
    requires c.blockKey == BlockKey(ip) && c.counterKey == BlockCountKey(ip) && c.holdKey == HoldKey(ip) && c.generationKey == GenKey(ip)
    ensures forall other | other != ip :: SameRecords(v, BlockCommits.CommitUnblock(v, c, now), other)
  {
    hide EventKey, BlockKey, BlockCountKey, HoldKey, GenKey, SameRecords;
    OnlyOwnRecords(v, BlockCommits.CommitUnblock(v, c, now), ip, "", "", 0);
  }

  lemma LiftApart(v: Store, ip: IP, resetBackoff: bool)
    ensures var v' := Without(v, {BlockKey(ip)} + (if resetBackoff then {BlockCountKey(ip)} else {}));
            forall other | other != ip :: SameRecords(v, v', other)
  {
    hide EventKey, BlockKey, BlockCountKey, HoldKey, GenKey, SameRecords;
    OnlyOwnRecords(v, Without(v, {BlockKey(ip)} + (if resetBackoff then {BlockCountKey(ip)} else {})), ip, "", "", 0);
  }

  /** A reset addresses the counters of usable windows in the three buckets around now. */
  lemma {:induction false} ResetKeysAre(windows: seq<Window>, ip: IP, generation: string, unixNow: int, key: string)
    ensures key in ResetKeys(windows, ip, generation, unixNow) <==>
      exists i, d :: 0 <= i < |windows| && -1 <= d <= 1 && Addressed(windows[i], ip, generation, unixNow, d, key)
  {
    hide EventKey, WindowBucket;
    if windows != [] {
      var front, w := windows[..|windows| - 1], windows[|windows| - 1];
      ResetKeysAre(front, ip, generation, unixNow, key);
      if i, d :| 0 <= i < |windows| && -1 <= d <= 1 && Addressed(windows[i], ip, generation, unixNow, d, key) {
        if i < |front| { assert Addressed(front[i], ip, generation, unixNow, d, key); }
      }
      if i, d :| 0 <= i < |front| && -1 <= d <= 1 && Addressed(front[i], ip, generation, unixNow, d, key) {
        assert Addressed(windows[i], ip, generation, unixNow, d, key);
      }
      assert key in ResetKeys(windows, ip, generation, unixNow) && key !in ResetKeys(front, ip, generation, unixNow) ==>
        || Addressed(windows[|windows| - 1], ip, generation, unixNow, -1, key) || Addressed(windows[|windows| - 1], ip, generation, unixNow, 0, key)
        || Addressed(windows[|windows| - 1], ip, generation, unixNow, 1, key);
    }
  }

  predicate Addressed(w: Window, ip: IP, generation: string, unixNow: int, d: int, key: string) {
    w.event != "" && w.length > 0 && key == EventKey(w.event, ip, generation, WindowBucket(unixNow, w.length) + d)
  }

  /** So whatever was counted less than a window away from the reset is reset. */
  lemma ResetReaches(windows: seq<Window>, i: nat, ip: IP, generation: string, unixNow: nat, counted: nat)
    requires i < |windows| && windows[i].event != "" && windows[i].length > 0
    requires var w := if windows[i].length / SECOND < 1 then 1 else windows[i].length / SECOND; -w < counted - unixNow < w
    ensures EventKey(windows[i].event, ip, generation, WindowBucket(counted, windows[i].length)) in ResetKeys(windows, ip, generation, unixNow)
  {
    hide EventKey, EventBucket;
    var w := windows[i];
    var length := if w.length / SECOND < 1 then 1 else w.length / SECOND;
    FlooredWindow(counted, w.length);
    FlooredWindow(unixNow, w.length);
    NearbyBuckets(counted, unixNow, length);
    var key, d := EventKey(w.event, ip, generation, WindowBucket(counted, w.length)), WindowBucket(counted, w.length) - WindowBucket(unixNow, w.length);
    assert Addressed(windows[i], ip, generation, unixNow, d, key);
    ResetKeysAre(windows, ip, generation, unixNow, key);
  }

  lemma FlooredWindow(t: nat, length: int)
    requires length > 0
    ensures WindowBucket(t, length) == EventBucket(t, if length / SECOND < 1 then 1 else length / SECOND)
  {
  }

  /** And no counter of another address is. */
  lemma ResetApart(v: Store, windows: seq<Window>, ip: IP, generation: string, unixNow: int, other: IP)
    requires other != ip && ColonFree(generation) && forall i :: 0 <= i < |windows| ==> ColonFree(windows[i].event)
    ensures SameRecords(v, Without(v, ResetKeys(windows, ip, generation, unixNow)), other)
  {
    hide EventKey, WindowBucket, BlockKey, BlockCountKey, HoldKey, GenKey, SameRecords, ResetKeys;
    var v' := Without(v, ResetKeys(windows, ip, generation, unixNow));
    forall key | !KeyOf(key, ip) ensures SameAt(v, v', key) {
      ResetKeysAre(windows, ip, generation, unixNow, key);
    }
    OthersUntouched(v, v', ip, other);
  }

  lemma HeldEvent(v: Store, c: EventCommit, now: int)
    ensures c.holdKey in v ==> CommitEvent(v, c, now) == (v, EventResult(false, 0))
  {
  }

  /** The comparisons in their order: the hold, the generation, the block. */
  lemma BlockOutcome(v: Store, c: BlockCommit, now: int)
    ensures var (v', r) := CommitBlock(v, c, now);
            && (r.Refused? ==> v' == v)
            && (r.Committed? <==>
                  c.holdKey !in v && Lookup(v, c.guardKey) == c.guardValue && Lookup(v, c.blockKey) == c.expectedBlock)
            && (r == Refused(HoldLive) <==> c.holdKey in v)
            && (r == Refused(GenerationMoved) <==> c.holdKey !in v && Lookup(v, c.guardKey) != c.guardValue)
            && (r == Refused(BlockMoved) <==>
                  c.holdKey !in v && Lookup(v, c.guardKey) == c.guardValue && Lookup(v, c.blockKey) != c.expectedBlock)
  {
  }

  /** A committed block is stored as it was given, for its rung; its offense is counted in
      a counter that keeps the window it was opened with; nothing else changes. */
  lemma BlockWritten(v: Store, c: BlockCommit, now: int)
    requires CommitBlock(v, c, now).1.Committed? && c.blockKey != c.counterKey && c.counterTTL > 0
    ensures var (v', r) := CommitBlock(v, c, now);
            var was := if c.counterKey in v && v[c.counterKey].value.Number? && v[c.counterKey].value.n >= 0 then v[c.counterKey].value.n else 0;
            && r.offenses == was + 1 && r.ttl > 0
            && c.blockKey in v' && v'[c.blockKey] == Entry(c.newBlock, now + r.ttl)
            && c.counterKey in v' && v'[c.counterKey] == Entry(Number(was + 1), if c.counterKey in v then v[c.counterKey].expires else now + c.counterTTL)
            && (forall key | key != c.blockKey && key != c.counterKey :: SameAt(v, v', key))
  {
    Backoff.LadderClimbs(c.baseTTL, c.maxTTL, Offenses(v, c.counterKey), Offenses(v, c.counterKey));
  }

  /** How long the block of an address lasts: the first for the given time, or a minute,
      each further one twice as long as the one before, and none beyond the given limit,
      or thirty days. */
  lemma BlockLasts(v: Store, ip: IP, block: Value, ttl: int, maxTTL: int, guard: Option<Value>, now: int)
    requires CommitBlock(v, BlockOf(v, ip, block, ttl, maxTTL, guard), now).1.Committed?
    ensures var (v', r) := CommitBlock(v, BlockOf(v, ip, block, ttl, maxTTL, guard), now);
            var base, limit := (if ttl <= 0 then 60_000_000_000 else ttl), (if maxTTL <= 0 then 2_592_000_000_000_000 else maxTTL);
            && BlockKey(ip) in v' && v'[BlockKey(ip)] == Entry(block, now + r.ttl) && 0 < r.ttl <= limit
            && (BlockCountKey(ip) !in v ==> r.offenses == 1 && r.ttl == (if base <= limit then base else limit))
            && (r.offenses > 1 ==> r.ttl == Backoff.Min(2 * Backoff.Rung(base, limit, r.offenses - 1), limit))
            && BlockCountKey(ip) in v' && v'[BlockCountKey(ip)].value == Number(r.offenses)
  {
    var c := BlockOf(v, ip, block, ttl, maxTTL, guard);
    CountKeyApart(ip, ip, "", "", 0);
    BlockWritten(v, c, now);
    hide BlockKey, BlockCountKey, HoldKey, GenKey;
    var n := Offenses(v, c.counterKey);
    Backoff.LadderClimbs(c.baseTTL, c.maxTTL, n, n);
    if n > 1 { Backoff.LadderClimbs(c.baseTTL, c.maxTTL, n - 1, n); }
  }

  lemma BlockKeyIsCentral(ip: IP)
    ensures IsCentral(BlockKey(ip))
  {
  }

  lemma Unchanged(v: Store, ip: IP)
    ensures SameRecords(v, v, ip)
  {
    hide EventKey, BlockKey, BlockCountKey, HoldKey, GenKey;
  }

  lemma SameTwice(v: Store, v1: Store, v2: Store, ip: IP)
    requires SameRecords(v, v1, ip) && SameRecords(v1, v2, ip)
    ensures SameRecords(v, v2, ip)
  {
    hide EventKey, BlockKey, BlockCountKey, HoldKey, GenKey;
    forall evtype: string, generation: string, bucket: int | ColonFree(evtype) && ColonFree(generation)
      ensures SameAt(v, v2, EventKey(evtype, ip, generation, bucket))
    {
      assert SameAt(v, v1, EventKey(evtype, ip, generation, bucket)) && SameAt(v1, v2, EventKey(evtype, ip, generation, bucket));
    }
  }

  lemma DropIsWithout(v: Store, a: string, b: string)
    ensures Drop(v, a) == Without(v, {a} + {}) && Drop(Drop(v, b), a) == Without(v, {a} + {b})
  {
  }

  lemma WindowsStep(v: Store, windows: seq<Window>, i: nat, ip: IP, generation: string, unixNow: int)
    requires i < |windows|
    ensures Without(v, ResetKeys(windows[..i + 1], ip, generation, unixNow))
         == Without(Without(v, ResetKeys(windows[..i], ip, generation, unixNow)), ResetKeys([windows[i]], ip, generation, unixNow))
    ensures Usable(windows[..i + 1]) == Usable(windows[..i]) + Usable([windows[i]])
  {
    hide ResetKeys, Usable, Without;
    WindowsAppend(v, windows[..i], windows[i], ip, generation, unixNow);
    assert windows[..i] + [windows[i]] == windows[..i + 1];
  }

  lemma WindowsAppend(v: Store, windows: seq<Window>, w: Window, ip: IP, generation: string, unixNow: int)
    ensures Without(v, ResetKeys(windows + [w], ip, generation, unixNow))
         == Without(Without(v, ResetKeys(windows, ip, generation, unixNow)), ResetKeys([w], ip, generation, unixNow))
    ensures Usable(windows + [w]) == Usable(windows) + Usable([w])
  {
    hide EventKey, EventBucket, WindowBucket;
    assert (windows + [w])[..|windows|] == windows && [w][..0] == [];
  }

  lemma NoWindows(v: Store, ip: IP, generation: string, unixNow: int)
    ensures Without(v, ResetKeys([], ip, generation, unixNow)) == v && Usable([]) == 0
  {
  }

  lemma OneMoreWindow(v: Store, windows: seq<Window>, w: Window, ip: IP, generation: string, unixNow: int)
    ensures var before, after := Without(v, ResetKeys(windows, ip, generation, unixNow)), Without(v, ResetKeys(windows + [w], ip, generation, unixNow));
            if w.event == "" || w.length <= 0 then
              after == before && Usable(windows + [w]) == Usable(windows)
            else
              var b := WindowBucket(unixNow, w.length);
              && after == Without(before, {EventKey(w.event, ip, generation, b - 1), EventKey(w.event, ip, generation, b), EventKey(w.event, ip, generation, b + 1)})
              && Usable(windows + [w]) == Usable(windows) + 1
  {
    hide EventKey, EventBucket, WindowBucket;
    assert (windows + [w])[..|windows|] == windows;
  }

  lemma EventKeyNotCentral(evtype: string, ip: IP, generation: string, bucket: int)
    ensures !IsCentral(EventKey(evtype, ip, generation, bucket))
  {
    assert EventKey(evtype, ip, generation, bucket)[0] == 'e';
  }
}
