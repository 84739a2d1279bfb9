/** What the shutdown flush may claim. It first waits until it sees no drainer, and
    then, in another locked section, looks for unpushed keys; requests go on in
    between. */
module FlushReport {
  import opened CounterCache
  import opened CounterCacheProtocol
  import TtlStore

  /** When no key holds an unpushed delta, every live count is acknowledged or on its
      way to the store in the hands of a running drainer or its queue. */
  lemma NothingParked(t: Sys, slot: Slot)
    requires Reachable(t) && Unpushed(t.c, t.clock) == {}
    requires t.clock < slot.deadline && t.epochs(slot.key) <= slot.epoch
    ensures t.ledger.counted(slot) > t.ledger.acked(slot) ==> t.c.workers > 0
    ensures t.epochs(slot.key) == slot.epoch ==>
      t.ledger.counted(slot) == t.ledger.acked(slot) + DirtyIn(t.c, slot) + ClaimedAt(t.drainers, slot)
  {
    ReachableInv(t);
    NothingStranded(t);
    assert Balanced(t, slot) && Justified(t, slot);
    assert slot.key in t.c.m && t.c.m[slot.key].pending > 0 && t.clock < t.c.m[slot.key].expires ==>
        slot.key in Unpushed(t.c, t.clock);
    if t.c.workers == 0 { assert t.drainers == []; }
  }

  /** No delta of the key is on its way to the store. */
  ghost predicate NotPushed(s: Sys, key: Key) {
    && (key in s.c.dirty ==> s.c.dirty[key].delta == 0)
    && (forall i :: 0 <= i < |s.drainers| && HasClaim(s.drainers[i]) ==> s.drainers[i].slot.key != key)
  }

  /** The event counts the key or flushes it. */
  predicate Touches(e: Event, key: Key) { (e.Request? && e.key == key) || (e.FlushAll? && key in e.order) }

  lemma {:induction false} NoClaims(ds: seq<Drainer>, slot: Slot)
    requires forall i :: 0 <= i < |ds| && HasClaim(ds[i]) ==> ds[i].slot.key != slot.key
    ensures ClaimedAt(ds, slot) == 0
  {
    if ds != [] { NoClaims(ds[..|ds| - 1], slot); }
  }

  lemma StillNotPushed(s: Sys, e: Event, key: Key)
    requires NotPushed(s, key) && Enabled(s, e) && !Touches(e, key)
    ensures NotPushed(Apply(s, e), key)
  {
    match e
    case Request(_, _, _) => OtherCounted(s, e, key);
    case FlushAll(order) => OthersFlushed(s, order, key);
    case ForgetKey(_) => TableStep(s, e, key);
    case Take(_) => TableStep(s, e, key);
    case FlushTop(i) => TopStep(s, i, key);
    case _ => RoundStep(s, e, key);
  }

  lemma OthersFlushed(s: Sys, order: seq<Key>, key: Key)
    requires NotPushed(s, key) && Enabled(s, FlushAll(order)) && key !in order
    ensures NotPushed(Apply(s, FlushAll(order)), key)
  {
    hide HeldBy, ClaimedAt;
    assert key in Promote(s.c, order).dirty ==> key in s.c.dirty && Promote(s.c, order).dirty[key] == s.c.dirty[key];
  }

  lemma TableStep(s: Sys, e: Event, key: Key)
    requires NotPushed(s, key) && Enabled(s, e) && (e.ForgetKey? || e.Take?)
    ensures NotPushed(Apply(s, e), key)
  {
    hide Gap, HeldBy, ClaimedAt;
  }

  lemma TopStep(s: Sys, i: nat, key: Key)
    requires NotPushed(s, key) && Enabled(s, FlushTop(i))
    ensures NotPushed(Apply(s, FlushTop(i)), key)
  {
    hide Gap, HeldBy, ClaimedAt;
  }

  lemma RoundStep(s: Sys, e: Event, key: Key)
    requires NotPushed(s, key) && Enabled(s, e)
    requires e.Tick? || e.PeerWrite? || e.DeleteRound? || e.GiveUp? || e.PushRound? || e.MergeBack? || e.PreserveBack?
    ensures NotPushed(Apply(s, e), key)
  {
    hide Gap, TtlStore.IncrByDeadline, TtlStore.View, HeldBy, ClaimedAt;
  }

  /** Counting another key leaves this key's delta where it is. */
  lemma OtherCounted(s: Sys, e: Event, key: Key)
    requires NotPushed(s, key) && Enabled(s, e) && e.Request? && e.key != key
    ensures NotPushed(Apply(s, e), key)
  {
    hide Gap, Sweep;
    var c := Incr(s.c, e.key, e.ttl, e.read, s.clock).0;
    assert key in c.dirty ==> key in s.c.dirty && c.dirty[key] == s.c.dirty[key];
  }

  lemma {:induction false} NotPushedMeanwhile(s: Sys, es: seq<Event>, t: Sys, key: Key)
    requires NotPushed(s, key) && Run(s, es, t) && forall i :: 0 <= i < |es| ==> !Touches(es[i], key)
    ensures NotPushed(t, key)
    decreases |es|
  {
    if es != [] {
      StillNotPushed(s, es[0], key);
      NotPushedMeanwhile(Apply(s, es[0]), es[1..], t, key);
    }
  }

  /** When Flush reports success, the store has acknowledged every live count of every
      key that was not counted again, or flushed by another call, between its two
      looks; whatever else happened in between. */
  lemma FlushReportsTheTruth(s: Sys, es: seq<Event>, t: Sys, slot: Slot)
    requires Reachable(s) && s.c.workers == 0
    requires Run(s, es, t) && forall i :: 0 <= i < |es| ==> !Touches(es[i], slot.key)
    requires Unpushed(t.c, t.clock) == {}
    requires t.clock < slot.deadline && t.epochs(slot.key) <= slot.epoch
    ensures t.ledger.counted(slot) == t.ledger.acked(slot)
  {
    ReachableInv(s);
    NothingStranded(s);
    assert s.drainers == [];
    NotPushedMeanwhile(s, es, t, slot.key);
    RunInv(s, es, t);
    NoClaims(t.drainers, slot);
    hide HeldBy, ClaimedAt;
    assert Balanced(t, slot) && Justified(t, slot);
    assert slot.key in t.c.m && t.c.m[slot.key].pending > 0 && t.clock < t.c.m[slot.key].expires ==>
        slot.key in Unpushed(t.c, t.clock);
  }

  // ---------- a key that is counted in between ----------

  lemma {:induction false} RunThen(s: Sys, es: seq<Event>, t: Sys, e: Event)
    requires Run(s, es, t) && Enabled(t, e)
    ensures Run(s, es + [e], Apply(t, e))
    decreases |es|
  {
    if es == [] {
      assert Run(Apply(s, e), [], Apply(t, e));
      assert [e][1..] == [];
    } else {
      RunThen(Apply(s, es[0]), es[1..], t, e);
      assert (es + [e])[0] == es[0] && (es + [e])[1..] == es[1..] + [e];
    }
  }

  lemma ReachOn(t: Sys, e: Event)
    requires Reachable(t) && Enabled(t, e)
    ensures Reachable(Apply(t, e))
  {
    var clock: nat, store, es :| Run(Init(clock, store), es, t);
    RunThen(Init(clock, store), es, t, e);
  }

  function TheSlot(key: Key): Slot { Slot(key, 11, 0) }

  /** The one key of the run: its entry, its delta, the queue and the drainers, and what
      the books say of its window. */
  ghost predicate Only(s: Sys, key: Key, n: nat, pending: nat, dirty: map<Key, Dirty>, queue: seq<Key>, drainers: seq<Drainer>) {
    && s.clock == 1 && s.epochs(key) == 0
    && s.c.m == map[key := Entry(n, 11, pending)] && s.c.dirty == dirty && s.c.queue == queue
    && s.c.workers == |drainers| && s.drainers == drainers
    && s.ledger.counted(TheSlot(key)) == n && s.ledger.acked(TheSlot(key)) == 0
  }

  /** One request is counted and claimed for the store. */
  lemma Claimed(key: Key) returns (t: Sys)
    ensures Reachable(t) && Only(t, key, 1, 0, map[key := Dirty(0, 11, false)], [], [Pushing(TheSlot(key), 1)])
  {
    var s0 := Init(1, map[]);
    assert Run(s0, [], s0);
    var s1 := Counted(s0, key);
    ReachOn(s1, Take(0));
    var s2 := Apply(s1, Take(0));
    assert s2.drainers == [Flushing(key)] && s2.c.queue == [];
    ReachOn(s2, FlushTop(0));
    t := Apply(s2, FlushTop(0));
  }

  lemma Counted(s: Sys, key: Key) returns (t: Sys)
    requires Reachable(s) && s == Init(1, map[])
    ensures Reachable(t) && Only(t, key, 1, 0, map[key := Dirty(1, 11, false)], [key], [Idle])
  {
    hide Gap, Reachable;
    var (c, a) := Incr(s.c, key, 10, 1, 1);
    assert MakeRoom(s.c, 1) == (s.c, true);
    assert c.m == map[key := Entry(1, 11, 0)] && c.dirty == map[key := Dirty(1, 11, false)] && c.queue == [key] && c.workers == 1;
    assert a == IncrResult.Counted(1, true);
    ReachOn(s, Request(key, 10, 1));
    t := Apply(s, Request(key, 10, 1));
    assert t.drainers == [Idle];
  }

  /** A shutdown flush finds nothing parked. Then the round is lost, the delta parked,
      and the drainer retires. */
  lemma Retired(key: Key) returns (s: Sys, es: seq<Event>, t: Sys)
    ensures Reachable(s) && Enabled(s, FlushAll([])) && Run(Apply(s, FlushAll([])), es, t)
    ensures Only(t, key, 1, 1, map[], [], [])
  {
    s := Claimed(key);
    hide Reachable, Gap;
    var s0 := Apply(s, FlushAll([]));
    assert Only(s0, key, 1, 0, map[key := Dirty(0, 11, false)], [], [Pushing(TheSlot(key), 1)]);
    es, t := LostAndParked(s0, key);
  }

  lemma LostAndParked(s: Sys, key: Key) returns (es: seq<Event>, t: Sys)
    requires Only(s, key, 1, 0, map[key := Dirty(0, 11, false)], [], [Pushing(TheSlot(key), 1)])
    ensures Run(s, es, t) && Only(t, key, 1, 1, map[], [], [])
  {
    hide Gap, Run;
    RunNone(s);
    RunThen(s, [], s, PushRound(0, Lost(false)));
    var s1 := Apply(s, PushRound(0, Lost(false)));
    assert s1.drainers == [Preserving(TheSlot(key), 1)];
    RunThen(s, [] + [PushRound(0, Lost(false))], s1, PreserveBack(0));
    var s2 := Apply(s1, PreserveBack(0));
    assert Only(s2, key, 1, 1, map[], [], [Idle]);
    es := [] + [PushRound(0, Lost(false))] + [PreserveBack(0)] + [Take(0)];
    RunThen(s, [] + [PushRound(0, Lost(false))] + [PreserveBack(0)], s2, Take(0));
    t := Apply(s2, Take(0));
  }

  lemma RunNone(s: Sys)
    ensures Run(s, [], s)
  {
  }

  /** Flush has begun and has seen no drainer. One more request, which its callers are
      asked to stop first, takes the parked delta up again, so no key is unpushed and
      Flush reports success, with nothing acknowledged. */
  lemma RequestBetweenTheLooks(key: Key)
    ensures exists s, es, t, e ::
      && Reachable(s) && Enabled(s, FlushAll([])) && Run(Apply(s, FlushAll([])), es, t) && t.c.workers == 0
      && Enabled(t, e) && Touches(e, key)
      && var u := Apply(t, e);
         Unpushed(u.c, u.clock) == {} && u.ledger.counted(TheSlot(key)) == 2 && u.ledger.acked(TheSlot(key)) == 0
  {
    var s, es, t := Retired(key);
    hide Reachable, Gap, Run;
    var e := Request(key, 10, 1);
    var u := Apply(t, e);
    assert Unpushed(u.c, u.clock) == {};
    assert u.ledger.counted(TheSlot(key)) == 2 && u.ledger.acked(TheSlot(key)) == 0;
  }
}
