/** The other halves of what is proved of the mirror: what history records as lost
    does lead to a block the mirror misses, and what the runs of the resurrection
    theorem leave out does bring a removed address back.

    A block slips when the clock of a reconcile is read, its address was removed
    since, and its notification is dropped before the generation is read: the
    scan passes it over as removed, and the drop goes unnoticed at the end. A
    block is cut short when it was committed and written through after the scan,
    and the scan's older entry then replaces its own. */
module MirrorGap {
  import opened MirrorProtocol
  import opened MirrorRoom
  import opened MirrorConvergence
  import opened MirrorResurrection
  import Mirror
  import Scoreboard

  /** The mirror alone answers for misses, yet this live block has no pending
      notification and no entry that lasts as long as it does. */
  predicate Missed(s: Sys, a: Addr) {
    !ReadThrough(s) && Alive(s, a) && !s.store[a].status.Waiting? && !Covered(s, a)
  }

  /** Such a block is not found at some time at which it is live. */
  lemma MissedIsNotFound(s: Sys, a: Addr)
    requires Missed(s, a)
    ensures exists now :: now >= s.clock && Lives(s.store[a], now) && (a in s.mirror ==> Mirror.Expired(s.mirror[a], now))
  {
    var now := if a in s.mirror && s.mirror[a].expiresAt > s.clock then s.mirror[a].expiresAt else s.clock;
    assert now >= s.clock && Lives(s.store[a], now) && (a in s.mirror ==> Mirror.Expired(s.mirror[a], now));
  }

  // ---------- runs ----------

  ghost predicate Leads(s: Sys, t: Sys) { exists es :: Run(s, es, t) }

  lemma LeadsOn(s: Sys, t: Sys, e: Event)
    requires Leads(s, t) && Enabled(t, e)
    ensures Leads(s, Apply(t, e))
  {
    var es :| Run(s, es, t);
    RunThen(s, es, t, e);
  }

  lemma LeadsNowhere(s: Sys)
    ensures Leads(s, s)
  {
    assert Run(s, [], s);
  }

  lemma ReachOn(s: Sys, t: Sys)
    requires Reachable(s) && Leads(s, t)
    ensures Reachable(t)
  {
    var r, es :| Init(r) && Run(r, es, s);
    var fs :| Run(s, fs, t);
    RunJoin(r, es, s, fs, t);
  }

  // ---------- the rest of a reconcile ----------

  /** A block the rest of the upserts will not help: it has no lasting entry and its
      address was dealt with, or will be passed over as removed. */
  predicate Overlooked(s: Sys, a: Addr) {
    && Alive(s, a) && !Covered(s, a) && !s.store[a].status.Waiting?
    && s.recon.Upserting? && s.recon.ok && s.recon.gen == s.generation && s.recon.todo <= s.recon.snap.Keys
    && (a in s.recon.todo ==> Mirror.Vetoes(s.tombs, a, s.recon.start))
    && RoomFor(s, s.recon.start, s.recon.todo)
  }

  /** The state after one scanned address is set. */
  function OneSet(u: Sys, b: Addr): Sys
    requires u.recon.Upserting? && b in u.recon.snap
  {
    var v := u.(tombs := u.tombs - {b}, recon := Setting(u.recon.start, u.recon.gen, u.recon.snap, u.recon.todo, u.recon.ok, b));
    SetTo(v, true, ShedFor(u, b, u.recon.start))
  }

  lemma OneSetLeads(s: Sys, u: Sys, b: Addr)
    requires Leads(s, u) && u.recon.Upserting? && b in u.recon.todo && b in u.recon.snap
    requires !Mirror.Vetoes(u.tombs, b, u.recon.start) && Fits(u, b, u.recon.start)
    ensures Leads(s, OneSet(u, b))
  {
    hide Leads, SetTo, Fits, ShedFor;
    LeadsOn(s, u, CheckTomb(b));
    var v := Check(u, b);
    SameRoom(u, v, b, u.recon.start);
    LeadsOn(s, v, SetScanned);
  }

  lemma SameRoom(u: Sys, v: Sys, b: Addr, now: int)
    requires v.mirror == u.mirror && v.layout == u.layout
    ensures Fits(v, b, now) == Fits(u, b, now) && ShedFor(v, b, now) == ShedFor(u, b, now)
  {
    assert Crowd(v, b) == Crowd(u, b);
  }

  lemma OneSetMirror(u: Sys, b: Addr)
    requires u.recon.Upserting? && b in u.recon.snap
    ensures var t := OneSet(u, b);
            && t.mirror == (u.mirror - ShedFor(u, b, u.recon.start))[b := u.recon.snap[b]]
            && t.notes == u.notes && t.layout == u.layout && t.tombs == u.tombs - {b} && t.generation == u.generation && t.clock == u.clock
            && t.recon == Upserting(u.recon.start, u.recon.gen, u.recon.snap, u.recon.todo - {b}, u.recon.ok)
            && t.store.Keys == u.store.Keys && forall a | a in u.store && a != b :: t.store[a] == u.store[a]
  {
    hide ShedFor, SetTo;
    SetRecord(u.(tombs := u.tombs - {b}, recon := Setting(u.recon.start, u.recon.gen, u.recon.snap, u.recon.todo, u.recon.ok, b)), true, ShedFor(u, b, u.recon.start));
  }

  lemma OneSetRoom(u: Sys, b: Addr)
    requires u.recon.Upserting? && b in u.recon.snap && b in u.recon.todo && !Mirror.Vetoes(u.tombs, b, u.recon.start)
    requires RoomFor(u, u.recon.start, u.recon.todo)
    ensures RoomFor(OneSet(u, b), u.recon.start, u.recon.todo - {b})
  {
    hide OneSet, ShedFor, RoomFor;
    OneSetMirror(u, b);
    RoomKept(u, OneSet(u, b), u.recon.start, u.recon.todo, u.recon.todo - {b});
  }

  lemma StillOverlooked(u: Sys, a: Addr, b: Addr)
    requires Overlooked(u, a) && b in u.recon.todo && b != a && !Mirror.Vetoes(u.tombs, b, u.recon.start)
    ensures Overlooked(OneSet(u, b), a) && OneSet(u, b).recon.todo == u.recon.todo - {b}
  {
    hide OneSet, ShedFor, RoomFor;
    OneSetMirror(u, b);
    OneSetRoom(u, b);
  }

  lemma StillOverlookedVetoed(u: Sys, a: Addr, b: Addr)
    requires Overlooked(u, a) && b in u.recon.todo && Mirror.Vetoes(u.tombs, b, u.recon.start)
    ensures Overlooked(Check(u, b), a) && Check(u, b).recon.todo == u.recon.todo - {b}
  {
    hide RoomFor;
    RoomKept(u, Check(u, b), u.recon.start, u.recon.todo, u.recon.todo - {b});
  }

  /** One scanned address is set, or passed over. */
  lemma OneUpsert(s: Sys, u: Sys, a: Addr, b: Addr) returns (t: Sys)
    requires Leads(s, u) && Overlooked(u, a) && b in u.recon.todo
    ensures Leads(s, t) && Overlooked(t, a) && t.recon.todo == u.recon.todo - {b}
  {
    hide Leads, OneSet, RoomFor;
    if Mirror.Vetoes(u.tombs, b, u.recon.start) {
      LeadsOn(s, u, CheckTomb(b));
      StillOverlookedVetoed(u, a, b);
      t := Check(u, b);
    } else {
      NextFits(u, u.recon.start, u.recon.todo, b);
      OneSetLeads(s, u, b);
      StillOverlooked(u, a, b);
      t := OneSet(u, b);
    }
  }

  lemma {:induction false} Drained(s: Sys, u: Sys, a: Addr) returns (t: Sys)
    requires Leads(s, u) && Overlooked(u, a)
    ensures Leads(s, t) && Overlooked(t, a) && t.recon.todo == {}
    decreases |u.recon.todo|
  {
    hide Leads, Overlooked;
    assert u.recon.Upserting? by { OverlookedUpserts(u, a); }
    if u.recon.todo == {} {
      t := u;
    } else {
      var b :| b in u.recon.todo;
      var v := OneUpsert(s, u, a, b);
      OverlookedUpserts(v, a);
      t := Drained(s, v, a);
      OverlookedUpserts(t, a);
    }
  }

  lemma OverlookedUpserts(u: Sys, a: Addr)
    requires Overlooked(u, a)
    ensures u.recon.Upserting?
  {
  }

  /** A reconcile ends with the mirror taken for complete without the block. */
  lemma EndsMissed(s: Sys, u: Sys, a: Addr) returns (t: Sys)
    requires Leads(s, u) && Overlooked(u, a)
    ensures Leads(s, t) && Missed(t, a)
  {
    hide Leads;
    var v := Drained(s, u, a);
    t := Closed(s, v);
  }

  /** The sweep goes through its shards. It takes entries out, and none that was scanned. */
  ghost predicate Swept(u: Sys, t: Sys) {
    && u.recon.Sweeping? && t.recon.Sweeping? && t.recon == u.recon.(next := t.recon.next)
    && t == u.(mirror := t.mirror, recon := t.recon)
    && (forall b | b in t.mirror :: b in u.mirror && t.mirror[b] == u.mirror[b])
    && (forall b | b in u.mirror && b in u.recon.snap :: b in t.mirror)
  }

  lemma {:induction false} SweptAll(s: Sys, u: Sys) returns (t: Sys)
    requires Leads(s, u) && u.recon.Sweeping? && u.recon.all && u.recon.next <= SHARDS
    ensures Leads(s, t) && Swept(u, t) && t.recon.next == SHARDS
    decreases SHARDS - u.recon.next
  {
    hide Leads;
    if u.recon.next == SHARDS {
      t := u;
    } else {
      LeadsOn(s, u, Sweep);
      var v := u.(mirror := u.mirror - Stale(u), recon := u.recon.(next := u.recon.next + 1));
      t := SweptAll(s, v);
    }
  }

  function Live(s: Sys): set<Addr> { set b | b in s.store && Alive(s, b) }

  /** A full scan from here ends in its upserts. */
  lemma ScanAll(s: Sys, u: Sys) returns (t: Sys)
    requires Leads(s, u) && u.recon.GenRead? && (u.layout.maxEntries > 0 ==> |Live(u)| <= u.layout.maxEntries)
    ensures Leads(s, t) && t == u.(mirror := t.mirror, recon := t.recon)
    ensures t.recon == Upserting(u.recon.start, u.recon.gen, Taken(u, Live(u), u.recon.start), Live(u), true)
    ensures forall b | b in t.mirror :: b in u.mirror && t.mirror[b] == u.mirror[b]
    ensures forall b | b in u.mirror && b in Live(u) :: b in t.mirror
    ensures t.recon.snap.Keys == Live(u)
  {
    hide Leads;
    LeadsOn(s, u, Scan(true, Live(u)));
    var v := Apply(u, Scan(true, Live(u)));
    assert v.recon.snap.Keys == Live(u);
    var w := SweptAll(s, v);
    LeadsOn(s, w, EndSweep);
    t := Apply(w, EndSweep);
  }

  /** From any state in which a block has slipped, if the scan is not cut off and the
      other live blocks fit, the reconcile is taken for complete without it. */
  lemma SlippedIsMissed(s: Sys, a: Addr) returns (t: Sys)
    requires s.recon.ClockRead? && Slipped(s, a)
    requires RoomFor(s, s.recon.start, Live(s)) && (s.layout.maxEntries > 0 ==> |Live(s)| <= s.layout.maxEntries)
    ensures Leads(s, t) && Missed(t, a)
  {
    hide Leads, RoomFor;
    LeadsNowhere(s);
    LeadsOn(s, s, ReadGeneration);
    var u := Apply(s, ReadGeneration);
    assert Live(u) == Live(s);
    var v := ScanAll(s, u);
    SlippedOverlooked(s, v, a);
    t := EndsMissed(s, v, a);
  }

  lemma SlippedOverlooked(s: Sys, v: Sys, a: Addr)
    requires s.recon.ClockRead? && Slipped(s, a) && RoomFor(s, s.recon.start, Live(s))
    requires v == s.(mirror := v.mirror, recon := v.recon, lost := v.lost)
    requires v.recon.Upserting? && v.recon == Upserting(s.recon.start, s.generation, v.recon.snap, Live(s), true) && v.recon.snap.Keys == Live(s)
    requires forall b | b in v.mirror :: b in s.mirror && v.mirror[b] == s.mirror[b]
    ensures Overlooked(v, a)
  {
    hide RoomFor;
    RoomKept(s, v, s.recon.start, Live(s), Live(s));
  }

  /** From any reachable state in which an upsert is about to cut a newer block short,
      that block is missed: at once if the mirror alone answers for misses, and at
      the end of this reconcile if that can still be taken for complete and the
      other scanned addresses fit. */
  lemma ShortenedIsMissed(s: Sys) returns (t: Sys)
    requires Reachable(s) && s.recon.Setting? && s.recon.addr in s.recon.snap && Shortens(s)
    requires !ReadThrough(s) || (s.recon.ok && s.recon.gen == s.generation && RoomFor(s, s.recon.start, s.recon.todo))
    ensures Leads(s, t) && Missed(t, s.recon.addr)
  {
    hide Leads, RoomFor;
    ShorteningIsThere(s);
    SetInPlace(s);
    LeadsNowhere(s);
    LeadsOn(s, s, SetScanned);
    t := SetTo(s, true, {});
    if ReadThrough(s) {
      RoomKept(s, t, s.recon.start, s.recon.todo, s.recon.todo - {s.recon.addr});
      t := EndsMissed(s, t, s.recon.addr);
    }
  }

  lemma ShorteningIsThere(s: Sys)
    requires Reachable(s) && s.recon.Setting? && s.recon.addr in s.recon.snap && Shortens(s)
    ensures s.recon.addr in s.mirror && !Mirror.Expired(s.mirror[s.recon.addr], s.recon.start)
    ensures s.recon.todo <= s.recon.snap.Keys
  {
    ReachableInv(s);
    assert AddrOk(s, s.recon.addr) && ReconOk(s) && StoreOk(s, s.recon.addr);
  }

  lemma SetInPlace(s: Sys)
    requires s.recon.Setting? && s.recon.addr in s.recon.snap && s.recon.addr in s.mirror
    ensures Apply(s, SetScanned) == SetTo(s, true, {})
  {
    hide SetTo;
  }

  // ---------- addresses that come back ----------

  /** The mirror holds an address that is not stored and will not be removed. */
  ghost predicate Resurrected(s: Sys, a: Addr) { a in s.mirror && a !in s.store && !RemovalPending(s, a) }

  /** From any reachable state in which the removal and the upsert of an address
      overlap, the upsert undoes the removal, unless it finds no room or another
      removal of the address is still to come. */
  lemma OverlapResurrects(s: Sys) returns (t: Sys)
    requires Reachable(s) && Overlaps(s) && Fits(s, s.recon.addr, s.recon.start)
    requires forall n | n in s.notes && n != s.lock.note :: s.notes[n] != RemoveNote(s.recon.addr)
    ensures Leads(s, t) && Resurrected(t, s.recon.addr)
  {
    hide Leads, Fits, ShedFor;
    OverlapIsRemoved(s);
    var a, note, shed := s.recon.addr, s.lock.note, ShedFor(s, s.recon.addr, s.recon.start);
    LeadsNowhere(s);
    LeadsOn(s, s, SetScanned);
    var u := SetTo(s, true, shed);
    assert u == s.(mirror := (s.mirror - shed)[a := s.recon.snap[a]], recon := u.recon);
    var evicted := SomeEviction(u, a, u.lock.at);
    LeadsOn(s, u, WriteTomb(note, evicted));
    t := Apply(u, WriteTomb(note, evicted));
  }

  lemma OverlapIsRemoved(s: Sys)
    requires Reachable(s) && Overlaps(s)
    ensures s.recon.addr !in s.store && s.recon.addr in s.recon.snap
  {
    ReachableInv(s);
    assert NoteOk(s, s.lock.note);
  }

  /** From any state in which a tombstone is evicted that the scan has yet to come to,
      the scan brings the address back, unless it finds no room. */
  lemma ForgottenResurrects(s: Sys, note: nat, evicted: set<Addr>, v: Addr) returns (t: Sys)
    requires s.recon.Upserting? && s.recon.todo <= s.recon.snap.Keys && Fits(s, v, s.recon.start)
    requires Enabled(s, WriteTomb(note, evicted)) && Forgets(s, note, evicted, v)
    ensures Leads(s, t) && Resurrected(t, v)
  {
    hide Leads, MayEvict, Fits, ShedFor;
    LeadsNowhere(s);
    LeadsOn(s, s, WriteTomb(note, evicted));
    var u := Apply(s, WriteTomb(note, evicted));
    assert u == s.(tombs := u.tombs, lock := Free, notes := u.notes);
    assert !RemovalPending(u, v) && !Mirror.Vetoes(u.tombs, v, s.recon.start);
    SameRoom(s, u, v, s.recon.start);
    BroughtBack(s, u, v);
    t := OneSet(u, v);
  }

  lemma BroughtBack(s: Sys, u: Sys, v: Addr)
    requires Leads(s, u) && u.recon.Upserting? && v in u.recon.todo && v in u.recon.snap && Fits(u, v, u.recon.start)
    requires !Mirror.Vetoes(u.tombs, v, u.recon.start) && v !in u.store && !RemovalPending(u, v)
    ensures Leads(s, OneSet(u, v)) && Resurrected(OneSet(u, v), v)
  {
    hide Leads, Fits, ShedFor;
    OneSetLeads(s, u, v);
    OneSetMirror(u, v);
    hide OneSet;
    SamePending(u, OneSet(u, v), v);
  }

  lemma SomeEviction(s: Sys, a: Addr, at: int) returns (evicted: set<Addr>)
    ensures MayEvict(s, a, at, evicted)
  {
    if |s.tombs| < Mirror.MAX_TOMBSTONES {
      evicted := {};
    } else {
      var v := Oldest(s.tombs, s.tombs.Keys);
      evicted := if s.tombs[v] < at then {v} else {a};
    }
  }

  lemma {:induction false} Oldest(tombs: map<Addr, int>, keys: set<Addr>) returns (v: Addr)
    requires keys != {} && keys <= tombs.Keys
    ensures v in keys && forall b | b in keys :: tombs[v] <= tombs[b]
  {
    v :| v in keys;
    if keys != {v} {
      var w := Oldest(tombs, keys - {v});
      if tombs[w] < tombs[v] { v := w; }
    }
  }

  // ---------- both are reachable ----------

  const TTL: int := 1_000
  const LATER: int := Scoreboard.HOLD_WINDOW + 2

  function Start(): Sys {
    Sys(Layout((x: Addr) => x, 0x10_0000), 1, map[], (x: Addr) => 0, map[], Free, map[], map[], 0, false, false, Quiet, {}, {})
  }

  lemma StartReachable()
    ensures Reachable(Start())
  {
    LeadsNowhere(Start());
    var es :| Run(Start(), es, Start());
    assert Init(Start());
  }

  /** Two steps of a concrete run. */
  lemma Two(s: Sys, d: Event, e: Event) returns (t: Sys)
    requires Enabled(s, d) && Enabled(Apply(s, d), e)
    ensures Leads(s, t) && t == Apply(Apply(s, d), e)
  {
    hide Leads;
    LeadsNowhere(s);
    LeadsOn(s, s, d);
    LeadsOn(s, Apply(s, d), e);
    t := Apply(Apply(s, d), e);
  }

  predicate AfterTomb(s: Sys) {
    && s.store == map[] && s.notes == map[] && s.lock == Free && s.mirror == map[] && s.tombs == map[7 := 1]
    && s.clock == 1 && s.hold(7) == 1 + Scoreboard.HOLD_WINDOW && s.generation == 0 && s.recon == Quiet
  }

  /** An address is unblocked, and its removal is applied. */
  lemma Removed() returns (t: Sys)
    ensures Reachable(t) && AfterTomb(t)
  {
    hide Reachable, Leads;
    var s := Unblocked();
    t := Two(s, RemoveEntry(0), WriteTomb(0, {}));
    ReachOn(s, t);
  }

  lemma Unblocked() returns (t: Sys)
    ensures Reachable(t) && t.store == map[] && t.notes == map[0 := RemoveNote(7)] && t.lock == Stamped(0, 1) && t.mirror == map[]
    ensures t.tombs == map[] && t.clock == 1 && t.hold(7) == 1 + Scoreboard.HOLD_WINDOW && t.generation == 0 && t.recon == Quiet
  {
    hide Reachable, Leads;
    StartReachable();
    t := Two(Start(), Unblock(7, 0), Stamp(0));
    ReachOn(Start(), t);
  }

  predicate AfterWait(s: Sys) {
    && s.store == map[] && s.notes == map[] && s.lock == Free && s.mirror == map[] && s.tombs == map[7 := 1]
    && s.clock == LATER && s.hold(7) < LATER && s.generation == 0 && s.recon == ClockRead(1, 0)
  }

  /** In the same instant a reconcile reads its clock; then the hold lapses. */
  lemma Waited() returns (t: Sys)
    ensures Reachable(t) && AfterWait(t)
  {
    var s := Removed();
    t := Two(s, ReadClock, Tick(Scoreboard.HOLD_WINDOW + 1));
    ReachOn(s, t);
  }

  /** The address is blocked again, and before the generation is read the store cannot
      be read to validate the notification. */
  lemma SlipReachable() returns (t: Sys)
    ensures Reachable(t) && t.recon.ClockRead? && Slipped(t, 7) && t.mirror == map[] && t.store.Keys == {7}
  {
    var s := Waited();
    t := Two(s, Commit(7, 1, "again", TTL, 1), ValidateFails(1));
    ReachOn(s, t);
  }

  /** So a mirror that is taken for complete and is not is reachable. */
  lemma DropBetweenTheReadsIsMissed()
    ensures exists t :: Reachable(t) && Missed(t, 7)
  {
    hide Missed;
    var s := SlipReachable();
    RoomForOne(s, s.recon.start, Live(s));
    Fewer(Live(s), {7});
    var t := SlippedIsMissed(s, 7);
    ReachOn(s, t);
  }

  lemma RoomForOne(s: Sys, start: int, todo: set<Addr>)
    requires s.mirror.Keys + todo <= {7}
    ensures RoomFor(s, start, todo)
  {
    forall i: nat | i < SHARDS ensures |Wanted(s, i, start, todo)| <= PerShard(s.layout) {
      Fewer(Wanted(s, i, start, todo), {7});
    }
  }

  predicate AfterDelivery(s: Sys, owner: nat, at: int, recon: Recon) {
    && s.store == map[7 := Block(owner, "block", TTL, at, Delivered)] && s.notes == map[] && s.lock == Free
    && s.mirror == map[7 := Mirror.Entry("block", at + TTL, at)] && s.tombs == map[]
    && s.clock == at && s.hold(7) < at && s.generation == 0 && s.recon == recon
  }

  /** A block is committed, validated and written through in one instant. */
  lemma WrittenThrough(s: Sys, owner: nat) returns (t: Sys)
    requires Reachable(s) && !Held(s, 7) && s.notes == map[] && s.lock == Free && s.tombs == map[] && s.generation == 0
    requires s.store.Keys <= {7} && (7 in s.store ==> s.store[7].owner != owner) && s.mirror.Keys <= {7} && s.clock > 0
    ensures Reachable(t) && AfterDelivery(t, owner, s.clock, s.recon)
  {
    hide Reachable, Leads;
    var u := Validating(s, owner);
    OneFits(Apply(u, Stamp(0)), 7, s.clock);
    t := Two(u, Stamp(0), ApplyAdd(0));
    ReachOn(u, t);
  }

  /** A shard always has room for one. */
  lemma OneFits(s: Sys, a: Addr, now: int)
    requires s.mirror.Keys <= {a}
    ensures Fits(s, a, now) && ShedFor(s, a, now) == {}
  {
    if a !in s.mirror { assert Crowd(s, a) == {}; }
  }

  lemma Validating(s: Sys, owner: nat) returns (u: Sys)
    requires Reachable(s) && !Held(s, 7) && s.notes == map[] && s.lock == Free
    requires s.store.Keys <= {7} && (7 in s.store ==> s.store[7].owner != owner)
    ensures Reachable(u) && u.lock == Validated(0) && u.notes == map[0 := AddNote(7, owner, "block", TTL)]
    ensures u == s.(lock := u.lock, notes := u.notes, lost := u.lost, missing := u.missing,
                    store := map[7 := Block(owner, "block", TTL, s.clock, Waiting(0))])
  {
    hide Reachable, Leads;
    u := Two(s, Commit(7, owner, "block", TTL, 0), Validate(0, true));
    ReachOn(s, u);
  }

  /** A scan sees the first block and stops just before its upsert. */
  lemma ScannedFirst() returns (t: Sys)
    ensures Reachable(t) && AfterDelivery(t, 1, 1, Setting(1, 0, map[7 := Mirror.Entry("block", 1 + TTL, 1)], {7}, true, 7))
  {
    hide Reachable, Leads;
    var v := Scanned();
    LeadsNowhere(v);
    LeadsOn(v, v, CheckTomb(7));
    t := Check(v, 7);
    ReachOn(v, t);
  }

  lemma Scanned() returns (t: Sys)
    ensures Reachable(t) && AfterDelivery(t, 1, 1, Upserting(1, 0, map[7 := Mirror.Entry("block", 1 + TTL, 1)], {7}, true))
  {
    hide Reachable, Leads;
    var u := ScanBegun();
    LeadsNowhere(u);
    assert Live(u) == {7};
    t := ScanAll(u, u);
    ReachOn(u, t);
  }

  lemma ScanBegun() returns (t: Sys)
    ensures Reachable(t) && AfterDelivery(t, 1, 1, GenRead(1, 0))
  {
    hide Reachable, Leads;
    StartReachable();
    var s := WrittenThrough(Start(), 1);
    t := Two(s, ReadClock, ReadGeneration);
    ReachOn(s, t);
  }

  /** The block lapses, the address is blocked again and written through, and then
      the old upsert lands: the mirror is taken for complete and reads as empty. */
  lemma StaleUpsertIsMissed()
    ensures exists t :: Reachable(t) && Missed(t, 7) && 7 in t.mirror && Mirror.Expired(t.mirror[7], t.clock)
  {
    var s := ScannedFirst();
    LeadsNowhere(s);
    LeadsOn(s, s, Tick(TTL));
    var u := Apply(s, Tick(TTL));
    ReachOn(s, u);
    var v := WrittenThrough(u, 2);
    assert v.recon == s.recon;
    var w := Landed(v);
    ReachOn(v, w);
  }

  /** The older entry in the place of the newer block's, which it does not outlast. */
  predicate Overwritten(s: Sys, snap: map<Addr, Entry>) {
    && s.recon == Upserting(1, 0, snap, {}, true) && s.generation == 0 && s.clock == 1 + TTL && 7 in s.store
    && s.store[7].ttl == TTL && s.store[7].committedAt == 1 + TTL && s.store[7].status == Unknown
    && s.mirror == map[7 := Mirror.Entry("block", 1 + TTL, 1)]
  }

  lemma Overwrites(v: Sys, snap: map<Addr, Entry>)
    requires snap == map[7 := Mirror.Entry("block", 1 + TTL, 1)] && AfterDelivery(v, 2, 1 + TTL, Setting(1, 0, snap, {7}, true, 7))
    ensures MaySet(v, true, {}) && Overwritten(SetTo(v, true, {}), snap)
  {
  }

  lemma Landed(v: Sys) returns (w: Sys)
    requires AfterDelivery(v, 2, 1 + TTL, Setting(1, 0, map[7 := Mirror.Entry("block", 1 + TTL, 1)], {7}, true, 7))
    ensures Leads(v, w) && Missed(w, 7) && 7 in w.mirror && Mirror.Expired(w.mirror[7], w.clock)
  {
    hide Leads, SetTo;
    var u := SetTo(v, true, {});
    Overwrites(v, v.recon.snap);
    SetInPlace(v);
    LeadsNowhere(v);
    LeadsOn(v, v, SetScanned);
    w := Closed(v, u);
  }

  /** The reconcile comes to its end. */
  lemma Closed(v: Sys, u: Sys) returns (w: Sys)
    requires Leads(v, u) && u.recon.Upserting? && u.recon.todo == {} && u.recon.ok && u.recon.gen == u.generation
    ensures Leads(v, w) && !ReadThrough(w) && w.store == u.store && w.mirror == u.mirror && w.clock == u.clock
  {
    hide Leads;
    LeadsOn(v, u, PruneTombs);
    LeadsOn(v, Pruned(u), Publish);
    var p := Published(Pruned(u));
    LeadsOn(v, p, Seed);
    w := Apply(p, Seed);
  }

  /** The removal of an entry and its tombstone are two steps. A scan that checks and
      sets the address between them brings it back: the mirror then holds an
      address that is not blocked and about which nothing is pending. */
  lemma InterruptedRemovalResurrects()
    ensures exists t :: Reachable(t) && 7 in t.mirror && 7 !in t.store && t.notes == map[] && !Mirror.Expired(t.mirror[7], t.clock)
  {
    hide Reachable, Leads;
    var s := Scanned();
    var u := Interrupted(s);
    ReachOn(s, u);
    var t := SetBetween(u);
    ReachOn(u, t);
    assert Reachable(t) && 7 in t.mirror && 7 !in t.store && t.notes == map[] && !Mirror.Expired(t.mirror[7], t.clock);
  }

  lemma SetBetween(u: Sys) returns (t: Sys)
    requires u.lock == Removing(0, 1) && u.notes == map[0 := RemoveNote(7)] && u.store == map[] && u.mirror == map[] && u.tombs == map[] && u.clock == 1
    requires u.recon == Upserting(1, 0, map[7 := Mirror.Entry("block", 1 + TTL, 1)], {7}, true)
    ensures Leads(u, t) && 7 in t.mirror && 7 !in t.store && t.notes == map[] && !Mirror.Expired(t.mirror[7], t.clock)
  {
    hide Leads, Fits, ShedFor;
    LeadsNowhere(u);
    OneFits(u, 7, 1);
    OneSetLeads(u, u, 7);
    OneSetMirror(u, 7);
    var v := OneSet(u, 7);
    hide OneSet;
    assert v.lock == u.lock && v.tombs == map[];
    LeadsOn(u, v, WriteTomb(0, {}));
    t := Apply(v, WriteTomb(0, {}));
  }

  lemma Interrupted(s: Sys) returns (t: Sys)
    requires s.store.Keys == {7} && s.notes == map[] && s.lock == Free && s.mirror.Keys == {7}
    ensures Leads(s, t) && t.lock == Removing(0, s.clock) && t.notes == map[0 := RemoveNote(7)] && t.store == map[] && t.mirror == map[]
    ensures t.recon == s.recon && t.tombs == s.tombs && t.clock == s.clock
  {
    hide Leads;
    LeadsNowhere(s);
    LeadsOn(s, s, Unblock(7, 0));
    var u := Apply(s, Unblock(7, 0));
    LeadsOn(s, u, Stamp(0));
    var v := Apply(u, Stamp(0));
    LeadsOn(s, v, RemoveEntry(0));
    t := Apply(v, RemoveEntry(0));
  }
}
