/** Room in the mirror: what an insert does to its shard, that no shard ever outgrows
    its share, and which scans can be held in full. */
module MirrorRoom {
  import opened MirrorProtocol
  import Mirror

  /** The whole mirror after an insert. */
  function Insert(s: Sys, a: Addr, e: Entry): map<Addr, Entry> {
    var rest := s.mirror - ShedFor(s, a, e.insertedAt);
    if Fits(s, a, e.insertedAt) then rest[a := e] else rest
  }

  /** The shard is what the locked insert makes of it, and the others are as they were. */
  lemma InsertIsSetIn(s: Sys, a: Addr, e: Entry)
    ensures (ShardMap(s.layout, Insert(s, a, e), ShardOf(s.layout, a)), Fits(s, a, e.insertedAt))
         == Mirror.SetIn(ShardMap(s.layout, s.mirror, ShardOf(s.layout, a)), a, e, PerShard(s.layout))
    ensures forall j: nat | j != ShardOf(s.layout, a) :: ShardMap(s.layout, Insert(s, a, e), j) == ShardMap(s.layout, s.mirror, j)
  {
    hide PerShard, Insert, Fits, ShedFor;
    if a in s.mirror || |Crowd(s, a)| < PerShard(s.layout) { InsertWithRoom(s, a, e); } else { InsertWhenFull(s, a, e); }
  }

  lemma InsertWithRoom(s: Sys, a: Addr, e: Entry)
    requires a in s.mirror || |Crowd(s, a)| < PerShard(s.layout)
    ensures (ShardMap(s.layout, Insert(s, a, e), ShardOf(s.layout, a)), Fits(s, a, e.insertedAt))
         == Mirror.SetIn(ShardMap(s.layout, s.mirror, ShardOf(s.layout, a)), a, e, PerShard(s.layout))
    ensures forall j: nat | j != ShardOf(s.layout, a) :: ShardMap(s.layout, Insert(s, a, e), j) == ShardMap(s.layout, s.mirror, j)
  {
    hide PerShard, ShardOf, ShardMap, Crowd;
    assert Insert(s, a, e) == s.mirror[a := e];
    WithEntry(s, a, e);
  }

  lemma WithEntry(s: Sys, a: Addr, e: Entry)
    ensures var m, i := ShardMap(s.layout, s.mirror, ShardOf(s.layout, a)), ShardOf(s.layout, a);
            ShardMap(s.layout, s.mirror[a := e], i) == m[a := e] && (a in m <==> a in s.mirror) && |m| == |Crowd(s, a)|
    ensures forall j: nat | j != ShardOf(s.layout, a) :: ShardMap(s.layout, s.mirror[a := e], j) == ShardMap(s.layout, s.mirror, j)
  {
    hide ShardOf;
    SameCount(ShardMap(s.layout, s.mirror, ShardOf(s.layout, a)), Crowd(s, a));
  }

  lemma InsertWhenFull(s: Sys, a: Addr, e: Entry)
    requires a !in s.mirror && |Crowd(s, a)| >= PerShard(s.layout)
    ensures (ShardMap(s.layout, Insert(s, a, e), ShardOf(s.layout, a)), Fits(s, a, e.insertedAt))
         == Mirror.SetIn(ShardMap(s.layout, s.mirror, ShardOf(s.layout, a)), a, e, PerShard(s.layout))
    ensures forall j: nat | j != ShardOf(s.layout, a) :: ShardMap(s.layout, Insert(s, a, e), j) == ShardMap(s.layout, s.mirror, j)
  {
    hide PerShard, ShardOf, ShardMap, Crowd, Mirror.Shed;
    WithEntry(s, a, e);
    WithoutShed(s, a, ShedFor(s, a, e.insertedAt), e);
  }

  lemma WithoutShed(s: Sys, a: Addr, shed: set<Addr>, e: Entry)
    requires a !in s.mirror && shed == set b | b in Crowd(s, a) && Mirror.Expired(s.mirror[b], e.insertedAt)
    ensures var less, i := Mirror.Shed(ShardMap(s.layout, s.mirror, ShardOf(s.layout, a)), e.insertedAt), ShardOf(s.layout, a);
            && ShardMap(s.layout, s.mirror - shed, i) == less && ShardMap(s.layout, (s.mirror - shed)[a := e], i) == less[a := e]
            && |less| == |Crowd(s, a) - shed|
    ensures forall j: nat | j != ShardOf(s.layout, a) ::
      ShardMap(s.layout, s.mirror - shed, j) == ShardMap(s.layout, s.mirror, j) == ShardMap(s.layout, (s.mirror - shed)[a := e], j)
  {
    hide ShardOf, ShardMap, Crowd, Mirror.Shed;
    ShedShard(s, a, shed, e);
    forall j: nat | j != ShardOf(s.layout, a)
      ensures ShardMap(s.layout, s.mirror - shed, j) == ShardMap(s.layout, s.mirror, j) == ShardMap(s.layout, (s.mirror - shed)[a := e], j)
    {
      ShedElsewhere(s, a, shed, e, j);
    }
  }

  lemma ShedShard(s: Sys, a: Addr, shed: set<Addr>, e: Entry)
    requires a !in s.mirror && shed == set b | b in Crowd(s, a) && Mirror.Expired(s.mirror[b], e.insertedAt)
    ensures var less, i := Mirror.Shed(ShardMap(s.layout, s.mirror, ShardOf(s.layout, a)), e.insertedAt), ShardOf(s.layout, a);
            && ShardMap(s.layout, s.mirror - shed, i) == less && ShardMap(s.layout, (s.mirror - shed)[a := e], i) == less[a := e]
            && |less| == |Crowd(s, a) - shed|
  {
    hide ShardOf, ShardMap, Crowd, Mirror.Shed, Mirror.Expired;
    ShedKeys(s, a, shed, e.insertedAt);
    WithEntry(s.(mirror := s.mirror - shed), a, e);
  }

  lemma ShedKeys(s: Sys, a: Addr, shed: set<Addr>, now: int)
    requires shed == set b | b in Crowd(s, a) && Mirror.Expired(s.mirror[b], now)
    ensures var less, i := Mirror.Shed(ShardMap(s.layout, s.mirror, ShardOf(s.layout, a)), now), ShardOf(s.layout, a);
            ShardMap(s.layout, s.mirror - shed, i) == less && |less| == |Crowd(s, a) - shed|
  {
    hide ShardOf, Mirror.Expired;
    var less := Mirror.Shed(ShardMap(s.layout, s.mirror, ShardOf(s.layout, a)), now);
    SameCount(less, Crowd(s, a) - shed);
  }

  lemma ShedElsewhere(s: Sys, a: Addr, shed: set<Addr>, e: Entry, j: nat)
    requires shed <= Crowd(s, a) && j != ShardOf(s.layout, a)
    ensures ShardMap(s.layout, s.mirror - shed, j) == ShardMap(s.layout, s.mirror, j) == ShardMap(s.layout, (s.mirror - shed)[a := e], j)
  {
    hide ShardOf;
  }

  lemma SameCount(m: map<Addr, Entry>, keys: set<Addr>)
    requires m.Keys == keys
    ensures |m| == |keys|
  {
  }

  function ShardMap(l: Layout, m: map<Addr, Entry>, i: nat): map<Addr, Entry> { map b | b in m && ShardOf(l, b) == i :: m[b] }

  // ---------- no shard outgrows its share ----------

  function InShard(s: Sys, i: nat): set<Addr> { set b | b in s.mirror && ShardOf(s.layout, b) == i }

  ghost predicate Bounded(s: Sys) { forall i: nat :: |InShard(s, i)| <= PerShard(s.layout) }

  lemma {:induction false} Fewer(a: set<Addr>, b: set<Addr>)
    requires a <= b
    ensures |a| <= |b|
  {
    if a != {} {
      var x :| x in a;
      Fewer(a - {x}, b - {x});
    }
  }

  lemma ShrunkBounded(s: Sys, t: Sys)
    requires Bounded(s) && t.layout == s.layout && t.mirror.Keys <= s.mirror.Keys
    ensures Bounded(t)
  {
    forall i: nat ensures |InShard(t, i)| <= PerShard(t.layout) { Fewer(InShard(t, i), InShard(s, i)); }
  }

  lemma InsertBounded(s: Sys, t: Sys, a: Addr, now: int)
    requires Bounded(s) && t.layout == s.layout && Fits(s, a, now) && t.mirror.Keys == s.mirror.Keys - ShedFor(s, a, now) + {a}
    ensures Bounded(t)
  {
    hide PerShard, ShardOf, ShedFor, InShard, Crowd;
    forall i: nat ensures |InShard(t, i)| <= PerShard(t.layout) {
      if a in s.mirror || i != ShardOf(s.layout, a) { FewerInShard(s, t, a, ShedFor(s, a, now), i); }
      else { OneMore(s, t, a, ShedFor(s, a, now)); }
    }
  }

  lemma FewerInShard(s: Sys, t: Sys, a: Addr, shed: set<Addr>, i: nat)
    requires t.layout == s.layout && t.mirror.Keys == s.mirror.Keys - shed + {a} && (a in s.mirror || i != ShardOf(s.layout, a))
    ensures |InShard(t, i)| <= |InShard(s, i)|
  {
    hide ShardOf;
    Fewer(InShard(t, i), InShard(s, i));
  }

  lemma OneMore(s: Sys, t: Sys, a: Addr, shed: set<Addr>)
    requires t.layout == s.layout && t.mirror.Keys == s.mirror.Keys - shed + {a} && a !in s.mirror
    ensures |InShard(t, ShardOf(s.layout, a))| == |Crowd(s, a) - shed| + 1
  {
    hide ShardOf;
    var rest := Crowd(s, a) - shed;
    forall b: Addr ensures b in InShard(t, ShardOf(s.layout, a)) <==> b in rest || b == a { assert b in t.mirror.Keys <==> b in t.mirror; }
    assert a !in rest && InShard(t, ShardOf(s.layout, a)) == rest + {a};
  }

  lemma NextBounded(s: Sys, e: Event)
    requires Bounded(s) && Enabled(s, e)
    ensures Bounded(Apply(s, e))
  {
    hide Bounded, Fits, ShedFor;
    var t := Apply(s, e);
    if e.ApplyAdd? && Fits(s, s.notes[e.note].addr, s.lock.at) {
      InsertBounded(s, t, s.notes[e.note].addr, s.lock.at);
    } else if e.SetScanned? {
      SetBounded(s);
    } else {
      if Scans(e) { ScanShape(s, e); } else { NotifyShape(s, e); }
      ShrunkBounded(s, t);
    }
  }

  predicate Scans(e: Event) {
    e.ReadClock? || e.ReadGeneration? || e.Scan? || e.ScanFails? || e.Sweep? || e.EndSweep? || e.CheckTomb? || e.PruneTombs? || e.Publish? || e.Seed?
  }

  lemma ScanShape(s: Sys, e: Event)
    requires Enabled(s, e) && Scans(e)
    ensures Apply(s, e).layout == s.layout && Apply(s, e).mirror.Keys <= s.mirror.Keys
  {
    hide AllSlipped, Stale, Taken, Check, Published, Pruned;
    if e.CheckTomb? { CheckShape(s, e.addr); }
    if e.Publish? { PublishShape(s); }
    if e.PruneTombs? { PruneShape(s); }
  }

  lemma CheckShape(s: Sys, a: Addr)
    requires s.recon.Upserting?
    ensures Check(s, a).layout == s.layout && Check(s, a).mirror == s.mirror
  {
    hide Mirror.Vetoes;
  }

  lemma PublishShape(s: Sys)
    requires s.recon.Upserting?
    ensures Published(s).layout == s.layout && Published(s).mirror == s.mirror
  {
  }

  lemma PruneShape(s: Sys)
    requires s.recon.Upserting?
    ensures Pruned(s).layout == s.layout && Pruned(s).mirror == s.mirror
  {
    hide Mirror.Prune;
  }

  lemma NotifyShape(s: Sys, e: Event)
    requires Enabled(s, e) && !Scans(e) && !e.SetScanned? && !(e.ApplyAdd? && Fits(s, s.notes[e.note].addr, s.lock.at))
    ensures Apply(s, e).layout == s.layout && Apply(s, e).mirror.Keys <= s.mirror.Keys
  {
    hide Fits, ShedFor, AllSlipped, Stale, MayEvict, Settle;
  }

  lemma SetBounded(s: Sys)
    requires Bounded(s) && Enabled(s, SetScanned)
    ensures Bounded(Apply(s, SetScanned))
  {
    hide Bounded, Fits, ShedFor, SetTo;
    var a, start := s.recon.addr, s.recon.start;
    var t := Apply(s, SetScanned);
    SetRecord(s, Fits(s, a, start), ShedFor(s, a, start));
    if Fits(s, a, start) { InsertBounded(s, t, a, start); } else { ShrunkBounded(s, t); }
  }

  lemma {:induction false} RunBounded(s: Sys, es: seq<Event>, t: Sys)
    requires Bounded(s) && Run(s, es, t)
    ensures Bounded(t)
    decreases |es|
  {
    hide Enabled, Apply, Bounded;
    if es != [] {
      NextBounded(s, es[0]);
      RunBounded(Apply(s, es[0]), es[1..], t);
    }
  }

  /** In every reachable state every shard is within its share of the limit. */
  lemma MirrorBounded(t: Sys, i: nat)
    requires Reachable(t)
    ensures |InShard(t, i)| <= PerShard(t.layout)
  {
    var s, es :| Init(s) && Run(s, es, t);
    forall j: nat ensures |InShard(s, j)| <= PerShard(s.layout) { assert InShard(s, j) == {}; }
    RunBounded(s, es, t);
  }

  // ---------- which scans can be held in full ----------

  /** What the upserts of `todo` leave in a shard: live entries, and the scanned
      addresses that were not removed since. */
  function Wanted(s: Sys, i: nat, start: int, todo: set<Addr>): set<Addr> {
    set b | b in s.mirror.Keys + todo && ShardOf(s.layout, b) == i
         && ((b in s.mirror && !Mirror.Expired(s.mirror[b], start)) || (b in todo && !Mirror.Vetoes(s.tombs, b, start)))
  }

  predicate RoomFor(s: Sys, start: int, todo: set<Addr>) {
    forall i: nat | i < SHARDS :: |Wanted(s, i, start, todo)| <= PerShard(s.layout)
  }

  lemma RoomKept(s: Sys, t: Sys, start: int, todo: set<Addr>, left: set<Addr>)
    requires RoomFor(s, start, todo) && t.layout == s.layout
    requires forall i: nat :: Wanted(t, i, start, left) <= Wanted(s, i, start, todo)
    ensures RoomFor(t, start, left)
  {
    forall i: nat | i < SHARDS ensures |Wanted(t, i, start, left)| <= PerShard(t.layout) {
      Fewer(Wanted(t, i, start, left), Wanted(s, i, start, todo));
    }
  }

  /** There is room for each of them when its turn comes. */
  lemma NextFits(s: Sys, start: int, todo: set<Addr>, b: Addr)
    requires RoomFor(s, start, todo) && b in todo && !Mirror.Vetoes(s.tombs, b, start)
    ensures Fits(s, b, start)
  {
    if b !in s.mirror && |Crowd(s, b)| >= PerShard(s.layout) {
      var wanted := Wanted(s, ShardOf(s.layout, b), start, todo);
      assert b in wanted;
      Fewer(Crowd(s, b) - ShedFor(s, b, start), wanted - {b});
    }
  }

  // ---------- and only those ----------

  predicate Upserts(e: Event) { e.CheckTomb? || e.SetScanned? }

  /** A reconcile in its upserts, of entries that were live when its scan began. */
  predicate Progress(s: Sys) {
    && (s.recon.Upserting? || s.recon.Setting?) && s.recon.todo <= s.recon.snap.Keys
    && (s.recon.Setting? ==> s.recon.addr in s.recon.todo)
    && (forall b | b in s.recon.snap :: !Mirror.Expired(s.recon.snap[b], s.recon.start))
  }

  /** While nothing but upserts happens, what is wanted stays wanted, and a refusal is
      not taken back. */
  lemma StillWanted(s: Sys, e: Event, i: nat)
    requires Progress(s) && Enabled(s, e) && Upserts(e)
    ensures var t := Apply(s, e);
            && Progress(t) && t.layout == s.layout && t.recon.start == s.recon.start && t.recon.snap == s.recon.snap
            && (t.recon.ok ==> s.recon.ok && Wanted(s, i, s.recon.start, s.recon.todo) <= Wanted(t, i, s.recon.start, t.recon.todo))
  {
    hide PerShard, ShardOf;
    if e.SetScanned? { SetWanted(s, i); } else { CheckWanted(s, e.addr, i); }
  }

  lemma CheckWanted(s: Sys, a: Addr, i: nat)
    requires Progress(s) && s.recon.Upserting? && a in s.recon.todo
    ensures var t := Check(s, a);
            && Progress(t) && t.layout == s.layout && t.recon.start == s.recon.start && t.recon.snap == s.recon.snap
            && t.recon.ok == s.recon.ok && Wanted(s, i, s.recon.start, s.recon.todo) <= Wanted(t, i, s.recon.start, t.recon.todo)
  {
    hide ShardOf;
  }

  lemma SetWanted(s: Sys, i: nat)
    requires Progress(s) && s.recon.Setting?
    ensures var t := Apply(s, SetScanned);
            && Progress(t) && t.layout == s.layout && t.recon.start == s.recon.start && t.recon.snap == s.recon.snap
            && (t.recon.ok ==> s.recon.ok && Wanted(s, i, s.recon.start, s.recon.todo) <= Wanted(t, i, s.recon.start, t.recon.todo))
  {
    hide PerShard, ShardOf, SetTo, Fits, ShedFor;
    var a, start := s.recon.addr, s.recon.start;
    SetRecord(s, Fits(s, a, start), ShedFor(s, a, start));
    ShedLapses(s, a, start);
  }

  ghost predicate UpsertsOnly(es: seq<Event>) { forall i :: 0 <= i < |es| ==> Upserts(es[i]) }

  lemma {:induction false} RunWanted(s: Sys, es: seq<Event>, t: Sys, i: nat)
    requires Progress(s) && Run(s, es, t) && UpsertsOnly(es) && (t.recon.Upserting? || t.recon.Setting?) && t.recon.ok
    ensures t.layout == s.layout && t.recon.start == s.recon.start && s.recon.ok
    ensures Wanted(s, i, s.recon.start, s.recon.todo) <= Wanted(t, i, s.recon.start, t.recon.todo)
    decreases |es|
  {
    hide Wanted, Enabled, Apply, Progress;
    if es != [] {
      Upsertings(s);
      StillWanted(s, es[0], i);
      Upsertings(Apply(s, es[0]));
      RunWanted(Apply(s, es[0]), es[1..], t, i);
    }
  }

  lemma Upsertings(s: Sys)
    requires Progress(s)
    ensures s.recon.Upserting? || s.recon.Setting?
  {
  }

  /** When the upserts of a reconcile, left alone, end complete, there was room for all
      of them together: no other order, and nothing expired, would have helped. */
  lemma RoomIsNeeded(s: Sys, es: seq<Event>, t: Sys)
    requires Reachable(s) && Progress(s) && Run(s, es, t) && UpsertsOnly(es)
    requires t.recon.Upserting? && t.recon.todo == {} && t.recon.ok
    ensures RoomFor(s, s.recon.start, s.recon.todo)
  {
    forall i: nat | i < SHARDS ensures |Wanted(s, i, s.recon.start, s.recon.todo)| <= PerShard(s.layout) {
      RunWanted(s, es, t, i);
      ReachOn(s, es, t);
      MirrorBounded(t, i);
      InMirror(t, i, s.recon.start);
      Fewer(Wanted(s, i, s.recon.start, s.recon.todo), InShard(t, i));
    }
  }

  lemma InMirror(t: Sys, i: nat, start: int)
    ensures Wanted(t, i, start, {}) <= InShard(t, i)
  {
  }

  lemma ReachOn(s: Sys, es: seq<Event>, t: Sys)
    requires Reachable(s) && Run(s, es, t)
    ensures Reachable(t)
  {
    var r, ds :| Init(r) && Run(r, ds, s);
    RunJoin(r, ds, s, es, t);
  }
}
