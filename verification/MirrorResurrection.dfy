/** Reconciles included, a removed address does not come back, as long as its removal
    does not overlap the scan's own upsert of that address and its tombstone lasts
    until the scan has come to it. */
module MirrorResurrection {
  import opened MirrorProtocol
  import opened MirrorConvergence
  import Mirror

  /** The addresses a reconcile may still set, and when its scan began. */
  function Scanned(r: Recon): set<Addr> {
    match r
    case Sweeping(_, _, snap, _, _) => snap.Keys
    case Upserting(_, _, _, todo, _) => todo
    case Setting(_, _, _, todo, _, _) => todo
    case _ => {}
  }

  function Began(r: Recon): int {
    match r
    case Sweeping(start, _, _, _, _) => start
    case Upserting(start, _, _, _, _) => start
    case Setting(start, _, _, _, _, _) => start
    case _ => 0
  }

  /** An address is half removed, and the scan has passed its tombstone check and is
      about to set it. */
  predicate Overlaps(s: Sys) {
    s.lock.Removing? && IsRemove(s, s.lock.note) && s.recon.Setting? && s.notes[s.lock.note].addr == s.recon.addr
  }

  /** Writing this tombstone evicts that of a removed address which the scan has yet
      to come to. */
  ghost predicate Forgets(s: Sys, note: nat, evicted: set<Addr>, v: Addr)
    requires note in s.notes
  {
    v in evicted && v in Scanned(s.recon) && v !in s.store && v != s.notes[note].addr && !RemovalPending(s, v)
  }

  ghost predicate Whole(s: Sys, e: Event) {
    && (e.SetScanned? || e.WriteTomb? ==> !Overlaps(s))
    && (e.WriteTomb? && e.note in s.notes ==> forall v: Addr :: !Forgets(s, e.note, e.evicted, v))
  }

  ghost predicate WholeRun(s: Sys, es: seq<Event>)
    decreases |es|
  {
    es == [] || (Enabled(s, es[0]) && Whole(s, es[0]) && WholeRun(Apply(s, es[0]), es[1..]))
  }

  /** Nothing is in the mirror, or may be set, that the store has no record of,
      but for removals that are pending or have left a tombstone. */
  ghost predicate Accounted(s: Sys, a: Addr) {
    && (a !in s.store && a in s.mirror ==> RemovalPending(s, a))
    && (a !in s.store && a in Scanned(s.recon) ==> RemovalPending(s, a) || Mirror.Vetoes(s.tombs, a, Began(s.recon)))
    && (a !in s.store && s.recon.Setting? && s.recon.addr == a ==> RemovalPending(s, a))
  }

  /** A removal of a scanned address is stamped after the scan began. */
  predicate StampedLate(s: Sys) {
    (s.lock.Stamped? || s.lock.Removing?) && IsRemove(s, s.lock.note) && s.notes[s.lock.note].addr in Scanned(s.recon) ==>
      s.lock.at >= Began(s.recon)
  }

  ghost predicate NoGhosts(s: Sys) {
    Inv(s) && Ordered(s) && StampedLate(s) && forall a: Addr :: Accounted(s, a)
  }

  lemma Kept(s: Sys, t: Sys, a: Addr)
    requires Accounted(s, a) && t.store.Keys == s.store.Keys && t.tombs == s.tombs && t.recon == s.recon
    requires forall n | n in s.notes && s.notes[n] == RemoveNote(a) :: n in t.notes && t.notes[n] == s.notes[n]
    requires a in t.mirror ==> a in s.mirror
    ensures Accounted(t, a)
  {
    if RemovalPending(s, a) { StillPending(s, t, a); }
  }

  lemma StoreStep(s: Sys, e: Event)
    requires NoGhosts(s) && Enabled(s, e) && (e.Tick? || e.Commit? || e.Unblock?)
    ensures var t := Apply(s, e); Ordered(t) && StampedLate(t) && forall a: Addr :: Accounted(t, a)
  {
    var t := Apply(s, e);
    if e.Unblock? { assert t.notes[e.note] == RemoveNote(e.addr); }
    forall a: Addr ensures Accounted(t, a) {
      assert Accounted(s, a);
      if RemovalPending(s, a) { StillPending(s, t, a); }
    }
    if s.lock.Validated? || s.lock.Stamped? {
      if RemovalPending(s, s.notes[s.lock.note].addr) { StillPending(s, t, s.notes[s.lock.note].addr); }
    }
  }

  lemma LockStep(s: Sys, e: Event)
    requires NoGhosts(s) && Enabled(s, e) && (e.Validate? || e.ValidateFails? || e.Stamp? || e.MarkIncomplete?)
    ensures var t := Apply(s, e); Ordered(t) && StampedLate(t) && forall a: Addr :: Accounted(t, a)
  {
    var t := Apply(s, e);
    assert NoteOk(s, e.note);
    forall a: Addr ensures Accounted(t, a) {
      assert Accounted(s, a);
      Kept(s, t, a);
    }
    if t.lock.Stamped? {
      var a := s.notes[e.note].addr;
      if s.notes[e.note].RemoveNote? { assert t.notes[e.note] == RemoveNote(a); }
      else if RemovalPending(s, a) { StillPending(s, t, a); }
    }
  }

  lemma AddStep(s: Sys, note: nat, shed: set<Addr>)
    requires NoGhosts(s) && Enabled(s, ApplyAdd(note))
    ensures var t := Deliver(s, note, s.lock.at, shed); Ordered(t) && StampedLate(t) && forall a: Addr :: Accounted(t, a)
  {
    var t := Deliver(s, note, s.lock.at, shed);
    forall a: Addr ensures Accounted(t, a) {
      assert Accounted(s, a);
      if RemovalPending(s, a) { StillPending(s, t, a); }
    }
  }

  lemma RefuseStep(s: Sys, note: nat, shed: set<Addr>)
    requires NoGhosts(s) && Enabled(s, ApplyAdd(note))
    ensures var t := s.(mirror := s.mirror - shed, lock := Refused(note)); Ordered(t) && StampedLate(t) && forall a: Addr :: Accounted(t, a)
  {
    var t := s.(mirror := s.mirror - shed, lock := Refused(note));
    forall a: Addr ensures Accounted(t, a) {
      assert Accounted(s, a);
      Kept(s, t, a);
    }
  }

  lemma RemoveEntryStep(s: Sys, e: Event)
    requires NoGhosts(s) && Enabled(s, e) && e.RemoveEntry?
    ensures var t := Apply(s, e); Ordered(t) && StampedLate(t) && forall a: Addr :: Accounted(t, a)
  {
    var t := Apply(s, e);
    forall a: Addr ensures Accounted(t, a) {
      assert Accounted(s, a);
      Kept(s, t, a);
    }
  }

  lemma WriteTombStep(s: Sys, e: Event)
    requires NoGhosts(s) && Enabled(s, e) && Whole(s, e) && e.WriteTomb?
    ensures var t := Apply(s, e); Ordered(t) && StampedLate(t) && forall a: Addr :: Accounted(t, a)
  {
    hide MayEvict, AddrOk, StoreOk, ReconOk;
    var t := Apply(s, e);
    assert NoteOk(s, e.note);
    forall a: Addr ensures Accounted(t, a) {
      assert Accounted(s, a) && !Forgets(s, e.note, e.evicted, a);
      if RemovalPending(s, a) && a != s.notes[e.note].addr { StillPending(s, t, a); }
    }
  }

  /** What is said of the notify lock does not depend on the reconcile. */
  lemma OrderKept(s: Sys, t: Sys)
    requires Ordered(s) && t.lock == s.lock && t.notes == s.notes && t.store.Keys == s.store.Keys && t.mirror.Keys <= s.mirror.Keys
    ensures Ordered(t)
  {
    if s.lock.Validated? || s.lock.Stamped? {
      var a := s.notes[s.lock.note].addr;
      if RemovalPending(s, a) { StillPending(s, t, a); }
    }
  }

  lemma SameAccount(s: Sys, t: Sys, a: Addr)
    requires Accounted(s, a) && t.notes == s.notes && t.store.Keys == s.store.Keys && t.mirror.Keys <= s.mirror.Keys && t.tombs == s.tombs
    requires Scanned(t.recon) <= Scanned(s.recon) && !t.recon.Setting? && (Scanned(t.recon) == {} || Began(t.recon) == Began(s.recon))
    ensures Accounted(t, a)
  {
    if RemovalPending(s, a) { StillPending(s, t, a); }
  }

  /** A step of the reconcile that scans no more and changes nothing else. */
  ghost predicate OnlyScans(s: Sys, t: Sys) {
    && t.lock == s.lock && t.notes == s.notes && t.store == s.store && t.mirror.Keys <= s.mirror.Keys && t.tombs == s.tombs
    && Scanned(t.recon) <= Scanned(s.recon) && !t.recon.Setting? && (Scanned(t.recon) == {} || Began(t.recon) == Began(s.recon))
  }

  lemma ReadShape(s: Sys, e: Event)
    requires Enabled(s, e) && (e.ReadClock? || e.ReadGeneration? || e.ScanFails?)
    ensures OnlyScans(s, Apply(s, e))
  {
    hide AllSlipped;
  }

  lemma SweepShape(s: Sys, e: Event)
    requires Enabled(s, e) && (e.Sweep? || e.EndSweep?)
    ensures OnlyScans(s, Apply(s, e))
  {
  }

  lemma PublishShape(s: Sys)
    requires s.recon.Upserting?
    ensures OnlyScans(s, Published(s))
  {
    var t := Published(s);
    assert t == s.(complete := t.complete, missing := t.missing, recon := Seeding);
    hide Published;
    assert Scanned(t.recon) == {};
    hide Scanned, Began;
  }

  lemma SeedShape(s: Sys)
    requires s.recon.Seeding?
    ensures OnlyScans(s, s.(seeded := true, recon := Quiet))
  {
  }

  lemma OnlyScansStep(s: Sys, t: Sys)
    requires NoGhosts(s) && OnlyScans(s, t)
    ensures Ordered(t) && StampedLate(t) && forall a: Addr :: Accounted(t, a)
  {
    hide Inv, Accounted, Ordered, Scanned, Began;
    OrderKept(s, t);
    forall a: Addr ensures Accounted(t, a) {
      assert Accounted(s, a);
      SameAccount(s, t, a);
    }
  }

  lemma TakeStep(s: Sys, all: bool, seen: set<Addr>)
    requires NoGhosts(s) && Enabled(s, Scan(all, seen))
    ensures var t := Apply(s, Scan(all, seen)); Ordered(t) && StampedLate(t) && forall a: Addr :: Accounted(t, a)
  {
    hide Ordered, AddrOk, StoreOk, ReconOk;
    var t := Apply(s, Scan(all, seen));
    OrderKept(s, t);
    if !s.lock.Free? { assert NoteOk(s, s.lock.note); }
    forall a: Addr ensures Accounted(t, a) {
      assert Accounted(s, a);
      if RemovalPending(s, a) { StillPending(s, t, a); }
    }
  }

  lemma SamePending(s: Sys, t: Sys, a: Addr)
    requires t.notes == s.notes
    ensures RemovalPending(t, a) == RemovalPending(s, a)
  {
    if RemovalPending(s, a) { StillPending(s, t, a); }
    if RemovalPending(t, a) { StillPending(t, s, a); }
  }

  lemma CheckVetoed(s: Sys, a: Addr, b: Addr)
    requires s.recon.Upserting? && a in s.recon.todo && Accounted(s, b) && Mirror.Vetoes(s.tombs, a, s.recon.start)
    ensures Accounted(Check(s, a), b)
  {
    var t, r := Check(s, a), s.recon;
    assert t == s.(recon := Upserting(r.start, r.gen, r.snap, r.todo - {a}, r.ok));
    SamePending(s, t, b);
    hide RemovalPending, Check;
  }

  lemma CheckPassed(s: Sys, a: Addr, b: Addr)
    requires s.recon.Upserting? && a in s.recon.todo && Accounted(s, b) && !Mirror.Vetoes(s.tombs, a, s.recon.start)
    ensures Accounted(Check(s, a), b)
  {
    var t, r := Check(s, a), s.recon;
    assert t == s.(tombs := s.tombs - {a}, recon := Setting(r.start, r.gen, r.snap, r.todo, r.ok, a));
    SamePending(s, t, b);
    hide RemovalPending, Check;
    assert Mirror.Vetoes(s.tombs, b, r.start) ==> Mirror.Vetoes(t.tombs, b, r.start);
  }

  lemma CheckStep(s: Sys, a: Addr)
    requires NoGhosts(s) && Enabled(s, CheckTomb(a))
    ensures var t := Check(s, a); Ordered(t) && StampedLate(t) && forall b: Addr :: Accounted(t, b)
  {
    hide Inv, Accounted, Ordered;
    var t := Check(s, a);
    OrderKept(s, t);
    forall b: Addr ensures Accounted(t, b) {
      assert Accounted(s, b);
      if Mirror.Vetoes(s.tombs, a, s.recon.start) { CheckVetoed(s, a, b); } else { CheckPassed(s, a, b); }
    }
  }

  lemma SetStep(s: Sys, room: bool, shed: set<Addr>)
    requires NoGhosts(s) && MaySet(s, room, shed) && !Overlaps(s)
    ensures var t := SetTo(s, room, shed); Ordered(t) && StampedLate(t) && forall b: Addr :: Accounted(t, b)
  {
    var t := SetTo(s, room, shed);
    SetShape(s, room, shed);
    assert t.mirror.Keys <= s.mirror.Keys + {s.recon.addr};
    hide SetTo;
    forall b: Addr ensures Accounted(t, b) {
      assert Accounted(s, b);
      if RemovalPending(s, b) { StillPending(s, t, b); }
    }
    if s.lock.Validated? || s.lock.Stamped? {
      if RemovalPending(s, s.notes[s.lock.note].addr) { StillPending(s, t, s.notes[s.lock.note].addr); }
    }
  }

  lemma PruneStep(s: Sys)
    requires NoGhosts(s) && Enabled(s, PruneTombs)
    ensures var t := Pruned(s); Ordered(t) && StampedLate(t) && forall b: Addr :: Accounted(t, b)
  {
    var t := Pruned(s);
    forall b: Addr ensures Accounted(t, b) {
      assert Accounted(s, b);
      if RemovalPending(s, b) { StillPending(s, t, b); }
    }
    if s.lock.Validated? || s.lock.Stamped? {
      if RemovalPending(s, s.notes[s.lock.note].addr) { StillPending(s, t, s.notes[s.lock.note].addr); }
    }
  }

  lemma NextNoGhosts(s: Sys, e: Event)
    requires NoGhosts(s) && Enabled(s, e) && Whole(s, e)
    ensures NoGhosts(Apply(s, e))
  {
    NextInv(s, e);
    hide Inv, Accounted, Ordered, StampedLate, OnlyScans;
    match e
    case Tick(_) => StoreStep(s, e);
    case Commit(_, _, _, _, _) => StoreStep(s, e);
    case Unblock(_, _) => StoreStep(s, e);
    case Validate(_, _) => LockStep(s, e);
    case ValidateFails(_) => LockStep(s, e);
    case Stamp(_) => LockStep(s, e);
    case MarkIncomplete(_) => LockStep(s, e);
    case ApplyAdd(note) =>
      AddStep(s, note, ShedFor(s, s.notes[note].addr, s.lock.at));
      RefuseStep(s, note, ShedFor(s, s.notes[note].addr, s.lock.at));
    case RemoveEntry(_) => RemoveEntryStep(s, e);
    case WriteTomb(_, _) => WriteTombStep(s, e);
    case Scan(all, seen) => TakeStep(s, all, seen);
    case CheckTomb(a) => CheckStep(s, a);
    case SetScanned =>
      var a, start := s.recon.addr, s.recon.start;
      ShedLapses(s, a, start);
      SetStep(s, Fits(s, a, start), ShedFor(s, a, start));
    case PruneTombs => PruneStep(s);
    case Publish =>
      PublishShape(s);
      OnlyScansStep(s, Published(s));
    case Seed =>
      SeedShape(s);
      OnlyScansStep(s, s.(seeded := true, recon := Quiet));
    case Sweep =>
      SweepShape(s, e);
      OnlyScansStep(s, Apply(s, e));
    case EndSweep =>
      SweepShape(s, e);
      OnlyScansStep(s, Apply(s, e));
    case _ =>
      ReadShape(s, e);
      OnlyScansStep(s, Apply(s, e));
  }

  lemma {:induction false} RunNoGhosts(s: Sys, es: seq<Event>, t: Sys)
    requires NoGhosts(s) && Run(s, es, t) && WholeRun(s, es)
    ensures NoGhosts(t)
    decreases |es|
  {
    if es != [] {
      NextNoGhosts(s, es[0]);
      RunNoGhosts(Apply(s, es[0]), es[1..], t);
    }
  }

  /** Whatever scans, notifications and commits interleave, the mirror never holds an
      address that the store has no record of, unless its removal is pending. */
  lemma NoResurrection(s: Sys, es: seq<Event>, t: Sys, a: Addr)
    requires Init(s) && Run(s, es, t) && WholeRun(s, es) && a in t.mirror
    ensures a in t.store || RemovalPending(t, a)
  {
    InitInv(s);
    forall b: Addr ensures Accounted(s, b) { }
    RunNoGhosts(s, es, t);
    assert Accounted(t, a);
  }

  /** With reconciles as well, then: when every notification has been applied and the
      mirror alone answers for misses, it holds every live block for as long as it
      lives, and nothing that the store has no record of. */
  lemma ReconciledMirror(s: Sys, es: seq<Event>, t: Sys)
    requires Init(s) && Run(s, es, t) && WholeRun(s, es)
    requires t.notes == map[] && !ReadThrough(t)
    ensures t.mirror.Keys <= t.store.Keys
    ensures forall a | a in t.store && Alive(t, a) && a !in t.missing :: Covered(t, a)
  {
    forall a | a in t.mirror ensures a in t.store { NoResurrection(s, es, t, a); }
    assert Reachable(t);
    forall a | a in t.store && Alive(t, a) && a !in t.missing ensures Covered(t, a) { MirrorComplete(t, a); }
  }
}
