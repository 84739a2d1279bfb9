/** What the notify lock and the ownership check achieve between two reconciles:
    with room in the mirror and a readable store, however store commits and
    notifications interleave, the mirror ends up as the store. */
module MirrorConvergence {
  import opened MirrorProtocol
  import Mirror
  import TtlStore

  /** A step of a store commit or of a notification for which there is room. */
  predicate Local(s: Sys, e: Event) {
    match e
    case Tick(_) => true
    case Commit(_, _, _, _, _) => true
    case Unblock(_, _) => true
    case Validate(_, _) => true
    case Stamp(_) => true
    case ApplyAdd(note) => s.lock.Stamped? && note in s.notes && Fits(s, s.notes[note].addr, s.lock.at)
    case RemoveEntry(_) => true
    case WriteTomb(_, _) => true
    case _ => false
  }

  ghost predicate LocalRun(s: Sys, es: seq<Event>)
    decreases |es|
  {
    es == [] || (Enabled(s, es[0]) && Local(s, es[0]) && LocalRun(Apply(s, es[0]), es[1..]))
  }

  ghost predicate RemovalPending(s: Sys, a: Addr) {
    exists n :: n in s.notes && s.notes[n] == RemoveNote(a)
  }

  /** The entry is that of the stored block, and ends as long after it as its
      notification came after its commit. */
  predicate Exact(s: Sys, a: Addr)
    requires a in s.store
  {
    && a in s.mirror && s.mirror[a].insertedAt >= s.store[a].committedAt
    && s.mirror[a] == Mirror.Entry(s.store[a].reason, TtlStore.Expiry(s.store[a].ttl, s.mirror[a].insertedAt), s.mirror[a].insertedAt)
  }

  /** An address differs from the store only while a notification about it is pending. */
  ghost predicate Converging(s: Sys, a: Addr) {
    && (Alive(s, a) ==> s.store[a].status.Waiting? || (s.store[a].status == Delivered && Exact(s, a)))
    && (a !in s.store && a in s.mirror ==> RemovalPending(s, a))
  }

  /** The notification being applied: an addition whose block is gone has the
      removal behind it; a removal past its first half has taken the entry. */
  ghost predicate Ordered(s: Sys) {
    && (s.lock.Validated? || s.lock.Stamped? ==>
          s.lock.note in s.notes && (s.notes[s.lock.note].addr !in s.store ==> RemovalPending(s, s.notes[s.lock.note].addr)))
    && (s.lock.Removing? ==> s.lock.note in s.notes && s.notes[s.lock.note].addr !in s.mirror)
  }

  ghost predicate Conv(s: Sys) {
    Inv(s) && s.recon == Quiet && Ordered(s) && !s.lock.Refused? && forall a: Addr :: Converging(s, a)
  }

  lemma StillPending(s: Sys, t: Sys, a: Addr)
    requires RemovalPending(s, a) && forall n | n in s.notes && s.notes[n] == RemoveNote(a) :: n in t.notes && t.notes[n] == s.notes[n]
    ensures RemovalPending(t, a)
  {
    var n :| n in s.notes && s.notes[n] == RemoveNote(a);
    assert n in t.notes;
  }

  lemma UnblockConv(s: Sys, a: Addr, note: nat)
    requires Conv(s) && Enabled(s, Unblock(a, note))
    ensures Ordered(Apply(s, Unblock(a, note))) && forall b: Addr :: Converging(Apply(s, Unblock(a, note)), b)
  {
    var t := Apply(s, Unblock(a, note));
    assert t.notes[note] == RemoveNote(a);
    forall b: Addr ensures Converging(t, b) {
      assert Converging(s, b);
      if RemovalPending(s, b) { StillPending(s, t, b); }
    }
    if s.lock.Validated? || s.lock.Stamped? {
      if RemovalPending(s, s.notes[s.lock.note].addr) { StillPending(s, t, s.notes[s.lock.note].addr); }
    }
  }

  lemma CommitConv(s: Sys, e: Event)
    requires Conv(s) && Enabled(s, e) && (e.Commit? || e.Tick?)
    ensures Ordered(Apply(s, e)) && forall b: Addr :: Converging(Apply(s, e), b)
  {
    var t := Apply(s, e);
    forall b: Addr ensures Converging(t, b) {
      assert Converging(s, b);
      if RemovalPending(s, b) { StillPending(s, t, b); }
    }
    if s.lock.Validated? || s.lock.Stamped? {
      if RemovalPending(s, s.notes[s.lock.note].addr) { StillPending(s, t, s.notes[s.lock.note].addr); }
    }
  }

  lemma ValidateConv(s: Sys, note: nat, current: bool)
    requires Conv(s) && Enabled(s, Validate(note, current))
    ensures Ordered(Apply(s, Validate(note, current))) && forall b: Addr :: Converging(Apply(s, Validate(note, current)), b)
  {
    var t := Apply(s, Validate(note, current));
    forall b: Addr ensures Converging(t, b) {
      assert Converging(s, b);
      if RemovalPending(s, b) { StillPending(s, t, b); }
    }
  }

  lemma DeliverConv(s: Sys, note: nat, shed: set<Addr>)
    requires Conv(s) && Enabled(s, ApplyAdd(note)) && Lapsed(s, shed, s.lock.at)
    ensures Ordered(Deliver(s, note, s.lock.at, shed)) && forall b: Addr :: Converging(Deliver(s, note, s.lock.at, shed), b)
  {
    var t := Deliver(s, note, s.lock.at, shed);
    forall b: Addr ensures Converging(t, b) {
      assert Converging(s, b);
      if RemovalPending(s, b) { StillPending(s, t, b); }
      DeliverOne(s, note, s.lock.at, shed, b);
    }
  }

  lemma DeliverOne(s: Sys, note: nat, at: int, shed: set<Addr>, b: Addr)
    requires Inv(s) && IsAdd(s, note) && s.lock == Stamped(note, at) && Lapsed(s, shed, at)
    requires Alive(s, b) ==> s.store[b].status.Waiting? || (s.store[b].status == Delivered && Exact(s, b))
    ensures var t := Deliver(s, note, at, shed);
            Alive(t, b) ==> t.store[b].status.Waiting? || (t.store[b].status == Delivered && Exact(t, b))
  {
    assert NoteOk(s, note) && StoreOk(s, b) && AddrOk(s, b);
    if Alive(s, b) && b != s.notes[note].addr && Exact(s, b) {
      assert Covered(s, b);
      ShedKeeps(s, s.(mirror := s.mirror - shed), b, shed, at);
    }
  }

  lemma RemoveConv(s: Sys, e: Event)
    requires Conv(s) && Enabled(s, e) && (e.Stamp? || e.RemoveEntry? || e.WriteTomb?)
    ensures Ordered(Apply(s, e)) && forall b: Addr :: Converging(Apply(s, e), b)
  {
    var t := Apply(s, e);
    assert NoteOk(s, e.note);
    forall b: Addr ensures Converging(t, b) {
      assert Converging(s, b);
      if RemovalPending(s, b) && b in t.mirror { StillPending(s, t, b); }
    }
    if t.lock.Stamped? {
      var a := s.notes[e.note].addr;
      if s.notes[e.note].RemoveNote? { assert t.notes[e.note] == RemoveNote(a); }
      else if RemovalPending(s, a) { StillPending(s, t, a); }
    }
  }

  lemma NextConv(s: Sys, e: Event)
    requires Conv(s) && Enabled(s, e) && Local(s, e)
    ensures Conv(Apply(s, e))
  {
    NextInv(s, e);
    hide Inv, Converging, Ordered;
    match e
    case Tick(_) => CommitConv(s, e);
    case Commit(_, _, _, _, _) => CommitConv(s, e);
    case Unblock(a, note) => UnblockConv(s, a, note);
    case Validate(note, current) => ValidateConv(s, note, current);
    case ApplyAdd(note) =>
      ShedLapses(s, s.notes[note].addr, s.lock.at);
      DeliverConv(s, note, ShedFor(s, s.notes[note].addr, s.lock.at));
    case Stamp(_) => RemoveConv(s, e);
    case RemoveEntry(_) => RemoveConv(s, e);
    case WriteTomb(_, _) => RemoveConv(s, e);
  }

  lemma {:induction false} RunConv(s: Sys, es: seq<Event>, t: Sys)
    requires Conv(s) && Run(s, es, t) && LocalRun(s, es)
    ensures Conv(t)
    decreases |es|
  {
    if es != [] {
      NextConv(s, es[0]);
      RunConv(Apply(s, es[0]), es[1..], t);
    }
  }

  /** Once every notification has been applied, every live block is in the mirror
      with the reason of its last committed writer, and the mirror holds nothing
      that the store has no record of. */
  lemma NotificationsConverge(s: Sys, es: seq<Event>, t: Sys)
    requires Init(s) && s.store == map[] && Run(s, es, t) && LocalRun(s, es)
    requires t.notes == map[] && t.lock == Free
    ensures t.mirror.Keys <= t.store.Keys
    ensures forall a | a in t.store && Alive(t, a) :: Exact(t, a)
  {
    InitInv(s);
    forall a: Addr ensures Converging(s, a) { }
    RunConv(s, es, t);
    forall a: Addr ensures (a in t.mirror ==> a in t.store) && (Alive(t, a) ==> Exact(t, a)) {
      assert Converging(t, a) && AddrOk(t, a);
    }
  }
}
