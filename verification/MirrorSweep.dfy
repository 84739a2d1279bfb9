/** What a full reconcile that is not interrupted leaves in the mirror: no stale entry,
    and every other that lives. */
module MirrorSweep {
  import opened MirrorProtocol
  import Mirror

  /** A step of the reconcile between its scan and its publication. */
  predicate Reconciles(e: Event) { e.Sweep? || e.EndSweep? || e.CheckTomb? || e.SetScanned? || e.PruneTombs? }

  predicate InScan(r: Recon) { r.Sweeping? || r.Upserting? || r.Setting? }

  /** The entry was scanned or is newer than the scan. */
  predicate Fresh(s: Sys, a: Addr)
    requires InScan(s.recon) && a in s.mirror
  {
    a in s.recon.snap || s.mirror[a].insertedAt >= s.recon.start
  }

  /** No stale entry is left in the shards that were swept. */
  ghost predicate Clean(s: Sys) {
    && InScan(s.recon) && (s.recon.Sweeping? ==> s.recon.all)
    && (forall a | a in s.mirror :: Fresh(s, a) || (s.recon.Sweeping? && ShardOf(s.layout, a) >= s.recon.next))
  }

  /** A live entry that is not stale, and not replaced by one that has lapsed. */
  predicate Lasting(s: Sys, a: Addr) {
    && InScan(s.recon) && a in s.mirror && Fresh(s, a) && !Mirror.Expired(s.mirror[a], s.recon.start)
    && (a in s.recon.snap ==> !Mirror.Expired(s.recon.snap[a], s.recon.start))
  }

  lemma SweepKeepsClean(s: Sys, e: Event)
    requires Clean(s) && Enabled(s, e) && (e.Sweep? || e.EndSweep?)
    ensures Clean(Apply(s, e)) && forall a: Addr :: Lasting(s, a) ==> Lasting(Apply(s, e), a)
    ensures Apply(s, e).recon.start == s.recon.start && Apply(s, e).recon.snap == s.recon.snap
  {
    hide PerShard;
    ShardsBelow(s);
  }

  lemma ShardsBelow(s: Sys)
    ensures forall a: Addr :: ShardOf(s.layout, a) < SHARDS
  {
  }

  lemma UpsertKeepsClean(s: Sys, e: Event)
    requires Clean(s) && Enabled(s, e) && (e.CheckTomb? || e.SetScanned? || e.PruneTombs?)
    ensures Clean(Apply(s, e)) && forall a: Addr :: Lasting(s, a) ==> Lasting(Apply(s, e), a)
    ensures Apply(s, e).recon.start == s.recon.start && Apply(s, e).recon.snap == s.recon.snap
  {
    if e.SetScanned? { SetKeepsClean(s); } else if e.CheckTomb? { CheckKeepsClean(s, e.addr); }
    hide SetTo, Check, Clean, Lasting, ShardOf;
    if e.PruneTombs? { PruneKeepsClean(s); }
  }

  lemma SetKeepsClean(s: Sys)
    requires Clean(s) && Enabled(s, SetScanned)
    ensures var t := Apply(s, SetScanned);
            Clean(t) && t.recon.start == s.recon.start && t.recon.snap == s.recon.snap && forall a: Addr :: Lasting(s, a) ==> Lasting(t, a)
  {
    hide SetTo, Fits, ShedFor, ShardOf;
    var a, start := s.recon.addr, s.recon.start;
    SetRecord(s, Fits(s, a, start), ShedFor(s, a, start));
    ShedLapses(s, a, start);
  }

  lemma CheckKeepsClean(s: Sys, a: Addr)
    requires Clean(s) && s.recon.Upserting? && a in s.recon.todo
    ensures var t := Check(s, a);
            Clean(t) && t.recon.start == s.recon.start && t.recon.snap == s.recon.snap && forall b: Addr :: Lasting(s, b) ==> Lasting(t, b)
  {
    hide ShardOf, Mirror.Vetoes, Mirror.Expired;
  }

  lemma PruneKeepsClean(s: Sys)
    requires Clean(s) && s.recon.Upserting?
    ensures var t := Pruned(s);
            Clean(t) && t.recon.start == s.recon.start && t.recon.snap == s.recon.snap && forall a: Addr :: Lasting(s, a) ==> Lasting(t, a)
  {
    hide ShardOf, Mirror.Prune, Mirror.Expired;
  }

  lemma {:induction false} RunKeepsClean(s: Sys, es: seq<Event>, t: Sys, a: Addr)
    requires Clean(s) && Run(s, es, t) && forall i :: 0 <= i < |es| ==> Reconciles(es[i])
    ensures Clean(t) && (Lasting(s, a) ==> Lasting(t, a)) && InScan(s.recon) && InScan(t.recon)
    ensures t.recon.start == s.recon.start && t.recon.snap == s.recon.snap
    decreases |es|
  {
    hide Enabled, Apply, Lasting;
    if es != [] {
      if es[0].Sweep? || es[0].EndSweep? { SweepKeepsClean(s, es[0]); } else { UpsertKeepsClean(s, es[0]); }
      RunKeepsClean(Apply(s, es[0]), es[1..], t, a);
    }
  }

  /** After a full scan, when nothing but the reconcile runs: every entry left was scanned
      or is newer than the scan, and every live one that was is left. */
  lemma NoStaleEntryLeft(s: Sys, es: seq<Event>, t: Sys, a: Addr)
    requires s.recon.Sweeping? && s.recon.all && s.recon.next == 0
    requires Run(s, es, t) && t.recon.Upserting? && forall i :: 0 <= i < |es| ==> Reconciles(es[i])
    ensures a in t.mirror ==> a in s.recon.snap || t.mirror[a].insertedAt >= s.recon.start
    ensures Lasting(s, a) ==> a in t.mirror && !Mirror.Expired(t.mirror[a], s.recon.start)
  {
    RunKeepsClean(s, es, t, a);
  }
}
