/** An unblock against the events counted before it. RecordEvent counts an event and,
    at the limit, goes on to a block that reads the generation again; the unblock is
    a boundary for that second read, not for the count. */
module Crossings {
  import opened Options
  import opened TtlStore
  import opened BlockCommits
  import opened Scoreboard
  import opened UnblockProtocol

  /** The event behind the block was counted before an unblock that has committed. */
  predicate CountedBefore(s: Sys, w: Writer)
    requires w.BlockReady?
  {
    w.counted < s.unblocks(w.ip)
  }

  /** Exactly which events counted before an unblock can still block after it, while
      its generation is retained: those whose block was admitted under the current
      generation, so after the last rotation, once the hold is over and if the
      block is as it was read. */
  lemma LateCrossing(s: Sys, e: Event)
    requires Reachable(s) && Enabled(s, e) && e.PlaceBlock? && CountedBefore(s, s.writers[e.w])
    requires GenKey(s.writers[e.w].ip) in s.st
    ensures var x := s.writers[e.w];
            var r := CommitBlock(s.st, TheBlockCommit(x, e.block, e.ttl, e.maxTTL), s.clock).1;
            && (r.Committed? <==>
                  x.token == s.lastToken(x.ip) && HoldKey(x.ip) !in s.st && Lookup(s.st, BlockKey(x.ip)) == x.prev)
            && (r.Committed? ==> x.admittedAt >= s.lastRotation(x.ip) && !Overtaken(s, x))
            && (!r.Committed? ==> Apply(s, e).st == s.st && Apply(s, e).offenses == s.offenses)
  {
    ReachableInv(s);
    var x := s.writers[e.w];
    assert WriterOk(s, x) && GenOk(s, x.ip);
  }

  // ---------- a run in which one does ----------

  lemma {:induction false} RunThen(s: Sys, es: seq<Event>, t: Sys, e: Event)
    requires Run(s, es, t) && Enabled(t, e)
    ensures Run(s, es + [e], Apply(t, e))
    decreases |es|
  {
    if es == [] {
      assert Run(Apply(s, e), [], Apply(t, e));
      assert [e][1..] == [];
    } else {
      RunThen(Apply(s, es[0]), es[1..], t, e);
      assert (es + [e])[0] == es[0] && (es + [e])[1..] == es[1..] + [e];
    }
  }

  lemma ReachOn(t: Sys, e: Event)
    requires Reachable(t) && Enabled(t, e)
    ensures Reachable(Apply(t, e))
  {
    var clock: nat, es :| Run(Init(clock), es, t);
    RunThen(Init(clock), es, t, e);
  }

  lemma KeysApart(ip: IP, evtype: string)
    ensures EventKey(evtype, ip, "", 0) !in {HoldKey(ip), GenKey(ip), BlockKey(ip), BlockCountKey(ip)}
    ensures HoldKey(ip) != GenKey(ip) && BlockKey(ip) !in {HoldKey(ip), GenKey(ip)}
  {
    GenKeyApart(ip, ip, evtype, "", 0);
    CountKeyApart(ip, ip, evtype, "", 0);
    assert EventKey(evtype, ip, "", 0)[0] == 'e' && HoldKey(ip)[0] == 'u' && BlockKey(ip)[0] == 'b';
  }

  /** One event is counted, and reaches the limit. */
  lemma CountedOnce(ip: IP, evtype: string) returns (t: Sys)
    ensures Reachable(t) && t.clock == 0 && t.writers == map[0 := Crossed(ip, "", 0, 0, 0)] && t.used == {} && t.unblocks(ip) == 0
    ensures t.st.Keys == {EventKey(evtype, ip, "", 0)}
  {
    hide EventKey;
    var s := Init(0);
    assert Run(s, [], s);
    ReachOn(s, AdmitScore(0, ip, evtype, 0));
    var s1 := Apply(s, AdmitScore(0, ip, evtype, 0));
    assert s1.writers == map[0 := Scoring(ip, "", 0, 0, evtype, 0)] && s1.st == map[];
    hide Reachable;
    ReachOn(s1, Score(0, 1, 1));
    t := Apply(s1, Score(0, 1, 1));
    assert t.st == map[EventKey(evtype, ip, "", 0) := Entry(Number(1), 2)];
  }

  /** The address is unblocked, and the hold lapses. */
  lemma UnblockedAfter(ip: IP, evtype: string) returns (t: Sys)
    ensures Reachable(t) && t.writers == map[0 := Crossed(ip, "", 0, 0, 0)] && t.unblocks(ip) == 1
    ensures HoldKey(ip) !in t.st && BlockKey(ip) !in t.st && GenKey(ip) in t.st && t.st[GenKey(ip)].value == Text("a")
  {
    var s := CountedOnce(ip, evtype);
    KeysApart(ip, evtype);
    hide Reachable, EventKey, HoldKey, GenKey, BlockKey, BlockCountKey;
    var e := FinishUnblock(ip, "a", false);
    ReachOn(s, e);
    var s1 := Apply(s, e);
    CountAt(s.unblocks, ip, 1);
    assert s1.unblocks(ip) == 1;
    assert HoldKey(ip) in s1.st && s1.st[HoldKey(ip)].expires == HOLD_WINDOW && BlockKey(ip) !in s1.st;
    assert GenKey(ip) in s1.st && s1.st[GenKey(ip)] == Entry(Text("a"), GEN_RETENTION);
    ReachOn(s1, Tick(HOLD_WINDOW + 1));
    t := Apply(s1, Tick(HOLD_WINDOW + 1));
  }

  /** An event counted before an unblock blocks the address after it. */
  lemma CrossingOutlivesUnblock(ip: IP, evtype: string, block: Value)
    ensures exists s, e ::
      && Reachable(s) && Enabled(s, e) && e.PlaceBlock? && CountedBefore(s, s.writers[e.w]) && s.writers[e.w].ip == ip
      && GenKey(ip) in s.st && BlockKey(ip) !in s.st && BlockKey(ip) in Apply(s, e).st
  {
    var s := UnblockedAfter(ip, evtype);
    hide Reachable, HoldKey, GenKey, BlockKey;
    ReachOn(s, AdmitCrossed(0));
    var s1 := Apply(s, AdmitCrossed(0));
    ReachOn(s1, ReadBlock(0));
    var s2 := Apply(s1, ReadBlock(0));
    assert s2.writers[0] == BlockReady(ip, "a", s.clock, 1, 0, None) && s2.st == s.st && s2.unblocks == s.unblocks;
    var e := PlaceBlock(0, block, 0, 0);
    assert Enabled(s2, e) && CountedBefore(s2, s2.writers[0]);
    assert BlockRefusal(s2.st, TheBlockCommit(s2.writers[0], block, 0, 0)).None?;
    assert BlockKey(ip) in Apply(s2, e).st;
  }
}
