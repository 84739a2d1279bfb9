/** Store-free challenges under concurrent redeemers on replicas with skewed
    clocks: freshness is judged by the replica's own clock when the redemption
    starts; it then asks the replica's own cache of spent challenges, creates the
    spent marker in the shared store, and records the spend in the cache.

    Times are nanoseconds. A replica reads the true time plus its offset; the
    store measures a marker's lifetime in true time. */
module StatelessRedemption {
  import opened Options
  import TokenCache
  import TtlStore

  type Challenge = string     // its digest, in hex
  type Replica = nat

  const SKEW: int := 30_000_000_000
  const RETIREMENT_GRACE: int := SKEW + 250_000_000 + 1_000_000_000
  const MINUTE: int := 60_000_000_000

  /** What does not change in a run: the challenge lifetime, the clock offsets, and
      per authenticated challenge its issue time and its key's retirement.
      `lingers` says whether the store still holds a marker at its expiry tick. */
  datatype Config = Config(ttl: int, offset: Replica -> int, issued: Challenge -> int, retired: Challenge -> Option<int>, lingers: bool)

  /** The freshness rule on a replica's own clock. */
  predicate Fresh(c: Config, ch: Challenge, now: int) {
    && now - c.issued(ch) <= c.ttl && c.issued(ch) - now <= SKEW
    && (c.retired(ch).Some? ==> c.issued(ch) <= c.retired(ch).value + RETIREMENT_GRACE)
  }

  /** How long the spent marker is kept. */
  function Remaining(c: Config, ch: Challenge, now: int): int {
    var r := c.ttl - (now - c.issued(ch)) + SKEW;
    if r <= 0 then MINUTE else r
  }

  /** The fallback for a lifetime that is not positive is never taken. */
  lemma RemainingIsExact(c: Config, ch: Challenge, now: int)
    requires Fresh(c, ch, now)
    ensures Remaining(c, ch, now) == c.issued(ch) + c.ttl + SKEW - now
    ensures SKEW <= Remaining(c, ch, now) <= c.ttl + 2 * SKEW
  {
  }

  datatype Phase = Started | Looked | Won

  /** A redemption past its freshness check; `at` is the true time of its clock read. */
  datatype Redeemer = Redeemer(challenge: Challenge, replica: Replica, at: int, phase: Phase)

  datatype Sys = Sys(
    clock: int,
    store: TtlStore.Store,
    redeemers: map<nat, Redeemer>,
    caches: Replica -> TokenCache.Entries,
    won: seq<Challenge>)

  datatype Event =
    | Tick(elapsed: nat)
    | Start(redeemer: nat, challenge: Challenge, replica: Replica)
    | Refuse(redeemer: nat)      // host, proof or rate limit
    | Look(redeemer: nat)        // in the replica's cache
    | Spend(redeemer: nat)       // in the shared store
    | Record(redeemer: nat)      // in the replica's cache

  function MarkerKey(ch: Challenge): string { "spent1:" + ch }

  const MARK := TtlStore.Blob([1])

  /** The records the store still finds. */
  function Visible(c: Config, s: Sys): TtlStore.Store { TtlStore.View(s.store, if c.lingers then s.clock else s.clock + 1) }

  predicate Marked(c: Config, s: Sys, ch: Challenge) { MarkerKey(ch) in Visible(c, s) }

  lemma MarkerKeysApart(a: Challenge, b: Challenge)
    ensures MarkerKey(a) == MarkerKey(b) <==> a == b
  {
    assert MarkerKey(a)[7..] == a && MarkerKey(b)[7..] == b;
  }

  predicate Enabled(c: Config, s: Sys, e: Event) {
    match e
    case Tick(_) => true
    case Start(n, ch, r) => n !in s.redeemers
    case Refuse(n) => n in s.redeemers && !s.redeemers[n].phase.Won?
    case Look(n) => n in s.redeemers && s.redeemers[n].phase.Started?
    case Spend(n) => n in s.redeemers && s.redeemers[n].phase.Looked?
    case Record(n) => n in s.redeemers && s.redeemers[n].phase.Won?
  }

  function Now(c: Config, r: Redeemer): int { r.at + c.offset(r.replica) }

  function Asked(c: Config, s: Sys, n: nat): Sys
    requires n in s.redeemers
  {
    var r := s.redeemers[n];
    if TokenCache.Holds(s.caches(r.replica), r.challenge, Now(c, r)) then s.(redeemers := s.redeemers - {n})
    else s.(redeemers := s.redeemers[n := r.(phase := Looked)])
  }

  function Spent(c: Config, s: Sys, n: nat): Sys
    requires n in s.redeemers
  {
    var r := s.redeemers[n];
    var (st, swapped) := TtlStore.CompareAndSwap(Visible(c, s), MarkerKey(r.challenge), None, MARK, Remaining(c, r.challenge, Now(c, r)), s.clock);
    if !swapped then s.(redeemers := s.redeemers - {n})
    else s.(store := s.store + st, redeemers := s.redeemers[n := r.(phase := Won)], won := s.won + [r.challenge])
  }

  function With(caches: Replica -> TokenCache.Entries, r: Replica, m: TokenCache.Entries): Replica -> TokenCache.Entries {
    (x: Replica) => if x == r then m else caches(x)
  }

  function Recorded(c: Config, s: Sys, n: nat): Sys
    requires n in s.redeemers
  {
    var r := s.redeemers[n];
    var m := TokenCache.Claimed(s.caches(r.replica), r.challenge, Now(c, r) + Remaining(c, r.challenge, Now(c, r)), Now(c, r)).0;
    s.(redeemers := s.redeemers - {n}, caches := With(s.caches, r.replica, m))
  }

  function Apply(c: Config, s: Sys, e: Event): Sys
    requires Enabled(c, s, e)
  {
    match e
    case Tick(elapsed) => s.(clock := s.clock + elapsed)
    case Start(n, ch, r) =>
      if Fresh(c, ch, s.clock + c.offset(r)) then s.(redeemers := s.redeemers[n := Redeemer(ch, r, s.clock, Started)]) else s
    case Refuse(n) => s.(redeemers := s.redeemers - {n})
    case Look(n) => Asked(c, s, n)
    case Spend(n) => Spent(c, s, n)
    case Record(n) => Recorded(c, s, n)
  }

  ghost predicate Run(c: Config, s: Sys, es: seq<Event>, t: Sys)
    decreases |es|
  {
    if es == [] then s == t else Enabled(c, s, es[0]) && Run(c, Apply(c, s, es[0]), es[1..], t)
  }

  ghost predicate Init(s: Sys) {
    s.clock >= 0 && s.store == map[] && s.redeemers == map[] && s.won == [] && forall r: Replica :: s.caches(r) == map[]
  }

  /** The clock difference to any replica and the time this redemption took since
      it read its clock stay together below the allowance. */
  ghost predicate Prompt(c: Config, s: Sys, e: Event) {
    e.Spend? && e.redeemer in s.redeemers ==>
      var r := s.redeemers[e.redeemer];
      forall a: Replica :: c.offset(a) - c.offset(r.replica) + (s.clock - r.at) < SKEW
  }

  ghost predicate PromptRun(c: Config, s: Sys, es: seq<Event>)
    decreases |es|
  {
    es == [] || (Enabled(c, s, es[0]) && Prompt(c, s, es[0]) && PromptRun(c, Apply(c, s, es[0]), es[1..]))
  }

  /** A marker outlives every replica's view of the challenge as fresh. */
  ghost predicate MarkerOk(c: Config, s: Sys, ch: Challenge) {
    MarkerKey(ch) in s.store ==>
      s.store[MarkerKey(ch)].expires > 0 && exists a: Replica :: Outlives(c, s.store[MarkerKey(ch)].expires, ch, a)
  }

  predicate Outlives(c: Config, expires: int, ch: Challenge, a: Replica) { expires >= c.issued(ch) + c.ttl + SKEW - c.offset(a) }

  /** Every redemption under way read its clock while the challenge was fresh there, and
      a cached spend ends after the challenge does. */
  ghost predicate Timely(c: Config, s: Sys) {
    && (forall n | n in s.redeemers :: s.redeemers[n].at <= s.clock && Fresh(c, s.redeemers[n].challenge, Now(c, s.redeemers[n])))
    && (forall r: Replica, ch | ch in s.caches(r) :: s.caches(r)[ch] == c.issued(ch) + c.ttl + SKEW)
  }

  ghost predicate Inv(c: Config, s: Sys) {
    && Timely(c, s)
    && s.clock >= 0
    && (forall ch: Challenge :: MarkerOk(c, s, ch))
    && (forall i :: 0 <= i < |s.won| ==> MarkerKey(s.won[i]) in s.store)
    && (forall i, j :: 0 <= i < j < |s.won| ==> s.won[i] != s.won[j])
  }

  lemma NextTimely(c: Config, s: Sys, e: Event)
    requires Timely(c, s) && Enabled(c, s, e)
    ensures Timely(c, Apply(c, s, e))
  {
    if e.Record? { RecordTimely(c, s, e.redeemer); }
  }

  lemma RecordTimely(c: Config, s: Sys, n: nat)
    requires Timely(c, s) && n in s.redeemers
    ensures Timely(c, Recorded(c, s, n))
  {
    var r := s.redeemers[n];
    RemainingIsExact(c, r.challenge, Now(c, r));
  }

  lemma {:induction false} RunTimely(c: Config, s: Sys, es: seq<Event>, t: Sys)
    requires Timely(c, s) && Run(c, s, es, t)
    ensures Timely(c, t)
    decreases |es|
  {
    if es != [] {
      NextTimely(c, s, es[0]);
      RunTimely(c, Apply(c, s, es[0]), es[1..], t);
    }
  }

  /** However slow the redemptions are: a replica whose cache has the spend refuses
      every redemption of the challenge that has yet to look. */
  lemma CachedIsRefused(c: Config, s: Sys, es: seq<Event>, t: Sys, n: nat)
    requires Init(s) && Run(c, s, es, t) && Enabled(c, t, Look(n))
    ensures t.redeemers[n].challenge in t.caches(t.redeemers[n].replica) ==> Apply(c, t, Look(n)) == t.(redeemers := t.redeemers - {n})
  {
    RunTimely(c, s, es, t);
  }

  /** Over any run: whatever is spent was read by the redeemer's replica no earlier than
      the skew allows before its issue, no later than its lifetime after it, and was
      not issued under a key that had retired longer than the grace before. */
  lemma WinnersWereFresh(c: Config, s: Sys, es: seq<Event>, t: Sys, n: nat)
    requires Init(s) && Run(c, s, es, t) && Enabled(c, t, Spend(n)) && Apply(c, t, Spend(n)).won != t.won
    ensures var r := t.redeemers[n];
            var age := r.at + c.offset(r.replica) - c.issued(r.challenge);
            && -30_000_000_000 <= age <= c.ttl && r.at <= t.clock
            && (c.retired(r.challenge).Some? ==> c.issued(r.challenge) - c.retired(r.challenge).value <= 31_250_000_000)
  {
    RunTimely(c, s, es, t);
  }

  /** Recording another spend does not find the cache full. */
  ghost predicate NotCleared(c: Config, s: Sys, es: seq<Event>, r: Replica)
    decreases |es|
  {
    es == [] || (
      && Enabled(c, s, es[0])
      && (es[0].Record? && s.redeemers[es[0].redeemer].replica == r ==> |s.caches(r)| < TokenCache.MAX_ENTRIES)
      && NotCleared(c, Apply(c, s, es[0]), es[1..], r))
  }

  /** A recorded spend stays recorded until a full cache is cleared. */
  lemma {:induction false} RecordedStays(c: Config, s: Sys, es: seq<Event>, t: Sys, r: Replica, ch: Challenge)
    requires Run(c, s, es, t) && NotCleared(c, s, es, r) && ch in s.caches(r)
    ensures ch in t.caches(r)
    decreases |es|
  {
    if es != [] { RecordedStays(c, Apply(c, s, es[0]), es[1..], t, r, ch); }
  }

  lemma StillMarked(c: Config, s: Sys, n: nat)
    requires Inv(c, s) && n in s.redeemers && Prompt(c, s, Spend(n)) && MarkerKey(s.redeemers[n].challenge) in s.store
    ensures Marked(c, s, s.redeemers[n].challenge)
  {
    var r := s.redeemers[n];
    assert MarkerOk(c, s, r.challenge);
    var a: Replica :| Outlives(c, s.store[MarkerKey(r.challenge)].expires, r.challenge, a);
    assert c.offset(a) - c.offset(r.replica) + (s.clock - r.at) < SKEW;
  }

  /** The spend is a create-only write of the marker: it wins exactly when the marker is
      not live, and then leaves it for its remaining lifetime. */
  lemma SpendCreates(c: Config, s: Sys, n: nat)
    requires Timely(c, s) && n in s.redeemers
    ensures var r, t := s.redeemers[n], Spent(c, s, n);
            && (t.won == s.won + [r.challenge] <==> !Marked(c, s, r.challenge)) && (Marked(c, s, r.challenge) ==> t.won == s.won)
            && (Marked(c, s, r.challenge) ==> t.store == s.store)
            && (!Marked(c, s, r.challenge) ==>
                  t.store == s.store[MarkerKey(r.challenge) := TtlStore.Entry(MARK, s.clock + Remaining(c, r.challenge, Now(c, r)))])
  {
    hide TtlStore.CompareAndSwap;
    var r := s.redeemers[n];
    RemainingIsExact(c, r.challenge, Now(c, r));
    TtlStore.SwapsWhatWasExpected(Visible(c, s), MarkerKey(r.challenge), None, MARK, Remaining(c, r.challenge, Now(c, r)), s.clock);
  }

  lemma SpendInv(c: Config, s: Sys, n: nat)
    requires Inv(c, s) && n in s.redeemers && Prompt(c, s, Spend(n))
    ensures var t := Spent(c, s, n);
            && (forall ch: Challenge :: MarkerOk(c, t, ch)) && (forall i :: 0 <= i < |t.won| ==> MarkerKey(t.won[i]) in t.store)
            && (forall i, j :: 0 <= i < j < |t.won| ==> t.won[i] != t.won[j])
  {
    hide Spent, Marked, Timely;
    var r, t := s.redeemers[n], Spent(c, s, n);
    SpendCreates(c, s, n);
    if MarkerKey(r.challenge) in s.store { StillMarked(c, s, n); }
    if !Marked(c, s, r.challenge) {
      NewMarker(c, s, n);
      forall ch: Challenge ensures MarkerOk(c, t, ch) {
        MarkerKeysApart(ch, r.challenge);
        assert MarkerOk(c, s, ch);
      }
    } else {
      assert t.store == s.store && t.won == s.won;
      forall ch: Challenge ensures MarkerOk(c, t, ch) { assert MarkerOk(c, s, ch); }
    }
  }

  lemma NewMarker(c: Config, s: Sys, n: nat)
    requires Timely(c, s) && n in s.redeemers && s.clock >= 0
    ensures var r := s.redeemers[n];
            var expires := s.clock + Remaining(c, r.challenge, Now(c, r));
            expires > 0 && Outlives(c, expires, r.challenge, r.replica)
  {
    RemainingIsExact(c, s.redeemers[n].challenge, Now(c, s.redeemers[n]));
  }

  lemma NextInv(c: Config, s: Sys, e: Event)
    requires Inv(c, s) && Enabled(c, s, e) && Prompt(c, s, e)
    ensures Inv(c, Apply(c, s, e))
  {
    NextTimely(c, s, e);
    hide Timely;
    if e.Spend? { SpendInv(c, s, e.redeemer); }
    else {
      var t := Apply(c, s, e);
      forall ch: Challenge ensures MarkerOk(c, t, ch) { assert MarkerOk(c, s, ch); }
    }
  }

  lemma {:induction false} RunInv(c: Config, s: Sys, es: seq<Event>, t: Sys)
    requires Inv(c, s) && Run(c, s, es, t) && PromptRun(c, s, es)
    ensures Inv(c, t)
    decreases |es|
  {
    if es != [] {
      NextInv(c, s, es[0]);
      RunInv(c, Apply(c, s, es[0]), es[1..], t);
    }
  }

  /** With a working store, at most one redemption of an authenticated challenge
      succeeds over all replicas and for every interleaving, as long as no
      redemption is slower than the allowance leaves over the clock skew. */
  lemma SpentAtMostOnce(c: Config, s: Sys, es: seq<Event>, t: Sys)
    requires Init(s) && Run(c, s, es, t) && PromptRun(c, s, es)
    ensures forall i, j :: 0 <= i < j < |t.won| ==> t.won[i] != t.won[j]
  {
    RunInv(c, s, es, t);
  }

  // ---------- the bound is sharp ----------

  lemma {:induction false} RunThen(c: Config, s: Sys, es: seq<Event>, t: Sys, e: Event)
    requires Run(c, s, es, t) && Enabled(c, t, e)
    ensures Run(c, s, es + [e], Apply(c, t, e))
    decreases |es|
  {
    hide Apply, Enabled;
    if es == [] {
      assert Run(c, Apply(c, s, e), [], Apply(c, t, e));
      assert [e][1..] == [];
    } else {
      RunThen(c, Apply(c, s, es[0]), es[1..], t, e);
      assert (es + [e])[0] == es[0] && (es + [e])[1..] == es[1..] + [e];
    }
  }

  /** The first redemption spends the challenge as soon as it is issued. */
  function First(ch: Challenge, r: Replica): seq<Event> { [] + [Start(0, ch, r)] + [Look(0)] + [Spend(0)] }

  lemma FirstWins(c: Config, ch: Challenge, r: Replica, s: Sys) returns (t: Sys)
    requires c.ttl >= 0 && c.retired(ch).None? && Init(s) && s.clock == c.issued(ch) - c.offset(r)
    ensures Run(c, s, First(ch, r), t) && t.won == [ch] && t.store == map[MarkerKey(ch) := TtlStore.Entry(MARK, s.clock + c.ttl + SKEW)]
    ensures t.clock == s.clock && t.redeemers == map[0 := Redeemer(ch, r, s.clock, Won)] && t.caches == s.caches
  {
    hide Run;
    RunNone(c, s);
    RunThen(c, s, [], s, Start(0, ch, r));
    var s1 := Apply(c, s, Start(0, ch, r));
    assert s1.redeemers == map[0 := Redeemer(ch, r, s.clock, Started)];
    RunThen(c, s, [] + [Start(0, ch, r)], s1, Look(0));
    var s2 := Apply(c, s1, Look(0));
    RunThen(c, s, [] + [Start(0, ch, r)] + [Look(0)], s2, Spend(0));
    t := Apply(c, s2, Spend(0));
  }

  lemma RunNone(c: Config, s: Sys)
    ensures Run(c, s, [], s)
  {
  }

  /** The second starts when the challenge is last fresh for its replica, looks, and
      spends after the gap. */
  lemma SecondStarts(c: Config, ch: Challenge, r: Replica, s: Sys, es: seq<Event>, t: Sys, wait: nat) returns (u: Sys)
    requires Run(c, s, es, t) && 1 !in t.redeemers && !TokenCache.Holds(t.caches(r), ch, c.issued(ch) + c.ttl)
    requires c.ttl >= 0 && c.retired(ch).None? && t.clock + wait == c.issued(ch) + c.ttl - c.offset(r)
    ensures Run(c, s, es + [Tick(wait)] + [Start(1, ch, r)] + [Look(1)], u)
    ensures u == t.(clock := t.clock + wait, redeemers := t.redeemers[1 := Redeemer(ch, r, t.clock + wait, Looked)])
  {
    hide Run;
    RunThen(c, s, es, t, Tick(wait));
    var t1 := Apply(c, t, Tick(wait));
    RunThen(c, s, es + [Tick(wait)], t1, Start(1, ch, r));
    var t2 := Apply(c, t1, Start(1, ch, r));
    assert t2.redeemers[1] == Redeemer(ch, r, t1.clock, Started);
    RunThen(c, s, es + [Tick(wait)] + [Start(1, ch, r)], t2, Look(1));
    u := Apply(c, t2, Look(1));
    assert u.redeemers == t.redeemers[1 := Redeemer(ch, r, t1.clock, Looked)];
  }

  lemma SecondWins(c: Config, ch: Challenge, s: Sys, es: seq<Event>, t: Sys, gap: nat) returns (u: Sys)
    requires Run(c, s, es, t) && 1 in t.redeemers && t.redeemers[1].phase.Looked? && t.redeemers[1].challenge == ch
    requires !c.lingers && t.won == [ch] && t.clock >= 0
    requires MarkerKey(ch) in t.store && 0 < t.store[MarkerKey(ch)].expires <= t.clock + gap
    ensures Run(c, s, es + [Tick(gap)] + [Spend(1)], u) && u.won == [ch, ch]
  {
    hide Run;
    RunThen(c, s, es, t, Tick(gap));
    var t1 := Apply(c, t, Tick(gap));
    RunThen(c, s, es + [Tick(gap)], t1, Spend(1));
    u := Apply(c, t1, Spend(1));
  }

  /** Two redemptions of one challenge. On two replicas the first is recorded at once;
      on one replica, only after the second has looked. */
  function Twice(c: Config, ch: Challenge, ahead: Replica, behind: Replica, wait: nat, gap: nat): seq<Event> {
    (if ahead != behind
     then First(ch, ahead) + [Record(0)] + [Tick(wait)] + [Start(1, ch, behind)] + [Look(1)]
     else First(ch, ahead) + [Tick(wait)] + [Start(1, ch, behind)] + [Look(1)] + [Record(0)])
    + [Tick(gap)] + [Spend(1)]
  }

  /** Whenever the clock difference of two replicas plus the time a redemption takes
      reaches the allowance, the same challenge can be spent twice; on a single
      replica too, if the winner is slow to record its spend. */
  lemma SkewAllowanceIsSharp(c: Config, ch: Challenge, ahead: Replica, behind: Replica, gap: nat, s: Sys)
    requires c.ttl >= 0 && !c.lingers && c.retired(ch).None? && Init(s)
    requires c.offset(ahead) - c.offset(behind) + gap >= SKEW && c.offset(ahead) >= c.offset(behind)
    requires s.clock == c.issued(ch) - c.offset(ahead)
    ensures var wait := c.ttl + c.offset(ahead) - c.offset(behind);
            exists t :: Run(c, s, Twice(c, ch, ahead, behind, wait, gap), t) && t.won == [ch, ch]
  {
    if ahead != behind { TwoReplicas(c, ch, ahead, behind, gap, s); } else { OneReplica(c, ch, ahead, gap, s); }
  }

  lemma TwoReplicas(c: Config, ch: Challenge, ahead: Replica, behind: Replica, gap: nat, s: Sys)
    requires c.ttl >= 0 && !c.lingers && c.retired(ch).None? && Init(s) && ahead != behind
    requires c.offset(ahead) - c.offset(behind) + gap >= SKEW && c.offset(ahead) >= c.offset(behind)
    requires s.clock == c.issued(ch) - c.offset(ahead)
    ensures var wait := c.ttl + c.offset(ahead) - c.offset(behind);
            exists t :: Run(c, s, Twice(c, ch, ahead, behind, wait, gap), t) && t.won == [ch, ch]
  {
    hide Run;
    var wait, es := c.ttl + c.offset(ahead) - c.offset(behind), First(ch, ahead);
    var t := FirstWins(c, ch, ahead, s);
    RunThen(c, s, es, t, Record(0));
    hide First;
    var t1 := Apply(c, t, Record(0));
    assert t1.redeemers == map[] && t1.caches(behind) == map[] && t1 == t.(redeemers := t1.redeemers, caches := t1.caches);
    var u := SecondStarts(c, ch, behind, s, es + [Record(0)], t1, wait);
    var v := SecondWins(c, ch, s, es + [Record(0)] + [Tick(wait)] + [Start(1, ch, behind)] + [Look(1)], u, gap);
  }

  lemma OneReplica(c: Config, ch: Challenge, r: Replica, gap: nat, s: Sys)
    requires c.ttl >= 0 && !c.lingers && c.retired(ch).None? && Init(s) && gap >= SKEW && s.clock == c.issued(ch) - c.offset(r)
    ensures exists t :: Run(c, s, Twice(c, ch, r, r, c.ttl, gap), t) && t.won == [ch, ch]
  {
    hide Run;
    var es := First(ch, r);
    var t := FirstWins(c, ch, r, s);
    hide First;
    var u := SecondStarts(c, ch, r, s, es, t, c.ttl);
    var looked := es + [Tick(c.ttl)] + [Start(1, ch, r)] + [Look(1)];
    RunThen(c, s, looked, u, Record(0));
    var u1 := Apply(c, u, Record(0));
    assert u1 == u.(redeemers := u.redeemers - {0}, caches := u1.caches);
    var v := SecondWins(c, ch, s, looked + [Record(0)], u1, gap);
  }
}
