/** What the detector does about a signal, in thresholds and rates: when it rises, what
    it then publishes, and how it comes back. */
module PostureResponse {
  import opened Posture

  predicate PastAttack(c: Config, g: Signals) {
    || (c.attackChallengeRate > 0.0 && g.challengeRate > c.attackChallengeRate && g.solveRatio < c.minSolveRatio)
    || (c.storeErrorRatio > 0.0 && g.storeErrorRatio > 3.0 * c.storeErrorRatio)
  }

  predicate PastElevated(c: Config, g: Signals) {
    || (c.challengeRate > 0.0 && g.challengeRate > c.challengeRate)
    || (c.requestRate > 0.0 && g.requestRate > c.requestRate)
    || (c.storeErrorRatio > 0.0 && g.storeErrorRatio > c.storeErrorRatio)
    || (c.storeSlowRatio > 0.0 && g.storeSlowRatio > c.storeSlowRatio)
  }

  lemma SignalsAreThresholds(c: Config, g: Signals)
    ensures AttackSignal(c, g).0 == PastAttack(c, g) && ElevatedSignal(c, g).0 == PastElevated(c, g)
    ensures AttackSignal(c, g).0 ==> AttackSignal(c, g).1 in {"challenge_rate", "store_errors"}
    ensures ElevatedSignal(c, g).0 ==> ElevatedSignal(c, g).1 in {"challenge_rate", "request_rate", "store_errors", "store_slow"}
  {
  }

  /** A level is published with its own effects, and its start time moves with it. */
  predicate Effective(c: Config, st: State) {
    && st.extraBits == (if st.level == 2 then c.attackBits else if st.level == 1 then c.elevatedBits else 0)
    && st.capBits == c.capBits
    && st.forceAlways == (st.level == 2 && c.forceAlways) && st.stateless == (st.level == 2 && c.stateless)
  }

  lemma PublishedIsEffective(c: Config, cur: State, level: Level, reason: string, now: int)
    ensures var st := Published(c, cur, level, reason, now);
            && st.level == level && Effective(c, st)
            && (level == cur.level ==> st.since == cur.since) && (level != cur.level ==> st.since == now && st.reason == reason)
            && (level == cur.level && reason == "" ==> st.reason == cur.reason) && (reason != "" ==> st.reason == reason)
  {
  }

  /** One evaluation without a pin. */
  lemma SignalStep(c: Config, p: Posture, e: Evaluation)
    requires Inv(p, e.now)
    ensures var q := Next(c, p, e);
            && Effective(c, q.shown)
            && (PastAttack(c, e.signals) ==> q.localLevel == 2 && q.shown.level == 2)
            && (PastElevated(c, e.signals) ==> q.localLevel >= 1 && q.shown.level >= 1)
            && (0 <= e.peer <= 2 ==> q.shown.level >= e.peer)
            && (q.localLevel > p.localLevel ==> if q.localLevel == 2 then PastAttack(c, e.signals) else PastElevated(c, e.signals))
            && (q.shown.level > p.shown.level ==>
                  || q.shown.level == e.peer
                  || (q.shown.level == 2 && PastAttack(c, e.signals)) || (q.shown.level == 1 && PastElevated(c, e.signals)))
            && (q.shown.level == p.shown.level ==> q.shown.since == p.shown.since)
            && (q.shown.level != p.shown.level ==> q.shown.since == e.now)
  {
    SignalsAreThresholds(c, e.signals);
    hide Published, ElevatedSignal, AttackSignal, ElevatedHalf, AttackHalf, Effective, PastAttack, PastElevated;
    forall target: Level, why: string ensures
      var st := Published(c, p.shown, target, why, e.now);
      && st.level == target && Effective(c, st)
      && (target == p.shown.level ==> st.since == p.shown.since) && (target != p.shown.level ==> st.since == e.now) {
      PublishedIsEffective(c, p.shown, target, why, e.now);
    }
  }

  /** Over any run without pins: an evaluation past the attack thresholds publishes Attack
      and its effects, one past the elevated thresholds at least Elevated, a peer's vote
      at least that vote; and the level rises on nothing else. */
  lemma SignalsRaise(c: Config, ps: seq<Posture>, es: seq<Evaluation>, i: nat)
    requires c.enabled && Run(c, ps, es) && i < |es|
    ensures var p, q, g, peer := ps[i].shown, ps[i + 1].shown, es[i].signals, es[i].peer;
            && (PastAttack(c, g) ==> q.level == 2 && q.extraBits == c.attackBits && q.forceAlways == c.forceAlways && q.stateless == c.stateless)
            && (PastElevated(c, g) ==> q.level >= 1 && (q.level == 1 ==> q.extraBits == c.elevatedBits && !q.forceAlways && !q.stateless))
            && (0 <= peer <= 2 ==> q.level >= peer)
            && (q.level > p.level ==> q.level == peer || (q.level == 2 && PastAttack(c, g)) || (q.level == 1 && PastElevated(c, g)))
            && (q.level == 0 ==> q.extraBits == 0 && !q.forceAlways && !q.stateless)
  {
    RunInv(c, ps, es, i);
    NextIsEvaluated(c, ps[i], es[i]);
    SignalStep(c, ps[i], es[i]);
    hide Next, Evaluated, PastAttack, PastElevated;
  }

  /** What this replica votes for the fleet follows its own signals alone. */
  lemma VotesAreOwn(c: Config, ps: seq<Posture>, es: seq<Evaluation>, i: nat)
    requires c.enabled && Run(c, ps, es) && i < |es|
    ensures PastAttack(c, es[i].signals) ==> ps[i + 1].localLevel == 2
    ensures PastElevated(c, es[i].signals) ==> ps[i + 1].localLevel >= 1
    ensures ps[i + 1].localLevel > ps[i].localLevel ==>
      if ps[i + 1].localLevel == 2 then PastAttack(c, es[i].signals) else PastElevated(c, es[i].signals)
  {
    RunInv(c, ps, es, i);
    NextIsEvaluated(c, ps[i], es[i]);
    SignalStep(c, ps[i], es[i]);
    hide Next, Evaluated, PastAttack, PastElevated;
  }

  // ---------- and it comes back ----------

  /** Every signal below half its threshold, and no peer's vote. */
  predicate Quiet(c: Config, e: Evaluation) {
    !Half(c, e.signals, ELEVATED) && !Half(c, e.signals, ATTACK) && !(1 <= e.peer <= 2)
  }

  /** A quiet evaluation leaves the level a dwell after its last stamp, by one step, and
      stamps nothing but the level it falls to. */
  lemma QuietStep(c: Config, p: Posture, e: Evaluation)
    requires Inv(p, e.now) && Quiet(c, e)
    ensures var q, l := Next(c, p, e), p.shown.level;
            && q.shown.level <= l
            && (l > 0 && (p.above[l] == 0 || e.now - p.above[l] >= c.dwell) ==> q.shown.level == l - 1)
            && (forall k: Level :: q.above[k] == p.above[k] || (k == q.shown.level == l - 1 && k > 0 && q.above[k] == e.now))
  {
    EntryIsAboveHalf(c, e.signals);
    hide Published, ElevatedSignal, AttackSignal, ElevatedHalf, AttackHalf;
    forall target: Level, why: string ensures Published(c, p.shown, target, why, e.now).level == target {
      PublishedLevel(c, p.shown, target, why, e.now);
    }
  }

  lemma QuietRun(c: Config, ps: seq<Posture>, es: seq<Evaluation>, i: nat)
    requires c.enabled && Run(c, ps, es) && i < |es| && Quiet(c, es[i])
    ensures var p, q, l := ps[i], ps[i + 1], ps[i].shown.level;
            && q.shown.level <= l
            && (l > 0 && (p.above[l] == 0 || es[i].now - p.above[l] >= c.dwell) ==> q.shown.level == l - 1)
            && (forall k: Level :: q.above[k] == p.above[k] || (k == q.shown.level == l - 1 && k > 0 && q.above[k] == es[i].now))
  {
    RunInv(c, ps, es, i);
    NextIsEvaluated(c, ps[i], es[i]);
    QuietStep(c, ps[i], es[i]);
    hide Next, Evaluated, Quiet;
  }

  /** While it is quiet the level does not rise, and neither does the stamp of a level
      that is not fallen to. */
  lemma {:induction false} QuietStays(c: Config, ps: seq<Posture>, es: seq<Evaluation>, i: nat, j: nat, l: Level)
    requires c.enabled && Run(c, ps, es) && i <= j < |ps| && ps[i].shown.level <= l
    requires forall k :: i <= k < j ==> Quiet(c, es[k])
    ensures ps[j].shown.level <= l && ps[j].above[l] == ps[i].above[l]
    decreases j - i
  {
    hide Evaluated, Quiet;
    if i < j {
      QuietStays(c, ps, es, i, j - 1, l);
      QuietRun(c, ps, es, j - 1);
    }
  }

  /** A quiet dwell after the quiet began takes the level down by one. */
  lemma QuietFalls(c: Config, ps: seq<Posture>, es: seq<Evaluation>, i: nat, a: nat, l: Level)
    requires c.enabled && Run(c, ps, es) && i <= a < |es| && 0 < l && ps[i].shown.level <= l
    requires (forall k :: i <= k <= a ==> Quiet(c, es[k])) && ps[i].above[l] + c.dwell <= es[a].now
    ensures ps[a + 1].shown.level <= l - 1
  {
    hide Evaluated, Quiet;
    QuietStays(c, ps, es, i, a, l);
    QuietRun(c, ps, es, a);
  }

  /** Without signals and votes, two dwells after the last of them the posture is Normal. */
  lemma QuietReturnsToNormal(c: Config, ps: seq<Posture>, es: seq<Evaluation>, i: nat, a: nat, b: nat)
    requires c.enabled && Run(c, ps, es) && i <= a < b < |es|
    requires forall k :: i <= k <= b ==> Quiet(c, es[k])
    requires es[i].now + c.dwell <= es[a].now && es[a].now + c.dwell <= es[b].now
    ensures ps[b + 1].shown.level == 0 && ps[b + 1].localLevel == 0
  {
    hide Evaluated, Quiet, Half;
    RunInv(c, ps, es, i);
    QuietFalls(c, ps, es, i, a, ATTACK);
    RunInv(c, ps, es, a + 1);
    RunStampsBy(c, ps, es, a, ELEVATED);
    QuietFalls(c, ps, es, a + 1, b, ELEVATED);
    RunStep(c, ps, es, b);
  }

  lemma RunStampsBy(c: Config, ps: seq<Posture>, es: seq<Evaluation>, i: nat, l: Level)
    requires c.enabled && Run(c, ps, es) && i < |es|
    ensures ps[i + 1].above[l] <= es[i].now
  {
    RunInv(c, ps, es, i);
    NextIsEvaluated(c, ps[i], es[i]);
    StampStep(c, ps[i], es[i]);
    hide Next, Evaluated, Half;
  }

  // ---------- pins and switches ----------

  /** A pin in force overrides signals and peers both ways; one that has lapsed does not,
      and without a pin a detector that is switched off publishes Normal. */
  lemma PinOverrides(c: Config, p: Posture, g: Signals, peer: int, now: int)
    requires Valid(p)
    ensures var q, pinned := Evaluated(c, p, g, peer, now), p.pin.Pinned? && (p.pin.until == 0 || now < p.pin.until);
            && (pinned ==> q.shown.level == p.pin.level == q.localLevel && q.pin == p.pin && q.shown.reason == "forced" && Effective(c, q.shown))
            && (!pinned ==> q.pin == Unpinned)
            && (!pinned && !c.enabled ==> q.shown.level == 0 == q.localLevel && Effective(c, q.shown))
            && (!pinned && c.enabled ==> q == Evaluated(c, p.(pin := Unpinned), g, peer, now))
  {
    hide Automatic, Published, Effective;
    PublishedIsEffective(c, p.shown, if p.pin.Pinned? then p.pin.level else NORMAL, "forced", now);
    PublishedIsEffective(c, p.shown, NORMAL, "", now);
    AutomaticKeepsPin(c, p.(pin := Unpinned), g, if peer < NORMAL || peer > ATTACK then NORMAL else peer, now);
  }

  lemma AutomaticKeepsPin(c: Config, p: Posture, g: Signals, peer: Level, now: int)
    requires Valid(p)
    ensures Automatic(c, p, g, peer, now).pin == p.pin
  {
  }

  // ---------- the difficulty raise ----------

  /** The window moves up by the whole raise, unless the cap or the domain's own ceiling,
      whichever is higher, stops it. */
  lemma RaiseTakesEffect(st: State, baseBits: int, maxBits: int, capBits: int)
    requires baseBits <= maxBits && st.extraBits >= 0
    ensures var (lo, hi) := EffectiveBits(st, baseBits, maxBits, capBits);
            var top := if capBits > maxBits then capBits else maxBits;
            && (baseBits + st.extraBits <= top ==> lo == baseBits + st.extraBits)
            && (baseBits + st.extraBits > top && st.extraBits > 0 ==> lo == top)
            && (maxBits + st.extraBits <= top ==> hi == maxBits + st.extraBits)
            && (maxBits + st.extraBits > top && st.extraBits > 0 ==> hi == top)
  {
  }
}
