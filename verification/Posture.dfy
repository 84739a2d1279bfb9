/** The attack posture of one replica: signals, decay and the published level. */
module Posture {

  type Level = x: int | 0 <= x <= 2
  const NORMAL: Level := 0
  const ELEVATED: Level := 1
  const ATTACK: Level := 2

  /** A rate or ratio of 0 switches its signal off. `dwell` is in nanoseconds. */
  datatype Config = Config(
    enabled: bool, dwell: int,
    challengeRate: real, attackChallengeRate: real, minSolveRatio: real,
    requestRate: real, storeErrorRatio: real, storeSlowRatio: real,
    elevatedBits: int, attackBits: int, capBits: int, forceAlways: bool, stateless: bool)

  datatype Signals = Signals(challengeRate: real, requestRate: real, solveRatio: real, storeErrorRatio: real, storeSlowRatio: real)

  datatype State = State(level: Level, extraBits: int, capBits: int, forceAlways: bool, stateless: bool, since: int, reason: string)

  /** `until` is 0 for a pin that does not lapse. */
  datatype Pin = Unpinned | Pinned(level: Level, until: int)

  /** `above[l]` is the last time a signal of level `l` was at half its threshold,
      a peer voted `l`, or the posture stepped down to `l`; 0 for never. */
  datatype Posture = Posture(above: seq<int>, localLevel: Level, shown: State, pin: Pin)

  predicate Valid(p: Posture) { |p.above| == 3 }

  // ---------- signals ----------

  function ElevatedSignal(c: Config, g: Signals): (bool, string) {
    if c.challengeRate > 0.0 && g.challengeRate > c.challengeRate then (true, "challenge_rate")
    else if c.requestRate > 0.0 && g.requestRate > c.requestRate then (true, "request_rate")
    else if c.storeErrorRatio > 0.0 && g.storeErrorRatio > c.storeErrorRatio then (true, "store_errors")
    else if c.storeSlowRatio > 0.0 && g.storeSlowRatio > c.storeSlowRatio then (true, "store_slow")
    else (false, "")
  }

  function AttackSignal(c: Config, g: Signals): (bool, string) {
    if c.attackChallengeRate > 0.0 && g.challengeRate > c.attackChallengeRate && g.solveRatio < c.minSolveRatio then (true, "challenge_rate")
    else if c.storeErrorRatio > 0.0 && g.storeErrorRatio > 3.0 * c.storeErrorRatio then (true, "store_errors")
    else (false, "")
  }

  predicate ElevatedHalf(c: Config, g: Signals) {
    || (c.challengeRate > 0.0 && g.challengeRate >= c.challengeRate / 2.0)
    || (c.requestRate > 0.0 && g.requestRate >= c.requestRate / 2.0)
    || (c.storeErrorRatio > 0.0 && g.storeErrorRatio >= c.storeErrorRatio / 2.0)
    || (c.storeSlowRatio > 0.0 && g.storeSlowRatio >= c.storeSlowRatio / 2.0)
  }

  predicate AttackHalf(c: Config, g: Signals) {
    || (c.attackChallengeRate > 0.0 && g.challengeRate >= c.attackChallengeRate / 2.0 && g.solveRatio < c.minSolveRatio)
    || (c.storeErrorRatio > 0.0 && g.storeErrorRatio >= 3.0 * c.storeErrorRatio / 2.0)
  }

  /** A signal that enters a level is also at half its threshold. */
  lemma EntryIsAboveHalf(c: Config, g: Signals)
    ensures ElevatedSignal(c, g).0 ==> ElevatedHalf(c, g)
    ensures AttackSignal(c, g).0 ==> AttackHalf(c, g)
  {
  }

  predicate Half(c: Config, g: Signals, l: Level) {
    if l == ELEVATED then ElevatedHalf(c, g) else l == ATTACK && AttackHalf(c, g)
  }

  // ---------- one evaluation ----------

  function Touched(above: seq<int>, l: Level, now: int, hit: bool): seq<int>
    requires |above| == 3
  {
    if hit then above[l := now] else above
  }

  function DecayFrom(c: Config, above: seq<int>, cur: Level, now: int): (l: Level)
    requires |above| == 3
    ensures l == cur || l == cur - 1
  {
    if cur == NORMAL then NORMAL
    else if above[cur] != 0 && now - above[cur] < c.dwell then cur
    else cur - 1
  }

  function BitsFor(c: Config, l: Level): int {
    if l == ELEVATED then c.elevatedBits else if l == ATTACK then c.attackBits else 0
  }

  function Published(c: Config, cur: State, level: Level, reason: string, now: int): State {
    var why := if reason == "" && level == cur.level then cur.reason else reason;
    var next := State(level, BitsFor(c, level), c.capBits, level == ATTACK && c.forceAlways, level == ATTACK && c.stateless, now, why);
    if next.(since := cur.since) == cur then cur
    else if cur.level == level then next.(since := cur.since) else next
  }

  /** The pin in force, with a lapsed one taken out. */
  function ResolvePin(pin: Pin, now: int): Pin {
    if pin.Pinned? && pin.until != 0 && now >= pin.until then Unpinned else pin
  }

  /** The time stamps after this window's own signals. */
  function Stamped(c: Config, above: seq<int>, g: Signals, now: int): seq<int>
    requires |above| == 3
  {
    Touched(Touched(above, ELEVATED, now, ElevatedSignal(c, g).0 || ElevatedHalf(c, g)),
            ATTACK, now, AttackSignal(c, g).0 || AttackHalf(c, g))
  }

  function LocalLevel(c: Config, above: seq<int>, cur: Level, g: Signals, now: int): (Level, string)
    requires |above| == 3
  {
    if AttackSignal(c, g).0 then (ATTACK, AttackSignal(c, g).1)
    else if ElevatedSignal(c, g).0 && cur < ATTACK then (ELEVATED, ElevatedSignal(c, g).1)
    else (DecayFrom(c, above, cur, now), "")
  }

  /** The level to publish, when `desired` is what this replica and its peers want. */
  function Target(c: Config, above: seq<int>, shown: State, desired: Level, now: int): (l: Level)
    requires |above| == 3
  {
    if desired < shown.level && shown.reason != "forced" then
      var decayed := DecayFrom(c, above, shown.level, now);
      if decayed > desired then decayed else desired
    else desired
  }

  /** The published state and the time stamps once `desired` has been announced. */
  function Announced(c: Config, shown: State, above: seq<int>, desired: Level, reason: string, now: int): (State, seq<int>)
    requires |above| == 3
  {
    var target := Target(c, above, shown, desired, now);
    var falling := desired < shown.level && shown.reason != "forced";
    (Published(c, shown, target, if falling && target == shown.level then "" else reason, now),
     Touched(above, target, now, falling && target < shown.level && target > NORMAL))
  }

  function Automatic(c: Config, p: Posture, g: Signals, peer: Level, now: int): Posture
    requires Valid(p)
  {
    var stamped := Stamped(c, p.above, g, now);
    var (own, reason) := LocalLevel(c, stamped, p.localLevel, g, now);
    var (desired, why) := if peer > own then (peer, "peer") else (own, reason);
    var (shown, above) := Announced(c, p.shown, Touched(stamped, peer, now, peer > NORMAL), desired, why, now);
    Posture(above, own, shown, p.pin)
  }

  /** A peer's level from outside the three levels counts as Normal. */
  function Evaluated(c: Config, p: Posture, g: Signals, peer: int, now: int): Posture
    requires Valid(p)
  {
    var q := p.(pin := ResolvePin(p.pin, now));
    if q.pin.Pinned? then q.(localLevel := q.pin.level, shown := Published(c, p.shown, q.pin.level, "forced", now))
    else if !c.enabled then q.(localLevel := NORMAL, shown := Published(c, p.shown, NORMAL, "", now))
    else Automatic(c, q, g, if peer < NORMAL || peer > ATTACK then NORMAL else peer, now)
  }

  class Detector {
    const lastAbove: array<int>
    var localLevel: Level
    var state: State
    var pin: Pin

    ghost predicate Ok()
      reads this
    {
      lastAbove.Length == 3
    }

    ghost function Value(): Posture
      reads this, lastAbove
    {
      Posture(lastAbove[..], localLevel, state, pin)
    }

    constructor (now: int)
      ensures Ok() && fresh(lastAbove) && Value() == Starting(now)
    {
      lastAbove := new int[3](_ => 0);
      localLevel, state, pin := NORMAL, State(NORMAL, 0, 0, false, false, now, ""), Unpinned;
      new;
      assert lastAbove[..] == [0, 0, 0];
    }

    method Publish(c: Config, level: Level, reason: string, now: int)
      modifies this`state
      ensures state == Published(c, old(state), level, reason, now)
    {
      var why := reason;
      if reason == "" && level == state.level { why := state.reason; }
      var next := State(level, BitsFor(c, level), c.capBits, level == ATTACK && c.forceAlways, level == ATTACK && c.stateless, now, why);
      if state.level == next.level && state.reason == next.reason && state.extraBits == next.extraBits && state.capBits == next.capBits
         && state.forceAlways == next.forceAlways && state.stateless == next.stateless { return; }
      if state.level == level { next := next.(since := state.since); }
      state := next;
    }

    method Stamp(l: Level, now: int, hit: bool)
      requires Ok()
      modifies lastAbove
      ensures lastAbove[..] == Touched(old(lastAbove[..]), l, now, hit)
    {
      if hit { lastAbove[l] := now; }
    }

    method Evaluate(c: Config, g: Signals, peer0: int, now: int)
      requires Ok()
      modifies this, lastAbove
      ensures Ok() && Value() == Evaluated(c, old(Value()), g, peer0, now)
    {
      var peer: Level := if peer0 < NORMAL || peer0 > ATTACK then NORMAL else peer0;
      if pin.Pinned? && pin.until != 0 && now >= pin.until { pin := Unpinned; }
      if pin.Pinned? {
        localLevel := pin.level;
        Publish(c, pin.level, "forced", now);
        return;
      }
      if !c.enabled {
        localLevel := NORMAL;
        Publish(c, NORMAL, "", now);
        return;
      }
      Detect(c, g, peer, now);
    }

    method Detect(c: Config, g: Signals, peer: Level, now: int)
      requires Ok()
      modifies this, lastAbove
      ensures Ok() && Value() == Automatic(c, old(Value()), g, peer, now)
    {
      hide Published, DecayFrom, ElevatedSignal, AttackSignal, ElevatedHalf, AttackHalf, Target, LocalLevel, Stamped;
      Measure(c, g, now);
      var own, reason := Decide(c, g, now);
      localLevel := own;
      var desired, why := own, reason;
      if peer > desired { desired, why := peer, "peer"; }
      Stamp(peer, now, peer > NORMAL);
      Announce(c, desired, why, now);
    }

    /** Records which levels have a signal at half its threshold or above. */
    method Measure(c: Config, g: Signals, now: int)
      requires Ok()
      modifies lastAbove
      ensures lastAbove[..] == Stamped(c, old(lastAbove[..]), g, now)
    {
      Stamp(ELEVATED, now, ElevatedSignal(c, g).0 || ElevatedHalf(c, g));
      Stamp(ATTACK, now, AttackSignal(c, g).0 || AttackHalf(c, g));
    }

    method Decide(c: Config, g: Signals, now: int) returns (own: Level, reason: string)
      requires Ok()
      ensures (own, reason) == LocalLevel(c, lastAbove[..], localLevel, g, now)
    {
      var (elevatedHit, elevatedReason) := ElevatedSignal(c, g);
      var (attackHit, attackReason) := AttackSignal(c, g);
      own, reason := localLevel, "";
      if attackHit { own, reason := ATTACK, attackReason; }
      else if elevatedHit && own < ATTACK { own, reason := ELEVATED, elevatedReason; }
      else { own := DecayFrom(c, lastAbove[..], own, now); }
    }

    /** Publishes the desired level, or the next one on the way down to it. */
    method Announce(c: Config, desired: Level, reason: string, now: int)
      requires Ok()
      modifies this`state, lastAbove
      ensures (state, lastAbove[..]) == Announced(c, old(state), old(lastAbove[..]), desired, reason, now)
    {
      var target, why := desired, reason;
      if desired < state.level && state.reason != "forced" {
        var decayed := DecayFrom(c, lastAbove[..], state.level, now);
        target := if decayed > desired then decayed else desired;
        Stamp(target, now, target < state.level && target > NORMAL);
        if target == state.level { why := ""; }
      }
      Publish(c, target, why, now);
    }
  }

  function Starting(now: int): Posture {
    Posture([0, 0, 0], NORMAL, State(NORMAL, 0, 0, false, false, now, ""), Unpinned)
  }

  // ---------- runs ----------

  datatype Evaluation = Evaluation(signals: Signals, peer: int, now: int)

  /** The states after 0, 1, .. evaluations. */
  ghost predicate Run(c: Config, ps: seq<Posture>, es: seq<Evaluation>) {
    && |ps| == |es| + 1
    && (forall i :: 0 <= i < |ps| ==> Valid(ps[i]))
    && (exists t :: ps[0] == Starting(t))
    && (forall i :: 0 <= i < |es| ==> ps[i + 1] == Evaluated(c, ps[i], es[i].signals, es[i].peer, es[i].now))
    && (forall i :: 0 <= i < |es| ==> es[i].now > 0)
    && (forall i, j :: 0 <= i < j < |es| ==> es[i].now <= es[j].now)
  }

  /** What a run without pins keeps: never forced, and never below the own level. */
  predicate Inv(p: Posture, now: int) {
    && Valid(p) && p.pin == Unpinned && p.shown.reason != "forced" && p.localLevel <= p.shown.level
    && (forall l: Level :: p.above[l] <= now)
  }

  /** An evaluation as detection alone makes it. */
  function Next(c: Config, p: Posture, e: Evaluation): Posture
    requires Valid(p)
  {
    Automatic(c, p, e.signals, if e.peer < NORMAL || e.peer > ATTACK then NORMAL else e.peer, e.now)
  }

  lemma NextIsEvaluated(c: Config, p: Posture, e: Evaluation)
    requires c.enabled && Valid(p) && p.pin == Unpinned
    ensures Evaluated(c, p, e.signals, e.peer, e.now) == Next(c, p, e)
  {
    assert p.(pin := ResolvePin(p.pin, e.now)) == p;
  }

  lemma PublishedLevel(c: Config, cur: State, level: Level, reason: string, now: int)
    ensures Published(c, cur, level, reason, now).level == level
    ensures reason != "forced" && cur.reason != "forced" ==> Published(c, cur, level, reason, now).reason != "forced"
  {
  }

  /** Down by at most one level, and never below the own level. */
  lemma LevelStep(c: Config, p: Posture, e: Evaluation)
    requires Inv(p, e.now)
    ensures var q := Next(c, p, e);
            Valid(q) && q.pin == Unpinned && q.shown.reason != "forced" && q.localLevel <= q.shown.level && q.shown.level >= p.shown.level - 1
  {
    hide Published, ElevatedHalf, AttackHalf;
    forall target: Level, why: string ensures
      var r := Published(c, p.shown, target, why, e.now);
      r.level == target && (why != "forced" ==> r.reason != "forced") {
      PublishedLevel(c, p.shown, target, why, e.now);
    }
  }

  /** Time stamps only move forward, to now. */
  lemma StampStep(c: Config, p: Posture, e: Evaluation)
    requires Inv(p, e.now)
    ensures var q := Next(c, p, e);
            && Valid(q) && (forall l: Level :: p.above[l] <= q.above[l] <= e.now)
            && (forall l: Level :: Half(c, e.signals, l) ==> q.above[l] == e.now)
  {
    hide Published, LocalLevel, Target, ElevatedSignal, AttackSignal, ElevatedHalf, AttackHalf;
  }

  /** A level that is newly published has just been stamped. */
  lemma EntryStep(c: Config, p: Posture, e: Evaluation)
    requires Inv(p, e.now)
    ensures var q := Next(c, p, e);
            Valid(q) && (q.shown.level != p.shown.level && q.shown.level > NORMAL ==> q.above[q.shown.level] == e.now)
  {
    hide ElevatedHalf, AttackHalf;
  }

  /** A level is left only when its stamp is a dwell old, this window included. */
  lemma LeaveStep(c: Config, p: Posture, e: Evaluation)
    requires Inv(p, e.now) && e.now > 0 && Next(c, p, e).shown.level < p.shown.level
    ensures p.above[p.shown.level] == 0 || e.now - p.above[p.shown.level] >= c.dwell
    ensures Half(c, e.signals, p.shown.level) ==> c.dwell <= 0
  {
    hide ElevatedSignal, AttackSignal, ElevatedHalf, AttackHalf;
  }

  lemma {:induction false} RunInv(c: Config, ps: seq<Posture>, es: seq<Evaluation>, i: nat)
    requires c.enabled && Run(c, ps, es) && i < |es|
    ensures Inv(ps[i], es[i].now)
  {
    if i > 0 {
      RunInv(c, ps, es, i - 1);
      NextIsEvaluated(c, ps[i - 1], es[i - 1]);
      LevelStep(c, ps[i - 1], es[i - 1]);
      StampStep(c, ps[i - 1], es[i - 1]);
      hide Next, Evaluated;
      assert es[i - 1].now <= es[i].now;
    }
  }

  /** What holds of evaluation `i` of a run. */
  ghost predicate StepFacts(c: Config, p: Posture, q: Posture, e: Evaluation) {
    && Valid(p) && Valid(q) && q.shown.level >= p.shown.level - 1 && q.localLevel <= q.shown.level
    && (forall l: Level :: p.above[l] <= q.above[l])
    && (forall l: Level :: Half(c, e.signals, l) ==> q.above[l] == e.now)
    && (q.shown.level != p.shown.level && q.shown.level > NORMAL ==> q.above[q.shown.level] == e.now)
    && (q.shown.level < p.shown.level ==>
      && (p.above[p.shown.level] == 0 || e.now - p.above[p.shown.level] >= c.dwell)
      && (Half(c, e.signals, p.shown.level) ==> c.dwell <= 0))
  }

  lemma RunStep(c: Config, ps: seq<Posture>, es: seq<Evaluation>, i: nat)
    requires c.enabled && Run(c, ps, es) && i < |es|
    ensures StepFacts(c, ps[i], ps[i + 1], es[i]) && es[i].now > 0
  {
    RunInv(c, ps, es, i);
    NextIsEvaluated(c, ps[i], es[i]);
    hide Next, Evaluated, Half;
    LevelStep(c, ps[i], es[i]);
    StampStep(c, ps[i], es[i]);
    EntryStep(c, ps[i], es[i]);
    if ps[i + 1].shown.level < ps[i].shown.level { LeaveStep(c, ps[i], es[i]); }
  }

  /** The published level falls by at most one per evaluation and is never below
      the level this replica detects itself. */
  lemma FallsOneStepAtATime(c: Config, ps: seq<Posture>, es: seq<Evaluation>, i: nat)
    requires c.enabled && Run(c, ps, es) && i < |es|
    ensures ps[i + 1].shown.level >= ps[i].shown.level - 1
    ensures ps[i + 1].shown.level >= ps[i + 1].localLevel
  {
    RunStep(c, ps, es, i);
  }

  lemma {:induction false} StampsGrow(c: Config, ps: seq<Posture>, es: seq<Evaluation>, i: nat, j: nat, l: Level)
    requires c.enabled && Run(c, ps, es) && i <= j < |ps|
    ensures ps[i].above[l] <= ps[j].above[l]
    decreases j - i
  {
    hide Evaluated, Half;
    if i < j {
      StampsGrow(c, ps, es, i, j - 1, l);
      RunStep(c, ps, es, j - 1);
    }
  }

  /** Once any level is entered, on the way up or down, the published level stays at
      or above it until `dwell` has passed. */
  lemma {:induction false} EnteredLevelDwells(c: Config, ps: seq<Posture>, es: seq<Evaluation>, i: nat, j: nat)
    requires c.enabled && Run(c, ps, es) && i < |es| && i < j < |ps|
    requires ps[i + 1].shown.level != ps[i].shown.level
    requires j > i + 1 ==> es[j - 1].now < es[i].now + c.dwell
    ensures ps[j].shown.level >= ps[i + 1].shown.level
    decreases j
  {
    hide Evaluated, Half;
    if j > i + 1 {
      assert es[j - 2].now <= es[j - 1].now;
      EnteredLevelDwells(c, ps, es, i, j - 1);
      RunStep(c, ps, es, i);
      StampsGrow(c, ps, es, i + 1, j - 1, ps[i + 1].shown.level);
      RunStep(c, ps, es, j - 1);
    }
  }

  /** Load that stays at or above half of a level's thresholds holds that level. */
  lemma {:induction false} HalfLoadHolds(c: Config, ps: seq<Posture>, es: seq<Evaluation>, i: nat, j: nat, l: Level)
    requires c.enabled && c.dwell > 0 && Run(c, ps, es) && i <= j < |ps| && ps[i].shown.level >= l
    requires forall k :: i <= k < j ==> Half(c, es[k].signals, l)
    ensures ps[j].shown.level >= l
    decreases j - i
  {
    hide Evaluated, Half;
    if i < j {
      HalfLoadHolds(c, ps, es, i, j - 1, l);
      RunStep(c, ps, es, j - 1);
    }
  }

  /** A level is left only after its signals stayed below half for `dwell`. */
  lemma LeavingNeedsQuiet(c: Config, ps: seq<Posture>, es: seq<Evaluation>, i: nat, j: nat)
    requires c.enabled && c.dwell > 0 && Run(c, ps, es) && i <= j < |es|
    requires ps[j + 1].shown.level < ps[j].shown.level && Half(c, es[i].signals, ps[j].shown.level)
    ensures es[j].now - es[i].now >= c.dwell
  {
    hide Evaluated, Half;
    RunStep(c, ps, es, i);
    RunStep(c, ps, es, j);
    if i < j { StampsGrow(c, ps, es, i + 1, j, ps[j].shown.level); }
  }

  // ---------- the difficulty raise ----------

  function EffectiveBits(st: State, baseBits: int, maxBits: int, capBits: int): (int, int) {
    if st.extraBits == 0 then (baseBits, maxBits)
    else
      var cap := if capBits > maxBits then capBits else maxBits;
      var raised := if baseBits + st.extraBits < cap then baseBits + st.extraBits else cap;
      var effBase := if raised > baseBits then raised else baseBits;
      var top := if maxBits + st.extraBits < cap then maxBits + st.extraBits else cap;
      (effBase, if top > effBase then top else effBase)
  }

  /** The raise never lowers the floor a solved token is checked against, never
      inverts the window, and for a raise that is not negative never lowers the
      ceiling; no cap, however configured, changes that. */
  lemma RaiseOnlyRaises(st: State, baseBits: int, maxBits: int, capBits: int)
    requires baseBits <= maxBits
    ensures var (lo, hi) := EffectiveBits(st, baseBits, maxBits, capBits);
            && baseBits <= lo <= hi && (st.extraBits >= 0 ==> maxBits <= hi)
            && (st.extraBits >= 0 ==> hi <= maxBits + st.extraBits && (hi <= capBits || hi == maxBits))
  {
  }
}
