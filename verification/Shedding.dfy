/** The store-free fast path of a saturated daemon against the pipeline it stands
    in for: it asks some of the same questions in another order. */
module Shedding {
  import opened Pipeline

  datatype Verdict = ShedPass | ShedDeny | ShedReject

  const SATURATED := (ShedReject, "admission:max_inflight")

  /** The denylist before an address that cannot be parsed is no reason to deny. */
  function Shed(w: World): (Verdict, string) {
    var env := FRESH_ENV.(exemption := w.allowlist);
    if w.parseable && w.denylist.Some? then (ShedDeny, w.denylist.value)
    else if w.mirror.Some? && w.mirror.value.hit.Some? then (ShedDeny, "behaviour_block:" + w.mirror.value.hit.value)
    else if w.mirror.Some? && w.mirror.value.readThrough then SATURATED
    else if w.bot.None? then ShedLocal(w, env)
    else if w.cachedIdentity.None? then SATURATED
    else
      var (outcome, next) := ClassifyBot(w.bot.value, w.cachedIdentity.value, env);
      if outcome == Unknown then SATURATED
      else if outcome == Spoof && !w.spoofContinues then (ShedDeny, "bot_spoof:" + w.bot.value)
      else ShedLocal(w, next)
  }

  /** The checks that need nothing but this process. */
  function ShedLocal(w: World, env: Env): (Verdict, string) {
    var intel, trap := IntelDenyOpinion(w), HoneypotOpinion(w);
    if intel.Decided? then (ShedDeny, intel.decision.reason)
    else if trap.Decided? then (ShedDeny, trap.decision.reason)
    else
      var (waf, next) := WafOpinion(w, env);
      if waf.Decided? then
        match waf.decision.action
        case Deny => (ShedDeny, waf.decision.reason)
        case Allow => (ShedPass, waf.decision.reason)
        case _ => SATURATED
      else if PowToken(w, next).0 == TokenValid then (ShedPass, "pow:token")
      else SATURATED
  }

  /** The shed path reads the bot identity from the cache, which the pipeline asks
      first too; so when there is one, both see the same. */
  predicate SameOracles(w: World) { w.cachedIdentity.Some? ==> w.identity == w.cachedIdentity.value }

  /** The state the shed path has when it reaches the local checks. */
  function ShedEnv(w: World): Env {
    var env := FRESH_ENV.(exemption := w.allowlist);
    if w.bot.Some? && w.cachedIdentity.Some? then ClassifyBot(w.bot.value, w.cachedIdentity.value, env).1 else env
  }

  lemma ShedEnvFaithful(w: World)
    requires SameOracles(w) && (w.bot.Some? ==> w.cachedIdentity.Some?)
    ensures Faithful(w, ShedEnv(w), true)
  {
  }

  /** The local checks by oracle, whatever was asked before them. */
  lemma ShedLocalFromOracles(w: World, env: Env)
    requires Faithful(w, env, true)
    ensures ShedLocal(w, env).0 ==
      if IntelDenyOpinion(w).Decided? || HoneypotOpinion(w).Decided? then ShedDeny
      else match WafVerdict(w)
        case Decided(d) => if d.action == Deny then ShedDeny else if d.action == Allow then ShedPass else ShedReject
        case _ => if w.pow && w.powEnabled && w.token == TokenValid then ShedPass else ShedReject
  {
    WafFromOracles(w, env);
    TokenMemo(w, WafOpinion(w, env).1);
    hide Faithful, WafOpinion, WafVerdict, IntelDenyOpinion, HoneypotOpinion;
  }

  // ---------- the pipeline, unrolled ----------

  lemma Front(w: World)
    ensures Outcome(w, 0, FRESH_ENV) == Outcome(w, 2, PowExempt(w, FRESH_ENV.(exemption := w.allowlist)).1)
  {
    hide PowExempt;
    var env := FRESH_ENV.(exemption := w.allowlist);
    assert Outcome(w, 0, FRESH_ENV) == Outcome(w, 1, env);
  }

  lemma DenylistFirst(w: World, env: Env)
    ensures DenylistOpinion(w).Decided? ==> Outcome(w, 2, env).0 == DenylistOpinion(w).decision
    ensures !DenylistOpinion(w).Decided? ==> Outcome(w, 2, env) == Outcome(w, 3, env)
  {
  }

  lemma BotNext(w: World, env: Env)
    ensures BotOpinion(w, env).0.Decided? ==> Outcome(w, 3, env).0 == BotOpinion(w, env).0.decision
    ensures !BotOpinion(w, env).0.Decided? ==> Outcome(w, 3, env) == Outcome(w, 4, BotOpinion(w, env).1)
  {
  }

  /** From the intelligence feeds to the WAF stage. */
  lemma MiddleStages(w: World, env: Env)
    ensures IntelDenyOpinion(w).Decided? ==> Outcome(w, 4, env).0 == IntelDenyOpinion(w).decision
    ensures !IntelDenyOpinion(w).Decided? && BlockOpinion(w).Decided? ==> Outcome(w, 4, env).0 == BlockOpinion(w).decision
    ensures !IntelDenyOpinion(w).Decided? && !BlockOpinion(w).Decided? && HoneypotOpinion(w).Decided? ==>
              Outcome(w, 4, env).0 == HoneypotOpinion(w).decision
    ensures !IntelDenyOpinion(w).Decided? && !BlockOpinion(w).Decided? && !HoneypotOpinion(w).Decided? ==>
              Outcome(w, 4, env) == Outcome(w, 7, env)
  {
    hide IntelDenyOpinion, BlockOpinion, HoneypotOpinion;
    assert !IntelDenyOpinion(w).Decided? ==> Outcome(w, 4, env) == Outcome(w, 5, env);
    assert !BlockOpinion(w).Decided? ==> Outcome(w, 5, env) == Outcome(w, 6, env);
    assert !HoneypotOpinion(w).Decided? ==> Outcome(w, 6, env) == Outcome(w, 7, env);
  }

  lemma WafStage(w: World, env: Env)
    requires Faithful(w, env, true)
    ensures WafVerdict(w).Decided? ==> Outcome(w, 7, env).0 == WafVerdict(w).decision
    ensures !WafVerdict(w).Decided? ==> Outcome(w, 7, env) == Outcome(w, 8, WafOpinion(w, env).1)
  {
    WafFromOracles(w, env);
    hide Faithful, WafOpinion, WafVerdict;
  }

  /** The stages after the WAF for a request with a valid token. */
  lemma TokenStage(w: World, env: Env)
    requires Faithful(w, env, true) && w.pow && w.powEnabled && w.token == TokenValid
    ensures Outcome(w, 8, env).0.action == if IsExempt(w) && AnomalyDenies(w) then Deny else Allow
  {
    ExemptionIsOrderFree(w, env);
    var next := PowExempt(w, env).1;
    TokenMemo(w, next);
    if IsExempt(w) {
      ExemptionIsOrderFree(w, next);
      assert PowExempt(w, next) == (true, next);
      hide PowExempt, PowToken, Faithful, IsExempt;
      assert Outcome(w, 8, env) == Outcome(w, 9, next);
      assert Outcome(w, 9, next) == Outcome(w, 10, next);
      assert !AnomalyDenies(w) ==> Outcome(w, 10, next) == Outcome(w, 11, next) == Outcome(w, 12, next);
    }
  }

  // ---------- agreement ----------

  /** What holds of the oracles of any request: the cached identity is the one the
      pipeline sees, and the mirror finds parseable addresses only. */
  predicate Coherent(w: World) {
    SameOracles(w) && (w.mirror.Some? && w.mirror.value.hit.Some? ==> w.parseable)
  }

  /** Where the pipeline stands after the bot stage. */
  lemma AfterBot(w: World)
    ensures Faithful(w, Classified(w), true)
    ensures
      var d := Outcome(w, 0, FRESH_ENV).0;
      if DenylistOpinion(w).Decided? then d == DenylistOpinion(w).decision
      else if BotOpinion(w, FRESH_ENV).0.Decided? then d == BotOpinion(w, FRESH_ENV).0.decision
      else d == Outcome(w, 4, Classified(w)).0
  {
    ClassifiedFaithful(w);
    Front(w);
    var env := PowExempt(w, FRESH_ENV.(exemption := w.allowlist)).1;
    DenylistFirst(w, env);
    BotNext(w, env);
    assert BotOpinion(w, env).0 == BotOpinion(w, FRESH_ENV).0;
    hide Outcome, Faithful, PowExempt, DenylistOpinion, BotOpinion;
  }

  /** What the fast path denies, the pipeline denies. */
  lemma ShedDenyIsDeny(w: World)
    requires Coherent(w) && Shed(w).0 == ShedDeny
    ensures Decide(w).action == Deny
  {
    AfterBot(w);
    var env := Classified(w);
    MiddleStages(w, env);
    WafStage(w, env);
    if w.bot.Some? ==> w.cachedIdentity.Some? {
      ShedEnvFaithful(w);
      ShedLocalFromOracles(w, ShedEnv(w));
    }
    hide Outcome, Faithful, WafOpinion, WafVerdict, ShedLocal, PowExempt, PowToken, Classified;
  }

  /** No stage up to and including the WAF rules denies, but for the stored block. */
  predicate NothingDenies(w: World) {
    && !DenylistOpinion(w).Decided?
    && !BotOpinion(w, FRESH_ENV).0.Decided?
    && !IntelDenyOpinion(w).Decided? && !HoneypotOpinion(w).Decided?
    && (WafVerdict(w).Decided? ==> WafVerdict(w).decision.action != Deny)
  }

  /** A block the fast path cannot see: it is in the store, and there is no mirror to
      ask, or none that represents the address. */
  predicate StoredBlock(w: World) {
    (w.mirror.None? || !w.parseable) && w.store.Block? && w.store.reason.Some?
  }

  lemma PassedEverything(w: World)
    requires Coherent(w) && Shed(w).0 == ShedPass
    ensures NothingDenies(w) && (BlockOpinion(w).Decided? <==> StoredBlock(w))
    ensures WafVerdict(w).Decided? ==> WafVerdict(w).decision.action == Allow
    ensures !WafVerdict(w).Decided? ==> w.pow && w.powEnabled && w.token == TokenValid
  {
    ShedEnvFaithful(w);
    ShedLocalFromOracles(w, ShedEnv(w));
    hide Faithful, WafVerdict, ShedLocal, WafOpinion;
  }

  /** What the fast path admits no stage up to the WAF rules denies, and the pipeline
      admits it too, but for two cases: a stored block that no mirror shows, and a
      request that is exempt from proof of work, which its token does not vouch
      for, so that the anomaly stage may still deny it. */
  lemma ShedPassIsAllow(w: World)
    requires Coherent(w) && Shed(w).0 == ShedPass
    ensures NothingDenies(w)
    ensures Decide(w).action ==
      if StoredBlock(w) || (!WafVerdict(w).Decided? && IsExempt(w) && AnomalyDenies(w)) then Deny else Allow
  {
    PassedEverything(w);
    AfterBot(w);
    var env := Classified(w);
    MiddleStages(w, env);
    WafStage(w, env);
    WafFromOracles(w, env);
    if !WafVerdict(w).Decided? { TokenStage(w, WafOpinion(w, env).1); }
    hide Outcome, Faithful, WafOpinion, WafVerdict, PowExempt, PowToken, Classified, Shed;
  }

  /** With a mirror attached and a parseable address, as the daemon always has, what
      is passed and is not exempt the pipeline allows. */
  lemma AttachedPassIsAllow(w: World)
    requires Coherent(w) && w.mirror.Some? && w.parseable && Shed(w).0 == ShedPass
    ensures Decide(w).action == if !WafVerdict(w).Decided? && IsExempt(w) && AnomalyDenies(w) then Deny else Allow
    ensures !IsExempt(w) ==> Decide(w).action == Allow
  {
    ShedPassIsAllow(w);
  }
}
