/** Who is denied, challenged and allowed, in terms of the oracles alone: no stages, no
    memos, no order of asking. */
module PipelineVerdict {
  import opened Options
  import opened Pipeline
  import opened Shedding

  predicate PowOn(w: World) { w.pow && w.powEnabled }

  predicate Listed(w: World) { w.parseable && w.denylist.Some? }

  predicate Spoofs(w: World) {
    w.bot.Some? && !w.spoofContinues && w.identity.status != LookupError && !(w.identity.status == Confirmed && w.identity.matchesDomains)
  }

  predicate FeedDenies(w: World) { w.intel && w.parseable && w.reputation && w.feedDeny.Some? }

  predicate GeoDenies(w: World) { w.intel && w.parseable && w.geo && w.geoAction == Some(Deny) }

  predicate MirrorBlocks(w: World) { w.mirror.Some? && w.mirror.value.hit.Some? }

  /** The store is asked only when no mirror answers for it. */
  predicate StoreBlocks(w: World) {
    w.store.Block? && w.store.reason.Some? && (w.mirror.None? || w.mirror.value.readThrough || !w.parseable)
  }

  /** The first WAF rule that applies. */
  function TheRule(w: World): Option<Rule> { if w.rules.None? then None else FirstMatch(w.rules.value, IsExempt(w)) }

  predicate RuleIs(w: World, action: RuleAction) { TheRule(w).Some? && TheRule(w).value.action == action }

  predicate FeedChallenges(w: World) { w.intel && w.parseable && w.reputation && w.feedChallenge.Some? }

  predicate GeoChallenges(w: World) { w.intel && w.parseable && w.geo && w.geoAction == Some(Challenge) }

  predicate ScoreDenies(w: World) { w.anomaly.Some? && !w.anomaly.value.observeOnly && w.anomaly.value.atDeny }

  predicate ScoreChallenges(w: World) { w.anomaly.Some? && !w.anomaly.value.observeOnly && w.anomaly.value.atChallenge }

  /** Only suspicious requests are challenged. */
  predicate OnSuspicion(w: World) { w.suspicion && w.anomalyEnabled && !w.forceAlways }

  /** The first cause that holds decides. */
  function FirstCause(w: World): Decision {
    if Listed(w) then Decision(Deny, w.denylist.value)
    else if Spoofs(w) then Decision(Deny, "bot_spoof:" + w.bot.value)
    else if FeedDenies(w) then Decision(Deny, "reputation:" + w.feedDeny.value)
    else if GeoDenies(w) then Decision(Deny, w.geoReason)
    else if MirrorBlocks(w) then Decision(Deny, "behaviour_block:" + w.mirror.value.hit.value)
    else if StoreBlocks(w) then Decision(Deny, "behaviour_block:" + w.store.reason.value)
    else if w.honeypot.Some? then Decision(Deny, w.honeypot.value)
    else PastDenials(w)
  }

  /** For a request that no list, feed, block or trap denies. */
  function PastDenials(w: World): Decision {
    if RuleIs(w, AllowRule) then Decision(Allow, "waf:" + TheRule(w).value.id)
    else if RuleIs(w, DenyRule) || RuleIs(w, BlockRule) || (RuleIs(w, ChallengeRule) && !PowOn(w)) then Decision(Deny, "waf:" + TheRule(w).value.id)
    else if RuleIs(w, ChallengeRule) && w.token != TokenValid then Decision(Challenge, "waf:" + TheRule(w).value.id)
    else if PowOn(w) && w.token == TokenValid && (RuleIs(w, ChallengeRule) || !IsExempt(w)) then Decision(Allow, "pow:token")
    else AfterToken(w)
  }

  /** For a request that no earlier cause decides and no token vouches for. */
  function AfterToken(w: World): Decision {
    var asks := PowOn(w) && !IsExempt(w);
    if asks && FeedChallenges(w) then Decision(Challenge, "reputation:" + w.feedChallenge.value)
    else if asks && GeoChallenges(w) then Decision(Challenge, w.geoReason)
    else if ScoreDenies(w) then Decision(Deny, "anomaly:deny")
    else if asks && ScoreChallenges(w) then Decision(Challenge, "anomaly:challenge")
    else if asks && !OnSuspicion(w) then Decision(Challenge, TokenReason(w.token))
    else Decision(Allow, "default")
  }

  lemma LastStages(w: World, env: Env)
    requires Faithful(w, env, true) && (IsExempt(w) || !PowOn(w) || w.token != TokenValid)
    ensures Outcome(w, 8, env).0 == AfterToken(w)
  {
    ExemptionIsOrderFree(w, env);
    var e1 := PowExempt(w, env).1;
    TokenMemo(w, e1);
    var e2 := if IsExempt(w) then e1 else PowToken(w, e1).1;
    assert Outcome(w, 8, env) == Outcome(w, 9, e2);
    ExemptionIsOrderFree(w, e2);
    ChallengeStages(w, e2);
  }

  lemma ChallengeStages(w: World, env: Env)
    requires Faithful(w, env, true)
    ensures Outcome(w, 9, env).0 == AfterToken(w)
  {
    hide IsExempt, TokenReason, Faithful, Outcome;
    IntelStage(w, env);
    ScoreStage(w, IntelChallengeOpinion(w, env).1);
    LastStage(w, AnomalyOpinion(w, IntelChallengeOpinion(w, env).1).1);
    hide IntelChallengeOpinion, AnomalyOpinion;
  }

  lemma IntelStage(w: World, env: Env)
    requires Faithful(w, env, true)
    ensures var e1, asks := IntelChallengeOpinion(w, env).1, PowOn(w) && !IsExempt(w);
            && Faithful(w, e1, true)
            && (asks && FeedChallenges(w) ==> Outcome(w, 9, env).0 == Decision(Challenge, "reputation:" + w.feedChallenge.value))
            && (asks && !FeedChallenges(w) && GeoChallenges(w) ==> Outcome(w, 9, env).0 == Decision(Challenge, w.geoReason))
            && (!(asks && (FeedChallenges(w) || GeoChallenges(w))) ==> Outcome(w, 9, env) == Outcome(w, 10, e1))
  {
    hide IsExempt, PowExempt, Faithful;
    ExemptionIsOrderFree(w, env);
  }

  lemma ScoreStage(w: World, env: Env)
    requires Faithful(w, env, true)
    ensures var e1, asks := AnomalyOpinion(w, env).1, PowOn(w) && !IsExempt(w);
            && Faithful(w, e1, true)
            && (ScoreDenies(w) ==> Outcome(w, 10, env).0 == Decision(Deny, "anomaly:deny"))
            && (!ScoreDenies(w) && asks && ScoreChallenges(w) ==> Outcome(w, 10, env).0 == Decision(Challenge, "anomaly:challenge"))
            && (!ScoreDenies(w) && !(asks && ScoreChallenges(w)) ==> Outcome(w, 10, env) == Outcome(w, 11, e1))
  {
    hide IsExempt, PowExempt, Faithful;
    ExemptionIsOrderFree(w, env);
  }

  lemma LastStage(w: World, env: Env)
    requires Faithful(w, env, true)
    ensures Outcome(w, 11, env).0 ==
      if PowOn(w) && !IsExempt(w) && !OnSuspicion(w) then Decision(Challenge, TokenReason(w.token)) else Decision(Allow, "default")
  {
    hide IsExempt, PowExempt, PowToken, Faithful, TokenReason;
    ExemptionIsOrderFree(w, env);
    TokenMemo(w, PowExempt(w, env).1);
  }

  lemma FromWaf(w: World, env: Env)
    requires Faithful(w, env, true)
    ensures Outcome(w, 7, env).0 == PastDenials(w)
  {
    WafStage(w, env);
    WafFromOracles(w, env);
    var e1 := WafOpinion(w, env).1;
    hide Outcome, Faithful, WafOpinion, FirstMatch, IsExempt, AfterToken;
    if IsExempt(w) || !PowOn(w) || w.token != TokenValid { LastStages(w, e1); } else { VouchedStage(w, e1); }
  }

  lemma VouchedStage(w: World, env: Env)
    requires Faithful(w, env, true) && !IsExempt(w) && PowOn(w) && w.token == TokenValid
    ensures Outcome(w, 8, env).0 == Decision(Allow, "pow:token")
  {
    hide IsExempt, PowExempt, PowToken, Faithful;
    ExemptionIsOrderFree(w, env);
    TokenMemo(w, PowExempt(w, env).1);
  }

  /** The pipeline decides by the first cause. */
  lemma PipelineIsFirstCause(w: World)
    ensures Outcome(w, 0, FRESH_ENV).0 == FirstCause(w)
  {
    hide Outcome, Faithful, Classified, PastDenials;
    AfterBot(w);
    MiddleStages(w, Classified(w));
    FromWaf(w, Classified(w));
  }

  // ---------- what that means for a request ----------

  /** A list, feed, block or trap denies the request before the WAF rules. */
  predicate DeniedOutright(w: World) {
    Listed(w) || Spoofs(w) || FeedDenies(w) || GeoDenies(w) || MirrorBlocks(w) || StoreBlocks(w) || w.honeypot.Some?
  }

  /** Exactly who is denied. A token saves from the score and from challenge rules only. */
  lemma DeniedExactly(w: World)
    ensures Decide(w).action == Deny <==>
      || DeniedOutright(w)
      || RuleIs(w, DenyRule) || RuleIs(w, BlockRule) || (RuleIs(w, ChallengeRule) && !PowOn(w))
      || (ScoreDenies(w) && !RuleIs(w, AllowRule) && !RuleIs(w, ChallengeRule)
          && !(PowOn(w) && !IsExempt(w) && (w.token == TokenValid || FeedChallenges(w) || GeoChallenges(w))))
  {
    hide TheRule, IsExempt, TokenReason, Outcome;
    PipelineIsFirstCause(w);
  }

  /** With proof of work on, whoever is let through is exempt, carries a valid token, is
      allowed by a rule, or comes to a domain that challenges on suspicion only. */
  lemma AllowNeedsProof(w: World)
    requires PowOn(w) && Decide(w).action == Allow
    ensures IsExempt(w) || w.token == TokenValid || RuleIs(w, AllowRule) || OnSuspicion(w)
    ensures !DeniedOutright(w)
  {
    hide TheRule, IsExempt, TokenReason, Outcome;
    PipelineIsFirstCause(w);
  }

  /** A request that nothing earlier decides, that is not exempt and has no valid token is
      challenged for its token, or refused when it cannot take a challenge. */
  lemma ChallengedForToken(w: World)
    requires PowOn(w) && !IsExempt(w) && w.token != TokenValid && !OnSuspicion(w) && !DeniedOutright(w)
    requires TheRule(w).None? || TheRule(w).value.action == UnsupportedRule
    requires !FeedChallenges(w) && !GeoChallenges(w) && !ScoreDenies(w) && !ScoreChallenges(w)
    ensures w.unchallengeable ==> Decide(w) == Decision(Refuse, "pow:unchallengeable")
    ensures !w.unchallengeable ==> Decide(w).action == Challenge
    ensures !w.unchallengeable && w.token == TokenAbsent ==> Decide(w).reason == "pow:no_token"
    ensures !w.unchallengeable && w.token == TokenInvalid ==> Decide(w).reason == "pow:token_invalid"
    ensures !w.unchallengeable && w.token == TokenExpired ==> Decide(w).reason == "pow:token_expired"
    ensures !w.unchallengeable && w.token == TokenBinding ==> Decide(w).reason == "pow:token_binding"
    ensures !w.unchallengeable && w.token == TokenUnderDifficulty ==> Decide(w).reason == "pow:token_underdifficulty"
  {
    hide TheRule, IsExempt, Outcome;
    PipelineIsFirstCause(w);
  }

  /** Nobody is challenged without proof of work, or when exempt; and a challenge is a
      refusal exactly for a client that cannot take one. */
  lemma NeverChallenged(w: World)
    ensures !PowOn(w) || IsExempt(w) || w.token == TokenValid ==> Decide(w).action in {Allow, Deny}
    ensures Decide(w).action == Challenge ==> !w.unchallengeable
    ensures Decide(w).action == Refuse ==> w.unchallengeable
  {
    hide IsExempt, TokenReason, Outcome;
    PipelineIsFirstCause(w);
    if w.rules.Some? { FirstMatchIsFirst(w.rules.value, IsExempt(w)); }
    hide FirstMatch;
  }

  // ---------- the same for the overload path ----------

  /** The overload path cannot tell without a store or a lookup. */
  predicate OutOfReach(w: World) {
    (w.mirror.Some? && w.mirror.value.readThrough) || (w.bot.Some? && (w.cachedIdentity.None? || w.identity.status == LookupError))
  }

  /** Exactly who is denied, passed and turned away under overload. */
  lemma ShedExactly(w: World)
    requires Coherent(w)
    ensures Shed(w).0 ==
      if Listed(w) || MirrorBlocks(w) then ShedDeny
      else if OutOfReach(w) then ShedReject
      else if Spoofs(w) || FeedDenies(w) || GeoDenies(w) || w.honeypot.Some? then ShedDeny
      else if RuleIs(w, DenyRule) || RuleIs(w, BlockRule) || (RuleIs(w, ChallengeRule) && !PowOn(w)) then ShedDeny
      else if RuleIs(w, AllowRule) || (PowOn(w) && w.token == TokenValid) then ShedPass
      else ShedReject
  {
    hide Faithful, ShedLocal, RuleIs, IsExempt, FeedDenies, GeoDenies;
    if w.bot.Some? ==> w.cachedIdentity.Some? {
      ShedEnvFaithful(w);
      LocalExactly(w, ShedEnv(w));
    }
  }

  lemma LocalExactly(w: World, env: Env)
    requires Faithful(w, env, true)
    ensures ShedLocal(w, env).0 ==
      if FeedDenies(w) || GeoDenies(w) || w.honeypot.Some? then ShedDeny
      else if RuleIs(w, DenyRule) || RuleIs(w, BlockRule) || (RuleIs(w, ChallengeRule) && !PowOn(w)) then ShedDeny
      else if RuleIs(w, AllowRule) || (PowOn(w) && w.token == TokenValid) then ShedPass
      else ShedReject
  {
    hide Faithful, ShedLocal, FirstMatch, IsExempt;
    ShedLocalFromOracles(w, env);
  }

  /** And what they are told. */
  lemma ShedReasons(w: World)
    ensures Listed(w) ==> Shed(w) == (ShedDeny, w.denylist.value)
    ensures !Listed(w) && MirrorBlocks(w) ==> Shed(w) == (ShedDeny, "behaviour_block:" + w.mirror.value.hit.value)
    ensures Shed(w).0 == ShedReject ==> Shed(w).1 == "admission:max_inflight"
    ensures Shed(w).0 == ShedPass ==> Shed(w).1 == "pow:token" || (w.rules.Some? && exists r | r in w.rules.value :: Shed(w).1 == "waf:" + r.id)
  {
    hide IsExempt, PowExempt, PowToken;
    if w.rules.Some? {
      FirstMatchIsFirst(w.rules.value, true);
      FirstMatchIsFirst(w.rules.value, false);
    }
    hide FirstMatch;
  }
}
