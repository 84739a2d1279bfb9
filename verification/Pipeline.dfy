/** The ordered decision pipeline for one request, with everything outside it
    (lists, feeds, rules, bot identity, token, anomaly score, store) as oracles
    that answer the same whenever they are asked. */
module Pipeline {
  import opened Options

  datatype Action = Allow | Challenge | Deny | Refuse

  datatype Decision = Decision(action: Action, reason: string)

  /** A stage has no opinion, decides, or fails (and is skipped). */
  datatype Opinion = NoOpinion | Decided(decision: Decision) | Failed

  datatype RuleAction = AllowRule | ChallengeRule | DenyRule | BlockRule | UnsupportedRule

  /** A WAF rule and whether it matches this request. */
  datatype Rule = Rule(id: string, action: RuleAction, matches: bool)

  datatype IdentityStatus = Confirmed | Unconfirmed | LookupError

  datatype Identity = Identity(status: IdentityStatus, matchesDomains: bool)

  datatype Token = TokenValid | TokenAbsent | TokenInvalid | TokenExpired | TokenBinding | TokenUnderDifficulty

  datatype StoreReply = StoreError | Block(reason: Option<string>)

  /** The request as its oracles see it. `mirror` is None without an enforcement
      mirror, otherwise what it holds and whether a miss must ask the store. */
  datatype World = World(
    parseable: bool,
    allowlist: string,
    denylist: Option<string>,
    headerConfigured: bool, headerMatches: bool,
    bot: Option<string>, identity: Identity, cachedIdentity: Option<Identity>, spoofContinues: bool,
    intel: bool, reputation: bool, feedDeny: Option<string>, feedChallenge: Option<string>,
    geo: bool, geoAction: Option<Action>, geoReason: string,
    mirror: Option<MirrorView>, store: StoreReply,
    honeypot: Option<string>,
    rules: Option<seq<Rule>>,
    pow: bool, powEnabled: bool, token: Token,
    anomaly: Option<Score>, anomalyEnabled: bool, suspicion: bool, forceAlways: bool,
    unchallengeable: bool)

  datatype MirrorView = MirrorView(hit: Option<string>, readThrough: bool)

  /** A trained baseline's verdict: past the deny or the challenge threshold. */
  datatype Score = Score(observeOnly: bool, atDeny: bool, atChallenge: bool)

  /** Request-local state: the exemption, and the memos of the header and token checks. */
  datatype Env = Env(exemption: string, header: Option<bool>, token: Option<Token>)

  const FRESH_ENV := Env("", None, None)

  // ---------- memoised checks ----------

  function HeaderExempt(w: World, env: Env): (bool, Env) {
    if env.header.Some? then (env.header.value, env)
    else if !w.powEnabled || !w.headerConfigured || !w.headerMatches then (false, env.(header := Some(false)))
    else (true, env.(header := Some(true), exemption := "header_exemption"))
  }

  function PowExempt(w: World, env: Env): (bool, Env) {
    if env.exemption != "" then (true, env) else HeaderExempt(w, env)
  }

  function PowToken(w: World, env: Env): (Token, Env) {
    if env.token.Some? then (env.token.value, env)
    else
      var t := if !w.pow || !w.powEnabled then TokenAbsent else w.token;
      (t, env.(token := Some(t)))
  }

  datatype BotOutcome = Verified | Unknown | Spoof

  function ClassifyBot(bot: string, id: Identity, env: Env): (BotOutcome, Env) {
    if id.status == Confirmed && id.matchesDomains then
      (Verified, if env.exemption == "" || env.exemption == "header_exemption" then env.(exemption := "verified_bot:" + bot) else env)
    else if id.status == LookupError then (Unknown, env)
    else (Spoof, env)
  }

  // ---------- stages ----------

  datatype Stage =
    | Allowlist | HeaderExemption | Denylist | VerifiedBot | IntelDeny | BehaviourBlock
    | Honeypot | WafRules | PowTokenStage | IntelChallenge | Anomaly | PowChallenge

  const STAGES: seq<Stage> := [
    Allowlist, HeaderExemption, Denylist, VerifiedBot, IntelDeny, BehaviourBlock,
    Honeypot, WafRules, PowTokenStage, IntelChallenge, Anomaly, PowChallenge]

  function DenylistOpinion(w: World): Opinion {
    if !w.parseable then Failed
    else if w.denylist.Some? then Decided(Decision(Deny, w.denylist.value)) else NoOpinion
  }

  function BotOpinion(w: World, env: Env): (Opinion, Env) {
    if w.bot.None? then (NoOpinion, env)
    else
      var (outcome, next) := ClassifyBot(w.bot.value, w.identity, env);
      if outcome == Spoof && !w.spoofContinues then (Decided(Decision(Deny, "bot_spoof:" + w.bot.value)), next) else (NoOpinion, next)
  }

  function IntelDenyOpinion(w: World): Opinion {
    if !w.intel || !w.parseable then NoOpinion
    else if w.reputation && w.feedDeny.Some? then Decided(Decision(Deny, "reputation:" + w.feedDeny.value))
    else if w.geo && w.geoAction == Some(Deny) then Decided(Decision(Deny, w.geoReason))
    else NoOpinion
  }

  function BlockOpinion(w: World): Opinion {
    if w.mirror.Some? && w.mirror.value.hit.Some? then Decided(Decision(Deny, "behaviour_block:" + w.mirror.value.hit.value))
    else if w.mirror.Some? && !w.mirror.value.readThrough && w.parseable then NoOpinion
    else match w.store
      case StoreError => Failed
      case Block(None) => NoOpinion
      case Block(Some(reason)) => Decided(Decision(Deny, "behaviour_block:" + reason))
  }

  function HoneypotOpinion(w: World): Opinion {
    if w.honeypot.Some? then Decided(Decision(Deny, w.honeypot.value)) else NoOpinion
  }

  /** The first rule that matches; an exempt request skips challenge rules. */
  function FirstMatch(rules: seq<Rule>, exempt: bool): Option<Rule> {
    if rules == [] then None
    else if !(exempt && rules[0].action == ChallengeRule) && rules[0].matches then Some(rules[0])
    else FirstMatch(rules[1..], exempt)
  }

  /** The rule applies to a request that is exempt or not. */
  predicate Applies(rule: Rule, exempt: bool) { rule.matches && !(exempt && rule.action == ChallengeRule) }

  lemma {:induction false} FirstMatchIsFirst(rules: seq<Rule>, exempt: bool)
    ensures FirstMatch(rules, exempt).None? <==> forall i :: 0 <= i < |rules| ==> !Applies(rules[i], exempt)
    ensures FirstMatch(rules, exempt).Some? ==> exists i ::
      && 0 <= i < |rules| && FirstMatch(rules, exempt).value == rules[i] && Applies(rules[i], exempt)
      && forall j :: 0 <= j < i ==> !Applies(rules[j], exempt)
  {
    if rules != [] && !Applies(rules[0], exempt) {
      var rest := rules[1..];
      FirstMatchIsFirst(rest, exempt);
      if FirstMatch(rest, exempt).Some? {
        var i :| 0 <= i < |rest| && FirstMatch(rest, exempt).value == rest[i] && Applies(rest[i], exempt) && forall j :: 0 <= j < i ==> !Applies(rest[j], exempt);
        assert rules[i + 1] == rest[i];
        assert forall j :: 0 < j < i + 1 ==> rules[j] == rest[j - 1];
      } else {
        assert forall i :: 0 < i < |rules| ==> rules[i] == rest[i - 1];
      }
    }
  }

  method MatchEnforcing(rules: seq<Rule>, exempt: bool) returns (r: Option<Rule>)
    ensures r == FirstMatch(rules, exempt)
    ensures r.None? <==> forall i :: 0 <= i < |rules| ==> !Applies(rules[i], exempt)
    ensures r.Some? ==> exists i ::
      0 <= i < |rules| && r.value == rules[i] && Applies(rules[i], exempt) && forall j :: 0 <= j < i ==> !Applies(rules[j], exempt)
  {
    FirstMatchIsFirst(rules, exempt);
    var i := 0;
    while i < |rules|
      invariant 0 <= i <= |rules| && FirstMatch(rules, exempt) == FirstMatch(rules[i..], exempt)
    {
      if exempt && rules[i].action == ChallengeRule { i := i + 1; continue; }
      if rules[i].matches { return Some(rules[i]); }
      i := i + 1;
    }
    return None;
  }

  function WafOpinion(w: World, env: Env): (Opinion, Env) {
    if w.rules.None? then (NoOpinion, env)
    else
      var (exempt, next) := PowExempt(w, env);
      var rule := FirstMatch(w.rules.value, exempt);
      if rule.None? then (NoOpinion, next)
      else
        var reason := "waf:" + rule.value.id;
        match rule.value.action
        case AllowRule => (Decided(Decision(Allow, reason)), next)
        case ChallengeRule =>
          if w.pow && w.powEnabled then
            var (token, last) := PowToken(w, next);
            (Decided(if token == TokenValid then Decision(Allow, "pow:token") else Decision(Challenge, reason)), last)
          else (Decided(Decision(Deny, reason)), next)
        case DenyRule => (Decided(Decision(Deny, reason)), next)
        case BlockRule => (Decided(Decision(Deny, reason)), next)
        case UnsupportedRule => (Failed, next)
  }

  function TokenOpinion(w: World, env: Env): (Opinion, Env) {
    var (exempt, next) := PowExempt(w, env);
    if exempt then (NoOpinion, next)
    else
      var (token, last) := PowToken(w, next);
      (if token == TokenValid then Decided(Decision(Allow, "pow:token")) else NoOpinion, last)
  }

  function IntelChallengeOpinion(w: World, env: Env): (Opinion, Env) {
    if !w.intel || !w.pow || !w.powEnabled then (NoOpinion, env)
    else
      var (exempt, next) := PowExempt(w, env);
      if exempt || !w.parseable then (NoOpinion, next)
      else if w.reputation && w.feedChallenge.Some? then (Decided(Decision(Challenge, "reputation:" + w.feedChallenge.value)), next)
      else if w.geo && w.geoAction == Some(Challenge) then (Decided(Decision(Challenge, w.geoReason)), next)
      else (NoOpinion, next)
  }

  predicate AnomalyDenies(w: World) { w.anomaly.Some? && !w.anomaly.value.observeOnly && w.anomaly.value.atDeny }

  function AnomalyOpinion(w: World, env: Env): (Opinion, Env) {
    if w.anomaly.None? || w.anomaly.value.observeOnly then (NoOpinion, env)
    else if w.anomaly.value.atDeny then (Decided(Decision(Deny, "anomaly:deny")), env)
    else if w.anomaly.value.atChallenge && w.pow && w.powEnabled then
      var (exempt, next) := PowExempt(w, env);
      (if exempt then NoOpinion else Decided(Decision(Challenge, "anomaly:challenge")), next)
    else (NoOpinion, env)
  }

  function TokenReason(t: Token): string {
    match t
    case TokenInvalid => "pow:token_invalid"
    case TokenExpired => "pow:token_expired"
    case TokenBinding => "pow:token_binding"
    case TokenUnderDifficulty => "pow:token_underdifficulty"
    case _ => "pow:no_token"
  }

  function PowChallengeOpinion(w: World, env: Env): (Opinion, Env) {
    if !w.pow || !w.powEnabled then (NoOpinion, env)
    else
      var (exempt, next) := PowExempt(w, env);
      if exempt || (w.suspicion && w.anomalyEnabled && !w.forceAlways) then (NoOpinion, next)
      else
        var (token, last) := PowToken(w, next);
        (Decided(Decision(Challenge, TokenReason(token))), last)
  }

  function Opine(w: World, st: Stage, env: Env): (Opinion, Env) {
    match st
    case Allowlist => (NoOpinion, env.(exemption := w.allowlist))
    case HeaderExemption => (NoOpinion, PowExempt(w, env).1)
    case Denylist => (DenylistOpinion(w), env)
    case VerifiedBot => BotOpinion(w, env)
    case IntelDeny => (IntelDenyOpinion(w), env)
    case BehaviourBlock => (BlockOpinion(w), env)
    case Honeypot => (HoneypotOpinion(w), env)
    case WafRules => WafOpinion(w, env)
    case PowTokenStage => TokenOpinion(w, env)
    case IntelChallenge => IntelChallengeOpinion(w, env)
    case Anomaly => AnomalyOpinion(w, env)
    case PowChallenge => PowChallengeOpinion(w, env)
  }

  // ---------- the whole pipeline ----------

  /** The first decision of the stages from `i` on, and the state it leaves. */
  function Outcome(w: World, i: nat, env: Env): (Decision, Env)
    requires i <= |STAGES|
    decreases |STAGES| - i
  {
    if i == |STAGES| then (Decision(Allow, "default"), env)
    else
      var (o, next) := Opine(w, STAGES[i], env);
      if o.Decided? then (o.decision, next) else Outcome(w, i + 1, next)
  }

  /** A challenge for a client that cannot complete one is a refusal. */
  function Final(w: World, d: Decision): Decision {
    if d.action == Challenge && w.unchallengeable then
      Decision(Refuse, if "pow:" <= d.reason then "pow:unchallengeable" else d.reason)
    else d
  }

  function Decide(w: World): Decision { Final(w, Outcome(w, 0, FRESH_ENV).0) }

  method Evaluate(w: World) returns (d: Decision)
    ensures d == Decide(w)
  {
    var env := FRESH_ENV;
    d := Decision(Allow, "default");
    var i := 0;
    while i < |STAGES|
      invariant 0 <= i <= |STAGES| && d == Decision(Allow, "default")
      invariant Outcome(w, 0, FRESH_ENV) == Outcome(w, i, env)
    {
      var (o, next) := Opine(w, STAGES[i], env);
      env := next;
      if o.Decided? {
        d := o.decision;
        break;
      }
      i := i + 1;
    }
    if d.action == Challenge && w.unchallengeable {
      d := Decision(Refuse, if "pow:" <= d.reason then "pow:unchallengeable" else d.reason);
    }
  }

  // ---------- what is exempt ----------

  /** The exemption in terms of the oracles alone. */
  predicate IsExempt(w: World) {
    || w.allowlist != ""
    || (w.powEnabled && w.headerConfigured && w.headerMatches)
    || (w.bot.Some? && w.identity.status == Confirmed && w.identity.matchesDomains)
  }

  /** A state in which the memos agree with the oracles and the exemption, as far
      as it has been looked into, with `IsExempt`. */
  predicate Faithful(w: World, env: Env, botSeen: bool) {
    && (env.token.Some? ==> env.token.value == if !w.pow || !w.powEnabled then TokenAbsent else w.token)
    && (env.header.Some? ==> env.header.value == (w.powEnabled && w.headerConfigured && w.headerMatches))
    && (env.header == Some(true) ==> env.exemption != "")
    && (env.exemption != "" ==> IsExempt(w))
    && (w.allowlist != "" ==> env.exemption != "")
    && (botSeen && w.bot.Some? && w.identity.status == Confirmed && w.identity.matchesDomains ==> env.exemption != "")
  }

  /** However the classifications were ordered, asking for the exemption once the
      bot was looked at gives the same answer and keeps the memos right. */
  lemma ExemptionIsOrderFree(w: World, env: Env)
    requires Faithful(w, env, true)
    ensures PowExempt(w, env).0 == IsExempt(w) && Faithful(w, PowExempt(w, env).1, true)
  {
  }

  lemma TokenMemo(w: World, env: Env)
    requires Faithful(w, env, true)
    ensures PowToken(w, env).0 == (if !w.pow || !w.powEnabled then TokenAbsent else w.token) && Faithful(w, PowToken(w, env).1, true)
  {
  }

  /** The WAF stage as a function of the oracles. */
  function WafVerdict(w: World): Opinion {
    if w.rules.None? then NoOpinion
    else
      var rule := FirstMatch(w.rules.value, IsExempt(w));
      if rule.None? then NoOpinion
      else
        var reason := "waf:" + rule.value.id;
        match rule.value.action
        case AllowRule => Decided(Decision(Allow, reason))
        case ChallengeRule =>
          if w.pow && w.powEnabled then
            Decided(if w.token == TokenValid then Decision(Allow, "pow:token") else Decision(Challenge, reason))
          else Decided(Decision(Deny, reason))
        case DenyRule => Decided(Decision(Deny, reason))
        case BlockRule => Decided(Decision(Deny, reason))
        case UnsupportedRule => Failed
  }

  lemma WafFromOracles(w: World, env: Env)
    requires Faithful(w, env, true)
    ensures WafOpinion(w, env).0 == WafVerdict(w) && Faithful(w, WafOpinion(w, env).1, true)
  {
    ExemptionIsOrderFree(w, env);
    TokenMemo(w, PowExempt(w, env).1);
    hide Faithful, FirstMatch, IsExempt;
  }

  /** The state when the WAF stage is reached. */
  function Classified(w: World): Env {
    BotOpinion(w, PowExempt(w, FRESH_ENV.(exemption := w.allowlist)).1).1
  }

  lemma ClassifiedFaithful(w: World)
    ensures Faithful(w, Classified(w), true)
  {
  }
}
