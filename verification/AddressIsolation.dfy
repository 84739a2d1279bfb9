/** Over the whole unblock protocol: no event about one address touches a record of
    another, so nobody is blocked, unblocked or counted for somebody else. */
module AddressIsolation {
  import opened Options
  import opened TtlStore
  import opened BlockCommits
  import opened Scoreboard
  import opened AddressRecords
  import opened UnblockProtocol

  /** The address an event is about. */
  function About(s: Sys, e: Event): Option<IP>
    requires Enabled(s, e)
  {
    match e
    case Tick(_) => None
    case AdmitBlock(_, ip) => Some(ip)
    case ReadBlock(w) => Some(s.writers[w].ip)
    case PlaceBlock(w, _, _, _) => Some(s.writers[w].ip)
    case AdmitScore(_, ip, _, _) => Some(ip)
    case Score(w, _, _) => Some(s.writers[w].ip)
    case AdmitCrossed(w) => Some(s.writers[w].ip)
    case SetHold(ip) => Some(ip)
    case SetGeneration(ip, _) => Some(ip)
    case FinishUnblock(ip, _, _) => Some(ip)
    case ResetBackoff(ip) => Some(ip)
    case ResetCounter(ip, _, _, _) => Some(ip)
    case AdminBlock(ip, _, _) => Some(ip)
    case AdminUnblock(ip) => Some(ip)
  }

  /** The counter the event writes, if it writes one. */
  function Counter(s: Sys, e: Event): (string, string, int)
    requires Enabled(s, e)
  {
    match e
    case Score(w, _, _) => (s.writers[w].evtype, s.writers[w].token, s.writers[w].bucket)
    case ResetCounter(_, evtype, generation, bucket) => (evtype, generation, bucket)
    case _ => ("", "", 0)
  }

  lemma OnlyOwn(s: Sys, e: Event, ip: IP)
    requires Enabled(s, e) && !e.Tick? && About(s, e) == Some(ip)
    ensures var (evtype, generation, bucket) := Counter(s, e);
            forall key | key !in {BlockKey(ip), BlockCountKey(ip), HoldKey(ip), GenKey(ip), EventKey(evtype, ip, generation, bucket)} ::
              SameAt(s.st, Apply(s, e).st, key)
  {
    hide EventKey, BlockKey, BlockCountKey, HoldKey, GenKey, BlockRefusal;
  }

  /** For event types without a colon, whatever commits for one address leaves block,
      offense count, hold, generation and event counters of every other as they were. */
  lemma OneAddressAtATime(s: Sys, e: Event, other: IP)
    requires Reachable(s) && Enabled(s, e) && !e.Tick? && About(s, e) != Some(other)
    requires ColonFree(Counter(s, e).0) && (e.ResetCounter? ==> ColonFree(e.generation))
    ensures SameRecords(s.st, Apply(s, e).st, other)
  {
    var ip := About(s, e).value;
    var (evtype, generation, bucket) := Counter(s, e);
    OnlyOwn(s, e, ip);
    CounterColonFree(s, e);
    hide EventKey, BlockKey, BlockCountKey, HoldKey, GenKey, Apply, SameRecords;
    assert KeyOf(EventKey(evtype, ip, generation, bucket), ip);
    OthersUntouched(s.st, Apply(s, e).st, ip, other);
  }

  lemma CounterColonFree(s: Sys, e: Event)
    requires Reachable(s) && Enabled(s, e) && (e.ResetCounter? ==> ColonFree(e.generation))
    ensures ColonFree(Counter(s, e).1)
  {
    ReachableInv(s);
    if e.Score? { assert WriterOk(s, s.writers[e.w]); }
  }
}
