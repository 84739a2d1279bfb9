/** The scoreboard's records of one address, and that a commit for one address leaves
    those of every other as they were. */
module AddressRecords {
  import opened Options
  import opened TtlStore
  import opened BlockCommits
  import opened Scoreboard

  predicate SameAt(v: Store, v': Store, key: string) { (key in v <==> key in v') && (key in v ==> v'[key] == v[key]) }

  /** Block, offense count, hold, generation and every event counter of the address. */
  ghost predicate SameRecords(v: Store, v': Store, ip: IP) {
    && SameAt(v, v', BlockKey(ip)) && SameAt(v, v', BlockCountKey(ip)) && SameAt(v, v', HoldKey(ip)) && SameAt(v, v', GenKey(ip))
    && (forall evtype: string, generation: string, bucket: int | ColonFree(evtype) && ColonFree(generation) ::
          SameAt(v, v', EventKey(evtype, ip, generation, bucket)))
  }

  /** A key of the records of `ip`. */
  ghost predicate KeyOf(key: string, ip: IP) {
    || key in {BlockKey(ip), BlockCountKey(ip), HoldKey(ip), GenKey(ip)}
    || exists evtype: string, generation: string, bucket: int ::
         ColonFree(evtype) && ColonFree(generation) && key == EventKey(evtype, ip, generation, bucket)
  }

  /** No record belongs to two addresses. */
  lemma RecordsApart(key: string, ip: IP, other: IP)
    requires KeyOf(key, ip) && ip != other
    ensures !KeyOf(key, other)
  {
    hide EventKey, BlockKey, BlockCountKey, HoldKey, GenKey;
    if key in {BlockKey(ip), BlockCountKey(ip), HoldKey(ip), GenKey(ip)} { PlainKeysApart(ip, other); }
    else {
      PlainKeysApart(other, ip);
      var e1, g1, b1 :| ColonFree(e1) && ColonFree(g1) && key == EventKey(e1, ip, g1, b1);
      forall e2: string, g2: string, b2: int | ColonFree(e2) && ColonFree(g2) ensures EventKey(e2, other, g2, b2) != key {
        EventKeyInjective(e1, ip, g1, b1, e2, other, g2, b2);
      }
    }
  }

  lemma PlainKeysApart(ip: IP, other: IP)
    requires ip != other
    ensures {BlockKey(ip), BlockCountKey(ip), HoldKey(ip), GenKey(ip)} !! {BlockKey(other), BlockCountKey(other), HoldKey(other), GenKey(other)}
    ensures forall e: string, g: string, b: int :: EventKey(e, other, g, b) !in {BlockKey(ip), BlockCountKey(ip), HoldKey(ip), GenKey(ip)}
  {
    forall e: string, g: string, b: int ensures EventKey(e, other, g, b) !in {BlockKey(ip), BlockCountKey(ip), HoldKey(ip), GenKey(ip)} {
      GenKeyApart(ip, other, e, g, b);
      CountKeyApart(ip, other, e, g, b);
      BlockAndHoldKeysApart(ip, other, e, g, b);
      hide EventKey;
    }
    GenKeyApart(ip, other, "", "", 0);
    CountKeyApart(ip, other, "", "", 0);
    BlockAndHoldKeysApart(ip, other, "", "", 0);
    GenKeyApart(other, ip, "", "", 0);
    CountKeyApart(other, ip, "", "", 0);
    BlockAndHoldKeysApart(other, ip, "", "", 0);
    hide EventKey, BlockKey, BlockCountKey, HoldKey, GenKey;
  }

  /** Whatever changes records of one address only leaves every other address alone. */
  lemma OthersUntouched(v: Store, v': Store, ip: IP, other: IP)
    requires ip != other && forall key | !KeyOf(key, ip) :: SameAt(v, v', key)
    ensures SameRecords(v, v', other)
  {
    hide EventKey, BlockKey, BlockCountKey, HoldKey, GenKey;
    forall key | KeyOf(key, other) ensures SameAt(v, v', key) { RecordsApart(key, other, ip); }
    assert KeyOf(BlockKey(other), other) && KeyOf(BlockCountKey(other), other) && KeyOf(HoldKey(other), other) && KeyOf(GenKey(other), other);
    forall evtype: string, generation: string, bucket: int | ColonFree(evtype) && ColonFree(generation)
      ensures SameAt(v, v', EventKey(evtype, other, generation, bucket))
    {
      assert KeyOf(EventKey(evtype, other, generation, bucket), other);
    }
  }

  /** An event counts one in its own counter, from nothing or from what it held, and
      answers with that; under a hold it counts nowhere. */
  lemma EventCountsOne(v: Store, c: EventCommit, now: int)
    requires c.counterTTL > 0 && now >= 0 && (c.counterKey in v ==> v[c.counterKey].value.Number?)
    ensures var (v', e) := CommitEvent(v, c, now);
            && (c.holdKey in v ==> v' == v && e == EventResult(false, 0))
            && (c.holdKey !in v ==>
                  var n := if c.counterKey in v then v[c.counterKey].value.n + 1 else 1;
                  && e == EventResult(true, n) && c.counterKey in v' && v'[c.counterKey].value == Number(n))
            && (forall key | key != c.counterKey :: SameAt(v, v', key))
  {
    hide IncrByDeadline;
    IncrCounts(v, c.counterKey, 1, Expiry(c.counterTTL, now), now);
  }

  /** What an event decides depends on the records of its own address alone. */
  lemma SameDecision(v: Store, v': Store, ip: IP, evtype: string, generation: string, bucket: int, ttl: int, now: int)
    requires SameRecords(v, v', ip) && ColonFree(evtype) && ColonFree(generation)
    ensures var c := EventCommit(EventKey(evtype, ip, generation, bucket), ttl, HoldKey(ip));
            CommitEvent(v, c, now).1 == CommitEvent(v', c, now).1
  {
    hide EventKey, BlockKey, BlockCountKey, HoldKey, GenKey;
    assert SameAt(v, v', EventKey(evtype, ip, generation, bucket));
  }
}
