/** The conditional mutations behind automatic blocks, behaviour events and
    unblocks. Each is one atomic operation on the live part of the store. */
module BlockCommits {
  import opened Options
  import opened TtlStore
  import Backoff

  datatype Refusal = HoldLive | GenerationMoved | BlockMoved

  datatype BlockResult = Refused(why: Refusal) | Committed(offenses: int, ttl: nat)

  datatype BlockCommit = BlockCommit(
    blockKey: string, expectedBlock: Option<Value>, newBlock: Value,
    baseTTL: int, maxTTL: int,
    counterKey: string, counterTTL: int,
    holdKey: string,
    guardKey: string, guardValue: Option<Value>)

  datatype EventCommit = EventCommit(counterKey: string, counterTTL: int, holdKey: string)

  datatype EventResult = EventFailed | EventResult(committed: bool, value: int)

  datatype UnblockCommit = UnblockCommit(
    holdKey: string, holdTTL: int,
    generationKey: string, generation: Value, generationTTL: int,
    blockKey: string, counterKey: string, resetBackoff: bool)

  /** A counter that does not parse, or is negative, counts as zero. */
  function CounterValue(v: Value): nat {
    if v.Number? && v.n >= 0 then v.n else 0
  }

  function Offenses(st: Store, counterKey: string): nat {
    if counterKey in st then CounterValue(st[counterKey].value) + 1 else 1
  }

  /** The comparison that stops the commit, in the order they are made. */
  function BlockRefusal(st: Store, c: BlockCommit): Option<Refusal> {
    if c.holdKey in st then Some(HoldLive)
    else if Lookup(st, c.guardKey) != c.guardValue then Some(GenerationMoved)
    else if Lookup(st, c.blockKey) != c.expectedBlock then Some(BlockMoved)
    else None
  }

  function CommitBlock(st: Store, c: BlockCommit, now: int): (Store, BlockResult) {
    match BlockRefusal(st, c)
    case Some(why) => (st, Refused(why))
    case None =>
      var offenses := Offenses(st, c.counterKey);
      var ttl := Backoff.Rung(c.baseTTL, c.maxTTL, offenses);
      var counterExpiry := if c.counterKey in st then st[c.counterKey].expires else Expiry(c.counterTTL, now);
      (st[c.counterKey := Entry(Number(offenses), counterExpiry)][c.blockKey := Entry(c.newBlock, Expiry(ttl, now))],
       Committed(offenses, ttl))
  }

  function CommitEvent(st: Store, c: EventCommit, now: int): (Store, EventResult) {
    if c.holdKey in st then (st, EventResult(false, 0))
    else
      var (st', r) := IncrByDeadline(st, c.counterKey, 1, Expiry(c.counterTTL, now), now);
      (st', if r.Incr? then EventResult(r.applied, r.value) else EventFailed)
  }

  function CommitUnblock(st: Store, c: UnblockCommit, now: int): Store {
    var held := st[c.holdKey := Entry(Text("1"), Expiry(c.holdTTL, now))]
                  [c.generationKey := Entry(c.generation, Expiry(c.generationTTL, now))];
    var lifted := Drop(held, c.blockKey);
    if c.resetBackoff then Drop(lifted, c.counterKey) else lifted
  }
}
