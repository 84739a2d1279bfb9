/** The behaviour scoreboard with operator unblocks: what an unblock guarantees.

    Block writers and event recorders read an address's unblock generation, do
    other work, and commit conditionally; unblocks rotate the generation. The
    events interleave any number of them over one shared store, with expiry. */
module UnblockProtocol {
  import opened Options
  import opened TtlStore
  import opened BlockCommits
  import opened Scoreboard
  import Backoff

  /** A request between its generation read and its commit. `epoch` is the number
      of unblocks of the address that had committed when the generation was read,
      `counted` that when the event behind the block was counted. */
  datatype Writer =
    | Scoring(ip: IP, token: string, admittedAt: int, epoch: nat, evtype: string, bucket: int)
    | Crossed(ip: IP, token: string, admittedAt: int, epoch: nat, counted: nat)   // reached the limit
    | Blocking(ip: IP, token: string, admittedAt: int, epoch: nat, counted: nat)
    | BlockReady(ip: IP, token: string, admittedAt: int, epoch: nat, counted: nat, prev: Option<Value>)

  /** `st` is the live store. The functions after `used` are history: what was
      rotated and committed last, and how many blocks the backoff counter owes. */
  datatype Sys = Sys(
    clock: int,
    st: Store,
    writers: map<nat, Writer>,
    used: set<string>,
    unblocks: IP -> nat,
    lastToken: IP -> string,
    lastRotation: IP -> int,
    offenses: IP -> nat,
    firstOffense: IP -> int)

  datatype Event =
    | Tick(elapsed: nat)
    | AdmitBlock(w: nat, ip: IP)
    | ReadBlock(w: nat)
    | PlaceBlock(w: nat, block: Value, ttl: int, maxTTL: int)
    | AdmitScore(w: nat, ip: IP, evtype: string, bucket: int)
    | Score(w: nat, window: int, limit: int)
    | AdmitCrossed(w: nat)
    | SetHold(ip: IP)
    | SetGeneration(ip: IP, token: string)
    | FinishUnblock(ip: IP, token: string, resetBackoff: bool)
    | ResetBackoff(ip: IP)
    | ResetCounter(ip: IP, evtype: string, generation: string, bucket: int)
    | AdminBlock(ip: IP, block: Value, ttl: int)
    | AdminUnblock(ip: IP)

  /** The generation as a writer reads it: absent is the empty token. */
  function ReadToken(st: Store, ip: IP): string {
    match Lookup(st, GenKey(ip))
    case Some(Text(t)) => t
    case _ => ""
  }

  predicate Fresh(s: Sys, token: string) { token !in s.used && token != "" && ColonFree(token) }

  predicate Enabled(s: Sys, e: Event) {
    match e
    case AdmitBlock(w, _) => w !in s.writers
    case AdmitScore(w, _, _, _) => w !in s.writers
    case ReadBlock(w) => w in s.writers && s.writers[w].Blocking?
    case PlaceBlock(w, _, _, _) => w in s.writers && s.writers[w].BlockReady?
    case Score(w, window, _) => w in s.writers && s.writers[w].Scoring? && window > 0
    case AdmitCrossed(w) => w in s.writers && s.writers[w].Crossed?
    case SetGeneration(_, token) => Fresh(s, token)
    case FinishUnblock(_, token, _) => Fresh(s, token)
    case _ => true
  }

  function At<T>(f: IP -> T, ip: IP, value: T): IP -> T { x => if x == ip then value else f(x) }

  function Pick(b: bool, x: nat, y: nat): nat { if b then x else y }

  function Count(f: IP -> nat, ip: IP, value: nat): IP -> nat { x => Pick(x == ip, value, f(x)) }

  function TheBlockCommit(w: Writer, block: Value, ttl: int, maxTTL: int): BlockCommit
    requires w.BlockReady?
  {
    BlockCommit(BlockKey(w.ip), w.prev, block,
                if ttl <= 0 then 60 * SECOND else ttl, if maxTTL <= 0 then HARD_MAX_BLOCK_TTL else maxTTL,
                BlockCountKey(w.ip), BACKOFF_WINDOW,
                HoldKey(w.ip), GenKey(w.ip), if w.token == "" then None else Some(Text(w.token)))
  }

  function TheEventCommit(w: Writer, window: int): EventCommit
    requires w.Scoring?
  {
    EventCommit(EventKey(w.evtype, w.ip, w.token, w.bucket), 2 * window, HoldKey(w.ip))
  }

  function TheUnblock(ip: IP, token: string, resetBackoff: bool): UnblockCommit {
    UnblockCommit(HoldKey(ip), HOLD_WINDOW, GenKey(ip), Text(token), GEN_RETENTION, BlockKey(ip), BlockCountKey(ip), resetBackoff)
  }

  function Rotated(s: Sys, st: Store, ip: IP, token: string): Sys {
    s.(st := st, used := s.used + {token},
       lastToken := At(s.lastToken, ip, token), lastRotation := At(s.lastRotation, ip, s.clock))
  }

  /** History forgets a backoff counter when its own window is over. */
  function Aged(s: Sys, clock: int): IP -> nat {
    ip => Pick(clock <= s.firstOffense(ip) + BACKOFF_WINDOW, s.offenses(ip), 0)
  }

  function Placed(s: Sys, w: nat, commit: BlockCommit): Sys
    requires w in s.writers
  {
    var x := s.writers[w];
    var (st', r) := CommitBlock(s.st, commit, s.clock);
    var t := s.(st := st', writers := s.writers - {w});
    if r.Refused? then t
    else t.(offenses := Count(s.offenses, x.ip, s.offenses(x.ip) + 1),
            firstOffense := if s.offenses(x.ip) > 0 then s.firstOffense else At(s.firstOffense, x.ip, s.clock))
  }

  function Scored(s: Sys, w: nat, commit: EventCommit, limit: int): Sys
    requires w in s.writers
  {
    var x := s.writers[w];
    var (st', r) := CommitEvent(s.st, commit, s.clock);
    if r.EventResult? && r.committed && r.value >= limit then
      s.(st := st', writers := s.writers[w := Crossed(x.ip, x.token, x.admittedAt, x.epoch, s.unblocks(x.ip))])
    else s.(st := st', writers := s.writers - {w})
  }

  function Apply(s: Sys, e: Event): Sys
    requires Enabled(s, e)
  {
    match e
    case Tick(elapsed) =>
      var clock := s.clock + elapsed;
      s.(clock := clock, st := View(s.st, clock), offenses := Aged(s, clock))
    case AdmitBlock(w, ip) =>
      s.(writers := s.writers[w := Blocking(ip, ReadToken(s.st, ip), s.clock, s.unblocks(ip), s.unblocks(ip))])
    case ReadBlock(w) =>
      var x := s.writers[w];
      s.(writers := s.writers[w := BlockReady(x.ip, x.token, x.admittedAt, x.epoch, x.counted, Lookup(s.st, BlockKey(x.ip)))])
    case PlaceBlock(w, block, ttl, maxTTL) => Placed(s, w, TheBlockCommit(s.writers[w], block, ttl, maxTTL))
    case AdmitScore(w, ip, evtype, bucket) =>
      s.(writers := s.writers[w := Scoring(ip, ReadToken(s.st, ip), s.clock, s.unblocks(ip), evtype, bucket)])
    case Score(w, window, limit) => Scored(s, w, TheEventCommit(s.writers[w], window), limit)
    case AdmitCrossed(w) =>
      var x := s.writers[w];
      s.(writers := s.writers[w := Blocking(x.ip, ReadToken(s.st, x.ip), s.clock, s.unblocks(x.ip), x.counted)])
    case SetHold(ip) => s.(st := s.st[HoldKey(ip) := Entry(Text("1"), s.clock + HOLD_WINDOW)])
    case SetGeneration(ip, token) =>
      Rotated(s, s.st[GenKey(ip) := Entry(Text(token), s.clock + GEN_RETENTION)], ip, token)
    case FinishUnblock(ip, token, resetBackoff) =>
      var t := Rotated(s, CommitUnblock(s.st, TheUnblock(ip, token, resetBackoff), s.clock), ip, token);
      t.(unblocks := Count(s.unblocks, ip, s.unblocks(ip) + 1),
         offenses := if resetBackoff then Count(s.offenses, ip, 0) else s.offenses)
    case ResetBackoff(ip) => s.(st := Drop(s.st, BlockCountKey(ip)), offenses := Count(s.offenses, ip, 0))
    case ResetCounter(ip, evtype, generation, bucket) => s.(st := Drop(s.st, EventKey(evtype, ip, generation, bucket)))
    case AdminBlock(ip, block, ttl) => s.(st := s.st[BlockKey(ip) := Entry(block, Expiry(ttl, s.clock))])
    case AdminUnblock(ip) => s.(st := Drop(s.st, BlockKey(ip)))
  }

  function Init(clock: nat): Sys {
    Sys(clock, map[], map[], {}, _ => 0, _ => "", _ => 0, _ => 0, _ => 0)
  }

  ghost predicate Run(s: Sys, es: seq<Event>, t: Sys)
    decreases |es|
  {
    if es == [] then s == t else Enabled(s, es[0]) && Run(Apply(s, es[0]), es[1..], t)
  }

  ghost predicate Reachable(t: Sys) {
    exists clock: nat, es :: Run(Init(clock), es, t)
  }

  // ---------- the invariant ----------

  /** The stored generation is the last one rotated in, for its full retention. */
  ghost predicate GenOk(s: Sys, ip: IP) {
    && (GenKey(ip) in s.st ==>
          s.lastToken(ip) != "" && s.st[GenKey(ip)] == Entry(Text(s.lastToken(ip)), s.lastRotation(ip) + GEN_RETENTION))
    && (s.lastToken(ip) != "" ==>
          && s.lastToken(ip) in s.used && 0 <= s.lastRotation(ip) <= s.clock
          && (s.clock <= s.lastRotation(ip) + GEN_RETENTION <==> GenKey(ip) in s.st))
    && (s.lastToken(ip) == "" ==> s.unblocks(ip) == 0)
  }

  /** The backoff counter holds the blocks committed since it last went away. */
  ghost predicate CountOk(s: Sys, ip: IP) {
    && (BlockCountKey(ip) in s.st <==> s.offenses(ip) > 0)
    && (s.offenses(ip) > 0 ==>
          && s.st[BlockCountKey(ip)] == Entry(Number(s.offenses(ip)), s.firstOffense(ip) + BACKOFF_WINDOW)
          && 0 <= s.firstOffense(ip) && s.clock <= s.firstOffense(ip) + BACKOFF_WINDOW)
  }

  /** A writer overtaken by an unblock holds a token that is not the current one, and
      the current one is held since the last rotation only. */
  ghost predicate WriterOk(s: Sys, w: Writer) {
    && (w.token == "" || w.token in s.used)
    && w.epoch <= s.unblocks(w.ip) && w.admittedAt <= s.clock
    && (w.token != "" && w.token == s.lastToken(w.ip) ==> w.admittedAt >= s.lastRotation(w.ip))
    && (w.epoch < s.unblocks(w.ip) ==>
          w.token != s.lastToken(w.ip) && w.admittedAt <= s.lastRotation(w.ip) && s.lastToken(w.ip) != "")
  }

  ghost predicate Inv(s: Sys) {
    && 0 <= s.clock
    && (forall token | token in s.used :: ColonFree(token))
    && (forall ip: IP :: GenOk(s, ip))
    && (forall ip: IP :: CountOk(s, ip))
    && (forall w | w in s.writers :: WriterOk(s, s.writers[w]))
  }

  /** A commit leaves the clock, the generations and the other writers alone. */
  lemma WritersKept(s: Sys, t: Sys, w: nat)
    requires Inv(s) && t.clock == s.clock && t.used == s.used && t.unblocks == s.unblocks
    requires t.lastToken == s.lastToken && t.lastRotation == s.lastRotation
    requires forall v | v in t.writers :: v in s.writers && (v != w ==> t.writers[v] == s.writers[v])
    requires w in t.writers ==>
      var x, y := s.writers[w], t.writers[w];
      y.ip == x.ip && y.token == x.token && y.admittedAt == x.admittedAt && y.epoch == x.epoch
    ensures forall v | v in t.writers :: WriterOk(t, t.writers[v])
  {
    hide GenOk, CountOk;
    forall v | v in t.writers ensures WriterOk(t, t.writers[v]) { assert WriterOk(s, s.writers[v]); }
  }

  lemma PlacedOk(s: Sys, w: nat, c: BlockCommit, ip: IP)
    requires w in s.writers && GenOk(s, ip) && CountOk(s, ip)
    requires c.blockKey == BlockKey(s.writers[w].ip) && c.counterKey == BlockCountKey(s.writers[w].ip)
    requires c.counterTTL == BACKOFF_WINDOW && s.clock >= 0
    ensures GenOk(Placed(s, w, c), ip) && CountOk(Placed(s, w, c), ip)
  {
    var x := s.writers[w];
    GenKeyApart(ip, x.ip, "", "", 0);
    CountKeyApart(ip, x.ip, "", "", 0);
    hide GenKey, BlockKey, BlockCountKey, BlockRefusal, Backoff.Rung;
    var t := Placed(s, w, c);
    assert GenKey(ip) in t.st <==> GenKey(ip) in s.st;
    assert GenOk(t, ip);
    hide GenOk;
    if x.ip != ip { assert BlockCountKey(ip) in t.st <==> BlockCountKey(ip) in s.st; }
  }

  lemma PlaceBlockInv(s: Sys, e: Event)
    requires Inv(s) && Enabled(s, e) && e.PlaceBlock?
    ensures Inv(Apply(s, e))
  {
    var c := TheBlockCommit(s.writers[e.w], e.block, e.ttl, e.maxTTL);
    WritersKept(s, Placed(s, e.w, c), e.w);
    hide WriterOk;
    forall ip: IP ensures GenOk(Placed(s, e.w, c), ip) && CountOk(Placed(s, e.w, c), ip) {
      assert GenOk(s, ip) && CountOk(s, ip);
      PlacedOk(s, e.w, c, ip);
    }
  }

  lemma ScoredOk(s: Sys, w: nat, c: EventCommit, limit: int, ip: IP)
    requires w in s.writers && GenOk(s, ip) && CountOk(s, ip) && c.counterKey != GenKey(ip) && c.counterKey != BlockCountKey(ip)
    ensures GenOk(Scored(s, w, c, limit), ip) && CountOk(Scored(s, w, c, limit), ip)
  {
    hide GenKey, BlockCountKey;
    var t := Scored(s, w, c, limit);
    assert Lookup(t.st, GenKey(ip)) == Lookup(s.st, GenKey(ip)) && (GenKey(ip) in t.st <==> GenKey(ip) in s.st);
    assert BlockCountKey(ip) in t.st <==> BlockCountKey(ip) in s.st;
  }

  lemma ScoreInv(s: Sys, e: Event)
    requires Inv(s) && Enabled(s, e) && e.Score?
    ensures Inv(Apply(s, e))
  {
    var x := s.writers[e.w];
    var c := TheEventCommit(x, e.window);
    WritersKept(s, Scored(s, e.w, c, e.limit), e.w);
    hide WriterOk;
    forall ip: IP ensures GenOk(Scored(s, e.w, c, e.limit), ip) && CountOk(Scored(s, e.w, c, e.limit), ip) {
      assert GenOk(s, ip) && CountOk(s, ip);
      GenKeyApart(ip, x.ip, x.evtype, x.token, x.bucket);
      CountKeyApart(ip, x.ip, x.evtype, x.token, x.bucket);
      ScoredOk(s, e.w, c, e.limit, ip);
    }
  }

  lemma RotatedWriters(s: Sys, t: Sys, ip: IP, token: string)
    requires Inv(s) && Fresh(s, token) && t.clock == s.clock
    requires t.used == s.used + {token} && t.lastToken == At(s.lastToken, ip, token) && t.lastRotation == At(s.lastRotation, ip, s.clock)
    requires t.writers == s.writers
    requires t.unblocks == s.unblocks || t.unblocks == Count(s.unblocks, ip, s.unblocks(ip) + 1)
    ensures forall w | w in t.writers :: WriterOk(t, t.writers[w])
  {
    forall w | w in t.writers ensures WriterOk(t, t.writers[w]) { assert WriterOk(s, s.writers[w]); }
  }

  lemma RotateInv(s: Sys, e: Event)
    requires Inv(s) && Enabled(s, e) && e.SetGeneration?
    ensures Inv(Apply(s, e))
  {
    var t := Apply(s, e);
    RotatedWriters(s, t, e.ip, e.token);
    forall ip: IP ensures GenOk(t, ip) && CountOk(t, ip) {
      assert GenOk(s, ip) && CountOk(s, ip);
      GenKeyApart(ip, e.ip, "", "", 0);
      CountKeyApart(ip, e.ip, "", "", 0);
    }
  }

  lemma FinishInv(s: Sys, e: Event)
    requires Inv(s) && Enabled(s, e) && e.FinishUnblock?
    ensures Inv(Apply(s, e))
  {
    var t := Apply(s, e);
    RotatedWriters(s, t, e.ip, e.token);
    forall ip: IP ensures GenOk(t, ip) && CountOk(t, ip) {
      assert GenOk(s, ip) && CountOk(s, ip);
      GenKeyApart(ip, e.ip, "", "", 0);
      CountKeyApart(ip, e.ip, "", "", 0);
    }
  }

  lemma TickInv(s: Sys, e: Event)
    requires Inv(s) && e.Tick?
    ensures Inv(Apply(s, e))
  {
    var t := Apply(s, e);
    forall ip: IP ensures GenOk(t, ip) && CountOk(t, ip) {
      assert GenOk(s, ip) && CountOk(s, ip);
    }
  }

  lemma AdmitInv(s: Sys, e: Event)
    requires Inv(s) && Enabled(s, e) && (e.AdmitBlock? || e.AdmitScore? || e.ReadBlock? || e.AdmitCrossed?)
    ensures Inv(Apply(s, e))
  {
    var t := Apply(s, e);
    var ip := if e.ReadBlock? || e.AdmitCrossed? then s.writers[e.w].ip else e.ip;
    assert GenOk(s, ip);
    assert forall x: IP :: GenOk(s, x) ==> GenOk(t, x);
    assert forall x: IP :: CountOk(s, x) ==> CountOk(t, x);
  }

  lemma PlainWriteInv(s: Sys, e: Event)
    requires Inv(s) && Enabled(s, e)
    requires e.SetHold? || e.ResetBackoff? || e.ResetCounter? || e.AdminBlock? || e.AdminUnblock?
    ensures Inv(Apply(s, e))
  {
    var t := Apply(s, e);
    var evtype, gen, bucket := if e.ResetCounter? then e.evtype else "", if e.ResetCounter? then e.generation else "", if e.ResetCounter? then e.bucket else 0;
    forall ip: IP ensures GenOk(t, ip) && CountOk(t, ip) {
      assert GenOk(s, ip) && CountOk(s, ip);
      GenKeyApart(ip, e.ip, evtype, gen, bucket);
      CountKeyApart(ip, e.ip, evtype, gen, bucket);
    }
  }

  lemma NextInv(s: Sys, e: Event)
    requires Inv(s) && Enabled(s, e)
    ensures Inv(Apply(s, e))
  {
    match e
    case Tick(_) => TickInv(s, e);
    case PlaceBlock(_, _, _, _) => PlaceBlockInv(s, e);
    case Score(_, _, _) => ScoreInv(s, e);
    case SetGeneration(_, _) => RotateInv(s, e);
    case FinishUnblock(_, _, _) => FinishInv(s, e);
    case AdmitBlock(_, _) => AdmitInv(s, e);
    case AdmitScore(_, _, _, _) => AdmitInv(s, e);
    case AdmitCrossed(_) => AdmitInv(s, e);
    case ReadBlock(_) => AdmitInv(s, e);
    case _ => PlainWriteInv(s, e);
  }

  lemma {:induction false} RunInv(s: Sys, es: seq<Event>, t: Sys)
    requires Inv(s) && Run(s, es, t)
    ensures Inv(t)
    decreases |es|
  {
    if es != [] {
      NextInv(s, es[0]);
      RunInv(Apply(s, es[0]), es[1..], t);
    }
  }

  lemma ReachableInv(t: Sys)
    requires Reachable(t)
    ensures Inv(t)
  {
    var clock: nat, es :| Run(Init(clock), es, t);
    RunInv(Init(clock), es, t);
  }

  // ---------- what holds in every reachable state ----------

  /** Whether an unblock of its address committed after the writer was admitted. */
  predicate Overtaken(s: Sys, w: Writer) { w.epoch < s.unblocks(w.ip) }

  /** Exactly when a block admitted before an unblock can still commit after it:
      the address had no generation at admission, the last rotation is more than
      a full retention ago, no hold is live and the block is as it was read. Any
      other overtaken writer leaves the store as it was, offense count included. */
  lemma OvertakenBlock(s: Sys, e: Event)
    requires Reachable(s) && Enabled(s, e) && e.PlaceBlock? && Overtaken(s, s.writers[e.w])
    ensures var x := s.writers[e.w];
            var r := CommitBlock(s.st, TheBlockCommit(x, e.block, e.ttl, e.maxTTL), s.clock).1;
            && (r.Committed? <==>
                  && x.token == "" && s.clock > s.lastRotation(x.ip) + GEN_RETENTION
                  && HoldKey(x.ip) !in s.st && Lookup(s.st, BlockKey(x.ip)) == x.prev)
            && (!r.Committed? ==> Apply(s, e).st == s.st && Apply(s, e).offenses == s.offenses)
  {
    ReachableInv(s);
    var x := s.writers[e.w];
    assert WriterOk(s, x) && GenOk(s, x.ip);
  }

  /** So an unblock is an exact boundary for every writer that commits within the
      generation's retention of its admission. */
  lemma UnblockIsABoundary(s: Sys, e: Event)
    requires Reachable(s) && Enabled(s, e) && e.PlaceBlock? && Overtaken(s, s.writers[e.w])
    requires s.clock - s.writers[e.w].admittedAt <= GEN_RETENTION
    ensures Apply(s, e).st == s.st && Apply(s, e).offenses == s.offenses
  {
    ReachableInv(s);
    OvertakenBlock(s, e);
    assert WriterOk(s, s.writers[e.w]);
  }

  /** An event admitted before an unblock never touches a counter that is read
      under the generation the unblock left, while that generation is retained. */
  lemma OvertakenScore(s: Sys, e: Event, evtype: string, bucket: int)
    requires Reachable(s) && Enabled(s, e) && e.Score? && Overtaken(s, s.writers[e.w])
    requires GenKey(s.writers[e.w].ip) in s.st
    ensures var x := s.writers[e.w];
            var key := EventKey(evtype, x.ip, ReadToken(s.st, x.ip), bucket);
            Lookup(Apply(s, e).st, key) == Lookup(s.st, key)
  {
    ReachableInv(s);
    var x := s.writers[e.w];
    assert WriterOk(s, x) && GenOk(s, x.ip);
    EventKeysApart(x.evtype, x.ip, x.token, x.bucket, evtype, x.ip, ReadToken(s.st, x.ip), bucket);
  }

  /** While a hold is live no block, offense or event of the address commits. */
  lemma HoldStopsWriters(s: Sys, e: Event)
    requires Enabled(s, e) && (e.PlaceBlock? || e.Score?) && HoldKey(s.writers[e.w].ip) in s.st
    ensures Apply(s, e).st == s.st && Apply(s, e).offenses == s.offenses
  {
  }

  /** After an unblock the address is held and not blocked. */
  lemma UnblockLifts(s: Sys, e: Event)
    requires Enabled(s, e) && e.FinishUnblock?
    ensures var t := Apply(s, e);
            && HoldKey(e.ip) in t.st && t.st[HoldKey(e.ip)].expires == s.clock + HOLD_WINDOW
            && BlockKey(e.ip) !in t.st && ReadToken(t.st, e.ip) == e.token
            && (e.resetBackoff ==> BlockCountKey(e.ip) !in t.st)
            && (!e.resetBackoff ==> Lookup(t.st, BlockCountKey(e.ip)) == Lookup(s.st, BlockCountKey(e.ip)))
  {
    var ip := e.ip;
    GenKeyApart(ip, ip, "", "", 0);
    CountKeyApart(ip, ip, "", "", 0);
    assert HoldKey(ip)[0] == 'u' && BlockKey(ip)[0] == 'b';
  }

  /** The plain writes of operators do what they say, to the one record they name. */
  lemma OperatorWrites(s: Sys, e: Event)
    requires Enabled(s, e)
    ensures e.SetHold? ==> HoldKey(e.ip) in Apply(s, e).st && Apply(s, e).st[HoldKey(e.ip)].expires == s.clock + HOLD_WINDOW
    ensures e.SetGeneration? ==>
      GenKey(e.ip) in Apply(s, e).st && Apply(s, e).st[GenKey(e.ip)] == Entry(Text(e.token), s.clock + GEN_RETENTION)
    ensures e.ResetBackoff? ==> Apply(s, e).st == s.st - {BlockCountKey(e.ip)} && Apply(s, e).offenses(e.ip) == 0
    ensures e.ResetCounter? ==> Apply(s, e).st == s.st - {EventKey(e.evtype, e.ip, e.generation, e.bucket)}
    ensures e.AdminBlock? ==>
      Apply(s, e).st == s.st[BlockKey(e.ip) := Entry(e.block, if e.ttl > 0 then s.clock + e.ttl else 0)]
    ensures e.AdminUnblock? ==> Apply(s, e).st == s.st - {BlockKey(e.ip)}
  {
    hide EventKey, BlockKey, BlockCountKey, HoldKey, GenKey, Drop;
    if e.ResetBackoff? {
      DropIsMinus(s.st, BlockCountKey(e.ip));
      CountAt(s.offenses, e.ip, 0);
    }
    if e.ResetCounter? { DropIsMinus(s.st, EventKey(e.evtype, e.ip, e.generation, e.bucket)); }
    if e.AdminUnblock? { DropIsMinus(s.st, BlockKey(e.ip)); }
  }

  lemma DropIsMinus(st: Store, key: string)
    ensures Drop(st, key) == st - {key}
  {
  }

  /** The k of the ladder: a committed block is counted once, its TTL is the rung
      of the blocks committed since the counter was last reset or expired, and the
      counter keeps the window of the first of them. */
  lemma CommittedRung(s: Sys, e: Event)
    requires Reachable(s) && Enabled(s, e) && e.PlaceBlock?
    ensures var x := s.writers[e.w];
            var c := TheBlockCommit(x, e.block, e.ttl, e.maxTTL);
            var r := CommitBlock(s.st, c, s.clock).1;
            r.Committed? ==>
              && r.offenses == s.offenses(x.ip) + 1
              && r.ttl == Backoff.Rung(c.baseTTL, c.maxTTL, s.offenses(x.ip) + 1)
              && Apply(s, e).offenses(x.ip) == s.offenses(x.ip) + 1
              && Apply(s, e).st[BlockKey(x.ip)] == Entry(e.block, s.clock + r.ttl)
              && (s.offenses(x.ip) > 0 ==> Apply(s, e).st[BlockCountKey(x.ip)].expires == s.st[BlockCountKey(x.ip)].expires)
  {
    ReachableInv(s);
    var x := s.writers[e.w];
    assert CountOk(s, x.ip);
    CountKeyApart(x.ip, x.ip, "", "", 0);
    var c := TheBlockCommit(x, e.block, e.ttl, e.maxTTL);
    Backoff.LadderClimbs(c.baseTTL, c.maxTTL, s.offenses(x.ip) + 1, s.offenses(x.ip) + 1);
  }

  /** The state after a writer was admitted, its address was unblocked, and more
      than the retention passed before it read the block. */
  function Stalled(ip: IP): Sys {
    var s0 := Init(0);
    s0.(clock := GEN_RETENTION + 1,
        writers := map[0 := BlockReady(ip, "", 0, 0, 0, None)],
        used := {"a"}, unblocks := Count(s0.unblocks, ip, 1),
        lastToken := At(s0.lastToken, ip, "a"), lastRotation := At(s0.lastRotation, ip, 0),
        offenses := Aged(s0.(offenses := Count(s0.offenses, ip, 0)), GEN_RETENTION + 1))
  }

  lemma StalledStart(ip: IP) returns (s1: Sys)
    ensures s1 == Apply(Init(0), AdmitBlock(0, ip))
    ensures s1 == Init(0).(writers := map[0 := Blocking(ip, "", 0, 0, 0)])
    ensures Enabled(s1, FinishUnblock(ip, "a", true))
  {
    s1 := Apply(Init(0), AdmitBlock(0, ip));
  }

  lemma StalledRotated(ip: IP, s1: Sys) returns (s2: Sys)
    requires s1 == Init(0).(writers := map[0 := Blocking(ip, "", 0, 0, 0)])
    ensures Enabled(s1, FinishUnblock(ip, "a", true)) && s2 == Apply(s1, FinishUnblock(ip, "a", true))
    ensures s2 == s1.(st := s2.st, used := {"a"}, unblocks := Count(s1.unblocks, ip, 1), lastToken := At(s1.lastToken, ip, "a"),
                      lastRotation := At(s1.lastRotation, ip, 0), offenses := Count(s1.offenses, ip, 0))
    ensures forall k | k in s2.st :: !Live(s2.st[k], GEN_RETENTION + 1)
  {
    s2 := Apply(s1, FinishUnblock(ip, "a", true));
  }

  lemma StalledSteps(ip: IP) returns (s1: Sys, s2: Sys, s3: Sys)
    ensures s1 == Apply(Init(0), AdmitBlock(0, ip))
    ensures Enabled(s1, FinishUnblock(ip, "a", true)) && s2 == Apply(s1, FinishUnblock(ip, "a", true))
    ensures s3 == Apply(s2, Tick(GEN_RETENTION + 1))
    ensures Enabled(s3, ReadBlock(0)) && Apply(s3, ReadBlock(0)) == Stalled(ip)
  {
    s1 := StalledStart(ip);
    s2 := StalledRotated(ip, s1);
    hide CommitUnblock, Live;
    s3 := Apply(s2, Tick(GEN_RETENTION + 1));
    assert s3.st == map[];
    assert Apply(s3, ReadBlock(0)).writers == map[0 := BlockReady(ip, "", 0, 0, 0, None)];
  }

  lemma StalledReachable(ip: IP)
    ensures Reachable(Stalled(ip))
  {
    var s1, s2, s3 := StalledSteps(ip);
    var e1, e2, e3, e4 := AdmitBlock(0, ip), FinishUnblock(ip, "a", true), Tick(GEN_RETENTION + 1), ReadBlock(0);
    var s4 := Stalled(ip);
    hide Apply, Stalled;
    RunStep(s3, e4, s4, []);
    RunStep(s2, e3, s4, [e4]);
    RunStep(s1, e2, s4, [e3] + [e4]);
    RunStep(Init(0), e1, s4, [e2] + ([e3] + [e4]));
  }

  lemma CountAt(f: IP -> nat, ip: IP, value: nat)
    ensures Count(f, ip, value)(ip) == value
  {
    assert Pick(ip == ip, value, f(ip)) == value;
  }

  /** The retention bound is needed: a writer that stalls past it re-blocks an
      address that was unblocked after its admission. */
  lemma StalledWriterReblocks(ip: IP, block: Value)
    ensures var s, e := Stalled(ip), PlaceBlock(0, block, 0, 0);
            && Reachable(s) && Enabled(s, e) && Overtaken(s, s.writers[0])
            && BlockKey(ip) !in s.st && BlockKey(ip) in Apply(s, e).st
  {
    StalledReachable(ip);
    var zero: IP -> nat := _ => 0;
    CountAt(zero, ip, 1);
    CountAt(Init(0).unblocks, ip, 1);
    assert Stalled(ip).unblocks(ip) == 1 && Stalled(ip).lastRotation(ip) == 0;
    OvertakenBlock(Stalled(ip), PlaceBlock(0, block, 0, 0));
  }

  lemma RunStep(s: Sys, e: Event, t: Sys, es: seq<Event>)
    requires Enabled(s, e) && Run(Apply(s, e), es, t)
    ensures Run(s, [e] + es, t)
  {
    assert ([e] + es)[1..] == es;
  }
}
