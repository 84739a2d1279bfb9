/** The enforcement mirror of a single process against its store: block commits,
    unblocks, expiry, notifications and the reconcile scan, interleaved.

    A notification is pending from the store commit until it has been applied;
    notifications are applied one at a time under the notify lock, while store
    commits and the reconcile are not held up by it. The run assumption is that
    time does not pass a hold while the notification of the unblock that set it
    is still pending. */
module MirrorProtocol {
  import Mirror
  import Scoreboard
  import TtlStore

  type Addr = Mirror.Addr
  type Entry = Mirror.Entry

  datatype Note = AddNote(addr: Addr, owner: nat, reason: string, ttl: int) | RemoveNote(addr: Addr)

  /** How far the mirror has heard of a block: its notification is pending, was
      applied, was dropped at the given generation, or nothing is known, because
      the block predates this process or its entry was replaced by an older one. */
  datatype Status = Waiting(note: nat) | Delivered | Dropped(generation: nat) | Unknown

  /** A `ttl` that is not positive is a block without expiry. */
  datatype Block = Block(owner: nat, reason: string, ttl: int, committedAt: int, status: Status)

  predicate Lives(b: Block, now: int) { b.ttl <= 0 || now < b.committedAt + b.ttl }

  /** Who holds the notify lock and how far it is. */
  datatype Lock =
    | Free
    | Validated(note: nat)           // the owner was still current in the store
    | Stamped(note: nat, at: int)    // the clock was read
    | Refused(note: nat)             // the mirror was full; completeness not yet cleared
    | Removing(note: nat, at: int)   // the entry is gone, its tombstone not yet written

  /** The reconcile's progress. `gen0` is the generation at the clock read, which
      the program does not look at; `gen` is the one it reads next. */
  datatype Recon =
    | Quiet
    | ClockRead(start: int, gen0: nat)
    | GenRead(start: int, gen: nat)
    | Sweeping(start: int, gen: nat, snap: map<Addr, Entry>, all: bool, next: nat)
    | Upserting(start: int, gen: nat, snap: map<Addr, Entry>, todo: set<Addr>, ok: bool)
    | Setting(start: int, gen: nat, snap: map<Addr, Entry>, todo: set<Addr>, ok: bool, addr: Addr)
    | Seeding

  /** How the mirror is laid out: any hash, and the limit on its entries. */
  datatype Layout = Layout(hash: Addr -> nat, maxEntries: nat)

  const SHARDS: nat := 32

  function PerShard(l: Layout): nat { if l.maxEntries / SHARDS < 1 then 1 else l.maxEntries / SHARDS }

  /** The last two fields are history. `lost` is about the current reconcile: the
      blocks that slipped between its two first reads or were cut short by one of
      its upserts. `missing` is about the completeness bit: the blocks the
      reconcile that set it had lost, and those cut short since. */
  datatype Sys = Sys(
    layout: Layout,
    clock: int,
    store: map<Addr, Block>,
    hold: Addr -> int,
    notes: map<nat, Note>,
    lock: Lock,
    mirror: map<Addr, Entry>,
    tombs: map<Addr, int>,
    generation: nat,
    complete: bool,
    seeded: bool,
    recon: Recon,
    lost: set<Addr>,
    missing: set<Addr>)

  datatype Event =
    | Tick(elapsed: nat)
    | Commit(addr: Addr, owner: nat, reason: string, ttl: int, note: nat)
    | Unblock(addr: Addr, note: nat)
    | Validate(note: nat, current: bool)
    | ValidateFails(note: nat)
    | Stamp(note: nat)
    | ApplyAdd(note: nat)
    | MarkIncomplete(note: nat)
    | RemoveEntry(note: nat)
    | WriteTomb(note: nat, evicted: set<Addr>)
    | ReadClock
    | ReadGeneration
    | Scan(all: bool, seen: set<Addr>)
    | ScanFails
    | Sweep
    | EndSweep
    | CheckTomb(addr: Addr)
    | SetScanned
    | PruneTombs
    | Publish
    | Seed

  /** Whether a mirror miss must still consult the store. */
  predicate ReadThrough(s: Sys) { !s.seeded || !s.complete }

  predicate Held(s: Sys, a: Addr) { s.clock <= s.hold(a) }

  predicate Alive(s: Sys, a: Addr) { a in s.store && Lives(s.store[a], s.clock) }

  predicate IsAdd(s: Sys, note: nat) { note in s.notes && s.notes[note].AddNote? }
  predicate IsRemove(s: Sys, note: nat) { note in s.notes && s.notes[note].RemoveNote? }

  /** The block in the store is the one the notification is about. */
  predicate Owns(s: Sys, note: nat)
    requires IsAdd(s, note)
  {
    s.notes[note].addr in s.store && s.store[s.notes[note].addr].owner == s.notes[note].owner
  }

  // ---------- room in a shard ----------

  function ShardOf(l: Layout, a: Addr): nat { l.hash(a) % SHARDS }

  function Crowd(s: Sys, a: Addr): set<Addr> { set b | b in s.mirror && ShardOf(s.layout, b) == ShardOf(s.layout, a) }

  /** The expired entries a full shard gives up for an insert. */
  function ShedFor(s: Sys, a: Addr, now: int): set<Addr> {
    if a in s.mirror || |Crowd(s, a)| < PerShard(s.layout) then {}
    else set b | b in Crowd(s, a) && Mirror.Expired(s.mirror[b], now)
  }

  predicate Fits(s: Sys, a: Addr, now: int) { a in s.mirror || |Crowd(s, a) - ShedFor(s, a, now)| < PerShard(s.layout) }

  predicate Lapsed(s: Sys, shed: set<Addr>, now: int) {
    forall b | b in shed :: b in s.mirror && Mirror.Expired(s.mirror[b], now)
  }

  predicate MaySet(s: Sys, room: bool, shed: set<Addr>) {
    && s.recon.Setting? && s.recon.addr in s.recon.snap
    && (room || s.recon.addr !in s.mirror) && Lapsed(s, shed, s.recon.start)
  }

  /** What a full removal log gives up: the oldest tombstone, if any is older. */
  predicate MayEvict(s: Sys, a: Addr, at: int, evicted: set<Addr>) {
    if |s.tombs| < Mirror.MAX_TOMBSTONES then evicted == {}
    else
      && |evicted| == 1
      && (forall v | v in evicted :: v == a || (v in s.tombs && s.tombs[v] < at))
      && (forall v, b | v in evicted && b in s.tombs && s.tombs[b] < at :: v in s.tombs && s.tombs[v] <= s.tombs[b])
  }

  /** The store finds a block until its expiry and not after; the tick itself is
      left open. */
  predicate Enabled(s: Sys, e: Event) {
    match e
    case Tick(elapsed) => forall n | n in s.notes :: s.notes[n].RemoveNote? ==> s.clock + elapsed <= s.hold(s.notes[n].addr)
    case Commit(a, owner, _, _, note) =>
      && !Held(s, a) && note !in s.notes
      && (forall n | n in s.notes :: s.notes[n].AddNote? ==> s.notes[n].owner != owner)
      && (forall b | b in s.store :: s.store[b].owner != owner)
    case Unblock(_, note) => note !in s.notes
    case Validate(note, current) =>
      && s.lock == Free && IsAdd(s, note)
      && (current ==> Owns(s, note) && Lives(s.store[s.notes[note].addr], s.clock - 1))
      && (!current ==> !(Owns(s, note) && Alive(s, s.notes[note].addr)))
    case ValidateFails(note) => s.lock == Free && IsAdd(s, note)
    case Stamp(note) => (s.lock == Validated(note) && IsAdd(s, note)) || (s.lock == Free && IsRemove(s, note))
    case ApplyAdd(note) => s.lock.Stamped? && s.lock.note == note && IsAdd(s, note)
    case MarkIncomplete(note) => s.lock == Refused(note) && IsAdd(s, note)
    case RemoveEntry(note) => s.lock.Stamped? && s.lock.note == note && IsRemove(s, note)
    case WriteTomb(note, evicted) =>
      && s.lock.Removing? && s.lock.note == note && IsRemove(s, note)
      && MayEvict(s, s.notes[note].addr, s.lock.at, evicted)
    case ReadClock => s.recon.Quiet?
    case ReadGeneration => s.recon.ClockRead?
    case Scan(all, seen) =>
      && s.recon.GenRead? && seen <= s.store.Keys && (forall a | a in seen :: Lives(s.store[a], s.clock - 1))
      && (all ==> (forall a | a in s.store :: Alive(s, a) ==> a in seen))
      && (all && s.layout.maxEntries > 0 ==> |seen| <= s.layout.maxEntries)
    case ScanFails => s.recon.GenRead?
    case Sweep => s.recon.Sweeping? && s.recon.all && s.recon.next < SHARDS
    case EndSweep => s.recon.Sweeping? && (s.recon.all ==> s.recon.next >= SHARDS)
    case CheckTomb(a) => s.recon.Upserting? && a in s.recon.todo
    case SetScanned => s.recon.Setting? && s.recon.addr in s.recon.snap
    case PruneTombs => s.recon.Upserting? && s.recon.todo == {}
    case Publish => s.recon.Upserting? && s.recon.todo == {}
    case Seed => s.recon.Seeding?
  }

  /** The status of the block that `note` is about, if it is still in the store. */
  function Settle(s: Sys, note: nat, status: Status): map<Addr, Block>
    requires IsAdd(s, note)
  {
    var a := s.notes[note].addr;
    if Owns(s, note) then s.store[a := s.store[a].(status := status)] else s.store
  }

  function Drop(s: Sys, note: nat): Sys
    requires IsAdd(s, note)
  {
    s.(generation := s.generation + 1, complete := false, missing := {}, lock := Free, notes := s.notes - {note},
       store := Settle(s, note, Dropped(s.generation + 1)))
  }

  /** Applies a validated notification when there is room for it. */
  function Deliver(s: Sys, note: nat, at: int, shed: set<Addr>): Sys
    requires IsAdd(s, note)
  {
    var n := s.notes[note];
    s.(mirror := (s.mirror - shed)[n.addr := Mirror.Entry(n.reason, TtlStore.Expiry(n.ttl, at), at)],
       lock := Free, notes := s.notes - {note}, store := Settle(s, note, Delivered))
  }

  /** The entry lasts at least as long as the block. */
  predicate Outlasts(e: Entry, b: Block) { e.expiresAt == 0 || (b.ttl > 0 && e.expiresAt >= b.committedAt + b.ttl) }

  predicate Covered(s: Sys, a: Addr)
    requires a in s.store
  {
    a in s.mirror && Outlasts(s.mirror[a], s.store[a])
  }

  /** A block that was dropped since the clock read, whose address was removed
      since, when the generation is about to be read. */
  predicate Slipped(s: Sys, a: Addr)
    requires s.recon.ClockRead?
  {
    Alive(s, a) && !Covered(s, a) && LostAfter(s, a, s.recon.gen0) && Mirror.Vetoes(s.tombs, a, s.recon.start)
  }

  function AllSlipped(s: Sys): set<Addr>
    requires s.recon.ClockRead?
  {
    set a | a in s.store && Slipped(s, a)
  }

  /** The upsert at hand replaces the entry of a block that was written through by
      a scanned one that ends before that block does. */
  predicate Shortens(s: Sys)
    requires s.recon.Setting? && s.recon.addr in s.recon.snap
  {
    var a := s.recon.addr;
    Alive(s, a) && s.store[a].status == Delivered && !Outlasts(s.recon.snap[a], s.store[a])
  }

  /** Sets a scanned address aside as removed, or goes on to set it. */
  function Check(s: Sys, a: Addr): Sys
    requires s.recon.Upserting?
  {
    var r := s.recon;
    if Mirror.Vetoes(s.tombs, a, r.start) then s.(recon := Upserting(r.start, r.gen, r.snap, r.todo - {a}, r.ok))
    else s.(tombs := s.tombs - {a}, recon := Setting(r.start, r.gen, r.snap, r.todo, r.ok, a))
  }

  /** Sets the scanned entry, or finds no room for it. */
  function SetTo(s: Sys, room: bool, shed: set<Addr>): Sys
    requires s.recon.Setting? && s.recon.addr in s.recon.snap
  {
    var r, a := s.recon, s.recon.addr;
    var t := s.(mirror := if room then (s.mirror - shed)[a := r.snap[a]] else s.mirror - shed,
                recon := Upserting(r.start, r.gen, r.snap, r.todo - {a}, r.ok && room));
    if room && Shortens(s) then
      t.(store := s.store[a := s.store[a].(status := Unknown)], lost := s.lost + {a}, missing := s.missing + {a})
    else t
  }

  function Pruned(s: Sys): Sys
    requires s.recon.Upserting?
  {
    s.(tombs := Mirror.Prune(s.tombs, s.recon.start))
  }

  /** Only under the generation it was scanned under is a result published. */
  function Published(s: Sys): Sys
    requires s.recon.Upserting?
  {
    if s.generation == s.recon.gen then s.(complete := s.recon.ok, missing := if s.recon.ok then s.lost else {}, recon := Seeding)
    else s.(recon := Seeding)
  }

  /** The next shard without the entries that the scan did not see and that predate it. */
  function Stale(s: Sys): set<Addr>
    requires s.recon.Sweeping?
  {
    set a | a in s.mirror && ShardOf(s.layout, a) == s.recon.next && a !in s.recon.snap && s.mirror[a].insertedAt < s.recon.start
  }

  function Taken(s: Sys, seen: set<Addr>, start: int): map<Addr, Entry> {
    map a | a in s.store && a in seen ::
      Mirror.Entry(s.store[a].reason, TtlStore.Expiry(s.store[a].ttl, s.store[a].committedAt), start)
  }

  function Apply(s: Sys, e: Event): Sys
    requires Enabled(s, e)
  {
    match e
    case Tick(elapsed) => s.(clock := s.clock + elapsed)
    case Commit(a, owner, reason, ttl, note) =>
      s.(store := s.store[a := Block(owner, reason, ttl, s.clock, Waiting(note))],
         notes := s.notes[note := AddNote(a, owner, reason, ttl)], lost := s.lost - {a}, missing := s.missing - {a})
    case Unblock(a, note) =>
      s.(store := s.store - {a}, notes := s.notes[note := RemoveNote(a)],
         hold := (x: Addr) => if x == a then s.clock + Scoreboard.HOLD_WINDOW else s.hold(x))
    case Validate(note, current) => if current then s.(lock := Validated(note)) else s.(notes := s.notes - {note})
    case ValidateFails(note) => Drop(s, note)
    case Stamp(note) => s.(lock := Stamped(note, s.clock))
    case ApplyAdd(note) =>
      var a, at := s.notes[note].addr, s.lock.at;
      if Fits(s, a, at) then Deliver(s, note, at, ShedFor(s, a, at))
      else s.(mirror := s.mirror - ShedFor(s, a, at), lock := Refused(note))
    case MarkIncomplete(note) => Drop(s, note)
    case RemoveEntry(note) => s.(mirror := s.mirror - {s.notes[note].addr}, lock := Removing(note, s.lock.at))
    case WriteTomb(note, evicted) =>
      s.(tombs := (s.tombs - evicted)[s.notes[note].addr := s.lock.at], lock := Free, notes := s.notes - {note})
    case ReadClock => s.(recon := ClockRead(s.clock, s.generation), lost := {})
    case ReadGeneration => s.(recon := GenRead(s.recon.start, s.generation), lost := AllSlipped(s))
    case Scan(all, seen) => s.(recon := Sweeping(s.recon.start, s.recon.gen, Taken(s, seen, s.recon.start), all, 0))
    case ScanFails => s.(recon := Quiet)
    case Sweep => s.(mirror := s.mirror - Stale(s), recon := s.recon.(next := s.recon.next + 1))
    case EndSweep =>
      s.(recon := Upserting(s.recon.start, s.recon.gen, s.recon.snap, s.recon.snap.Keys, s.recon.all))
    case CheckTomb(a) => Check(s, a)
    case SetScanned => SetTo(s, Fits(s, s.recon.addr, s.recon.start), ShedFor(s, s.recon.addr, s.recon.start))
    case PruneTombs => Pruned(s)
    case Publish => Published(s)
    case Seed => s.(seeded := true, recon := Quiet)
  }

  /** A process starts on whatever blocks an earlier one left in the store. */
  ghost predicate Init(s: Sys) {
    && (forall a | a in s.store :: s.store[a].status == Unknown && 0 < s.store[a].committedAt <= s.clock)
    && s.clock > 0 && s.notes == map[] && s.lock == Free && s.mirror == map[] && s.tombs == map[]
    && s.generation == 0 && !s.complete && !s.seeded && s.recon == Quiet
  }

  ghost predicate Run(s: Sys, es: seq<Event>, t: Sys)
    decreases |es|
  {
    if es == [] then s == t else Enabled(s, es[0]) && Run(Apply(s, es[0]), es[1..], t)
  }

  ghost predicate Reachable(t: Sys) {
    exists s, es :: Init(s) && Run(s, es, t)
  }

  lemma {:induction false} RunThen(s: Sys, es: seq<Event>, t: Sys, e: Event)
    requires Run(s, es, t) && Enabled(t, e)
    ensures Run(s, es + [e], Apply(t, e))
    decreases |es|
  {
    hide Enabled, Apply;
    if es == [] {
      assert Run(Apply(s, e), [], Apply(t, e));
      assert [e][1..] == [];
    } else {
      RunThen(Apply(s, es[0]), es[1..], t, e);
      assert (es + [e])[0] == es[0] && (es + [e])[1..] == es[1..] + [e];
    }
  }

  lemma {:induction false} RunJoin(s: Sys, es: seq<Event>, t: Sys, fs: seq<Event>, u: Sys)
    requires Run(s, es, t) && Run(t, fs, u)
    ensures Run(s, es + fs, u)
    decreases |es|
  {
    hide Enabled, Apply;
    if es == [] { assert es + fs == fs; }
    else {
      RunJoin(Apply(s, es[0]), es[1..], t, fs, u);
      assert (es + fs)[0] == es[0] && (es + fs)[1..] == es[1..] + fs;
    }
  }

  // ---------- the invariant ----------

  predicate Untracked(s: Sys, a: Addr)
    requires a in s.store
  {
    s.store[a].status.Dropped? || s.store[a].status == Unknown
  }

  predicate LostAfter(s: Sys, a: Addr, gen: nat)
    requires a in s.store
  {
    s.store[a].status.Dropped? && s.store[a].status.generation > gen
  }

  /** A pending notification of a block in the store is the one the block waits
      for; a pending removal has its hold and nothing to remove from the store. */
  ghost predicate NoteOk(s: Sys, n: nat) {
    n in s.notes ==>
      && (s.notes[n].AddNote? && Owns(s, n) ==> s.store[s.notes[n].addr].status == Waiting(n))
      && (s.notes[n].RemoveNote? ==> s.notes[n].addr !in s.store && Held(s, s.notes[n].addr))
  }

  predicate Awaits(s: Sys, a: Addr)
    requires a in s.store && s.store[a].status.Waiting?
  {
    && s.store[a].status.note in s.notes
    && s.notes[s.store[a].status.note] == AddNote(a, s.store[a].owner, s.store[a].reason, s.store[a].ttl)
  }

  /** A block committed after a removal is newer than that removal's tombstone. */
  ghost predicate StoreOk(s: Sys, a: Addr) {
    && (a in s.tombs ==> s.tombs[a] <= s.clock && s.tombs[a] <= s.hold(a))
    && (a in s.store ==>
      && 0 < s.store[a].committedAt <= s.clock
      && (a in s.tombs ==> s.tombs[a] < s.store[a].committedAt)
      && (s.store[a].status.Dropped? ==> s.store[a].status.generation <= s.generation))
  }

  /** A live block the mirror was told of is covered by its entry; one it lost makes
      it incomplete. */
  ghost predicate AddrOk(s: Sys, a: Addr) {
    Alive(s, a) ==>
      && (s.store[a].status.Waiting? ==> Awaits(s, a))
      && (s.store[a].status == Delivered ==> Covered(s, a))
      && (s.complete && a !in s.missing && Untracked(s, a) ==> Covered(s, a))
      && ScanCovers(s, a)
  }

  /** A block whose address was removed since the scan began was committed since,
      so the mirror was told, will be told, still has it, or the generation has moved. */
  predicate VetoOk(s: Sys, a: Addr, start: int, gen: nat)
    requires a in s.store
  {
    a !in s.lost && Mirror.Vetoes(s.tombs, a, start) ==> !Untracked(s, a) || LostAfter(s, a, gen) || Covered(s, a)
  }

  /** A scanned block that the scan is needed for is the one in the store. */
  predicate SnapOk(s: Sys, a: Addr, gen: nat, snap: map<Addr, Entry>, todo: set<Addr>)
    requires a in s.store
  {
    a in todo && a in snap && Untracked(s, a) && !LostAfter(s, a, gen) ==> Outlasts(snap[a], s.store[a])
  }

  predicate DoneOk(s: Sys, a: Addr, gen: nat, todo: set<Addr>, ok: bool)
    requires a in s.store
  {
    ok && a !in s.lost && a !in todo && Untracked(s, a) && !LostAfter(s, a, gen) ==> Covered(s, a)
  }

  /** What the reconcile in progress still guarantees about the block of `a`. */
  predicate ScanCovers(s: Sys, a: Addr)
    requires a in s.store
  {
    match s.recon
    case Quiet => true
    case Seeding => true
    case ClockRead(start, gen0) => VetoOk(s, a, start, gen0)
    case GenRead(start, gen) => VetoOk(s, a, start, gen)
    case Sweeping(start, gen, snap, all, _) =>
      && VetoOk(s, a, start, gen) && SnapOk(s, a, gen, snap, snap.Keys)
      && (all && a !in snap ==>
            || s.store[a].status.Waiting?
            || (s.store[a].status == Delivered && Covered(s, a) && s.mirror[a].insertedAt >= start)
            || LostAfter(s, a, gen))
    case Upserting(start, gen, snap, todo, ok) =>
      VetoOk(s, a, start, gen) && SnapOk(s, a, gen, snap, todo) && DoneOk(s, a, gen, todo, ok)
    case Setting(start, gen, snap, todo, ok, _) =>
      VetoOk(s, a, start, gen) && SnapOk(s, a, gen, snap, todo) && DoneOk(s, a, gen, todo, ok)
  }

  predicate ReconOk(s: Sys) {
    match s.recon
    case Quiet => true
    case Seeding => true
    case ClockRead(start, gen0) => start <= s.clock && gen0 <= s.generation && s.lost == {}
    case GenRead(start, gen) => ScanOk(s, start, gen)
    case Sweeping(start, gen, _, _, _) => ScanOk(s, start, gen)
    case Upserting(start, gen, snap, todo, _) => ScanOk(s, start, gen) && todo <= snap.Keys
    case Setting(start, gen, snap, todo, _, a) => ScanOk(s, start, gen) && todo <= snap.Keys && a in todo
  }

  predicate ScanOk(s: Sys, start: int, gen: nat) {
    start <= s.clock && gen <= s.generation && (s.generation > gen ==> !s.complete)
  }

  predicate LockOk(s: Sys) {
    && (s.lock.Validated? || s.lock.Refused? ==> IsAdd(s, s.lock.note))
    && (s.lock.Validated? || s.lock.Stamped? ==> s.lock.note in s.notes && Unheard(s, s.notes[s.lock.note].addr))
    && (s.lock.Stamped? ==> s.lock.note in s.notes && s.lock.at <= s.clock && StampOk(s, s.lock.note, s.lock.at))
    && (s.lock.Removing? ==> IsRemove(s, s.lock.note) && s.lock.at <= s.clock)
  }

  /** While a notification is being applied, nothing newer about its address was. */
  predicate Unheard(s: Sys, a: Addr) { a in s.store ==> s.store[a].status.Waiting? }

  /** A notification's clock is read after its block was committed, and a full scan
      that began later still has seen that block. */
  predicate StampOk(s: Sys, note: nat, at: int)
    requires note in s.notes
  {
    var a := s.notes[note].addr;
    Alive(s, a) && s.store[a].status == Waiting(note) ==>
      && s.store[a].committedAt <= at
      && (s.recon.Sweeping? && s.recon.all && at < s.recon.start ==> a in s.recon.snap)
  }

  ghost predicate Inv(s: Sys) {
    && s.clock > 0 && LockOk(s) && ReconOk(s)
    && (forall n: nat :: NoteOk(s, n))
    && (forall a: Addr :: StoreOk(s, a) && AddrOk(s, a))
  }

  /** Giving up expired entries costs no live block its cover. */
  lemma ShedKeeps(s: Sys, t: Sys, a: Addr, shed: set<Addr>, now: int)
    requires Lapsed(s, shed, now) && now <= s.clock && s.clock > 0 && Alive(s, a) && Covered(s, a)
    requires a in t.store && t.store[a] == s.store[a] && t.mirror == s.mirror - shed
    ensures Covered(t, a) && t.mirror[a] == s.mirror[a]
  {
  }

  lemma ShedLapses(s: Sys, a: Addr, now: int)
    ensures Lapsed(s, ShedFor(s, a, now), now) && (Fits(s, a, now) || a !in s.mirror)
  {
  }

  lemma ApplyAddInv(s: Sys, note: nat)
    requires Inv(s) && Enabled(s, ApplyAdd(note))
    ensures Inv(Apply(s, ApplyAdd(note)))
  {
    hide Inv, ShedFor, Fits;
    var a, at := s.notes[note].addr, s.lock.at;
    ShedLapses(s, a, at);
    if Fits(s, a, at) { DeliverInv(s, note, at, ShedFor(s, a, at)); } else { RefusedInv(s, note, ShedFor(s, a, at)); }
  }

  lemma RefusedInv(s: Sys, note: nat, shed: set<Addr>)
    requires Inv(s) && Enabled(s, ApplyAdd(note)) && Lapsed(s, shed, s.lock.at)
    ensures Inv(s.(mirror := s.mirror - shed, lock := Refused(note)))
  {
    hide NoteOk, StoreOk, AddrOk;
    LockInv(s, s.(mirror := s.mirror - shed, lock := Refused(note)), shed);
  }

  lemma DeliverInv(s: Sys, note: nat, at: int, shed: set<Addr>)
    requires Inv(s) && IsAdd(s, note) && s.lock == Stamped(note, at) && Lapsed(s, shed, at)
    ensures Inv(Deliver(s, note, at, shed))
  {
    var t := Deliver(s, note, at, shed);
    assert NoteOk(s, note);
    forall n: nat ensures NoteOk(t, n) { assert NoteOk(s, n); }
    forall a: Addr ensures StoreOk(t, a) && AddrOk(t, a) { assert StoreOk(s, a) && AddrOk(s, a); DeliverAddr(s, note, at, shed, a); }
  }

  lemma DeliverAddr(s: Sys, note: nat, at: int, shed: set<Addr>, a: Addr)
    requires Inv(s) && IsAdd(s, note) && s.lock == Stamped(note, at) && Lapsed(s, shed, at)
    ensures AddrOk(Deliver(s, note, at, shed), a)
  {
    var t := Deliver(s, note, at, shed);
    assert AddrOk(s, a) && StoreOk(s, a) && NoteOk(s, note);
    if Alive(s, a) {
      if s.notes[note].addr == a {
        assert Owns(s, note) ==> s.store[a].status == Waiting(note) && Awaits(s, a);
      } else if Covered(s, a) {
        ShedKeeps(s, s.(mirror := s.mirror - shed), a, shed, at);
      }
    }
  }

  /** A change of the lock or of expired entries alone. */
  lemma LockInv(s: Sys, t: Sys, shed: set<Addr>)
    requires Inv(s) && LockOk(t) && Lapsed(s, shed, s.clock) && t == s.(lock := t.lock, mirror := s.mirror - shed)
    ensures Inv(t)
  {
    forall n: nat ensures NoteOk(t, n) { assert NoteOk(s, n); }
    forall a: Addr ensures StoreOk(t, a) { assert StoreOk(s, a); }
    hide NoteOk, StoreOk, LockOk;
    forall a: Addr ensures AddrOk(t, a) {
      assert AddrOk(s, a);
      if Alive(s, a) && Covered(s, a) { ShedKeeps(s, t, a, shed, s.clock); }
    }
  }

  lemma StaleInv(s: Sys, note: nat)
    requires Inv(s) && s.lock == Free && IsAdd(s, note) && !(Owns(s, note) && Alive(s, s.notes[note].addr))
    ensures Inv(s.(notes := s.notes - {note}))
  {
    var t := s.(notes := s.notes - {note});
    forall n: nat ensures NoteOk(t, n) { assert NoteOk(s, n); }
    forall a: Addr ensures StoreOk(t, a) { assert StoreOk(s, a); }
    hide NoteOk, StoreOk;
    forall a: Addr ensures AddrOk(t, a) { assert AddrOk(s, a); }
  }

  lemma DropInv(s: Sys, note: nat)
    requires Inv(s) && IsAdd(s, note)
    ensures Inv(Drop(s, note))
  {
    var t := Drop(s, note);
    assert NoteOk(s, note);
    forall n: nat ensures NoteOk(t, n) { assert NoteOk(s, n); }
    forall a: Addr ensures StoreOk(t, a) && AddrOk(t, a) { assert StoreOk(s, a) && AddrOk(s, a); }
  }

  lemma RemoveEntryInv(s: Sys, e: Event)
    requires Inv(s) && Enabled(s, e) && e.RemoveEntry?
    ensures Inv(Apply(s, e))
  {
    var t := Apply(s, e);
    assert NoteOk(s, e.note);
    forall n: nat ensures NoteOk(t, n) { assert NoteOk(s, n); }
    forall a: Addr ensures StoreOk(t, a) { assert StoreOk(s, a); }
    hide NoteOk, StoreOk;
    forall a: Addr ensures AddrOk(t, a) { assert AddrOk(s, a); }
  }

  lemma WriteTombInv(s: Sys, e: Event)
    requires Inv(s) && Enabled(s, e) && e.WriteTomb?
    ensures Inv(Apply(s, e))
  {
    hide MayEvict, AddrOk;
    var t := Apply(s, e);
    assert NoteOk(s, e.note);
    forall n: nat ensures NoteOk(t, n) { assert NoteOk(s, n); }
    forall a: Addr ensures StoreOk(t, a) && AddrOk(t, a) {
      assert StoreOk(s, a) && AddrOk(s, a);
      TombAddr(s, t, e.note, e.evicted, a);
    }
  }

  lemma TombAddr(s: Sys, t: Sys, note: nat, evicted: set<Addr>, a: Addr)
    requires AddrOk(s, a) && StoreOk(s, a) && IsRemove(s, note) && NoteOk(s, note)
    requires s.lock.Removing? && t == s.(tombs := (s.tombs - evicted)[s.notes[note].addr := s.lock.at], lock := Free, notes := s.notes - {note})
    ensures AddrOk(t, a)
  {
  }

  lemma TickInv(s: Sys, e: Event)
    requires Inv(s) && Enabled(s, e) && e.Tick?
    ensures Inv(Apply(s, e))
  {
    var t := Apply(s, e);
    forall n: nat ensures NoteOk(t, n) { assert NoteOk(s, n); }
    forall a: Addr ensures StoreOk(t, a) && AddrOk(t, a) { assert StoreOk(s, a) && AddrOk(s, a); }
  }

  lemma CommitInv(s: Sys, e: Event)
    requires Inv(s) && Enabled(s, e) && e.Commit?
    ensures Inv(Apply(s, e))
  {
    hide AddrOk;
    var t := Apply(s, e);
    forall n: nat ensures NoteOk(t, n) { assert NoteOk(s, n); }
    forall a: Addr ensures StoreOk(t, a) && AddrOk(t, a) {
      assert StoreOk(s, a) && AddrOk(s, a);
      CommitAddr(s, e, a);
    }
  }

  lemma CommitAddr(s: Sys, e: Event, a: Addr)
    requires Inv(s) && Enabled(s, e) && e.Commit?
    ensures AddrOk(Apply(s, e), a)
  {
    hide NoteOk;
    assert StoreOk(s, a) && AddrOk(s, a);
  }

  lemma UnblockInv(s: Sys, e: Event)
    requires Inv(s) && Enabled(s, e) && e.Unblock?
    ensures Inv(Apply(s, e))
  {
    hide AddrOk;
    var t := Apply(s, e);
    forall n: nat ensures NoteOk(t, n) { assert NoteOk(s, n); }
    forall a: Addr ensures StoreOk(t, a) && AddrOk(t, a) {
      assert StoreOk(s, a) && AddrOk(s, a);
      UnblockAddr(s, e, a);
    }
  }

  lemma UnblockAddr(s: Sys, e: Event, a: Addr)
    requires Inv(s) && Enabled(s, e) && e.Unblock?
    ensures AddrOk(Apply(s, e), a)
  {
    hide NoteOk;
    assert StoreOk(s, a) && AddrOk(s, a);
  }

  lemma ScanInv(s: Sys, e: Event)
    requires Inv(s) && Enabled(s, e) && (e.ReadClock? || e.ReadGeneration? || e.ScanFails?)
    ensures Inv(Apply(s, e))
  {
    var t := Apply(s, e);
    forall n: nat ensures NoteOk(t, n) { assert NoteOk(s, n); }
    forall a: Addr ensures StoreOk(t, a) && AddrOk(t, a) { assert StoreOk(s, a) && AddrOk(s, a); }
  }

  lemma TakeInv(s: Sys, all: bool, seen: set<Addr>)
    requires Inv(s) && Enabled(s, Scan(all, seen))
    ensures Inv(Apply(s, Scan(all, seen)))
  {
    var t := Apply(s, Scan(all, seen));
    forall n: nat ensures NoteOk(t, n) { assert NoteOk(s, n); }
    forall a: Addr ensures StoreOk(t, a) && AddrOk(t, a) { assert StoreOk(s, a) && AddrOk(s, a); }
  }

  lemma SweepInv(s: Sys, e: Event)
    requires Inv(s) && Enabled(s, e) && e.Sweep?
    ensures Inv(Apply(s, e))
  {
    hide AddrOk;
    var t := Apply(s, e);
    forall n: nat ensures NoteOk(t, n) { assert NoteOk(s, n); }
    forall a: Addr ensures StoreOk(t, a) && AddrOk(t, a) {
      assert StoreOk(s, a) && AddrOk(s, a);
      SweepAddr(s, a);
    }
  }

  lemma SweepAddr(s: Sys, a: Addr)
    requires s.recon.Sweeping? && s.recon.all && ReconOk(s) && StoreOk(s, a) && AddrOk(s, a)
    ensures AddrOk(s.(mirror := s.mirror - Stale(s), recon := s.recon.(next := s.recon.next + 1)), a)
  {
  }

  lemma EndSweepInv(s: Sys, e: Event)
    requires Inv(s) && Enabled(s, e) && e.EndSweep?
    ensures Inv(Apply(s, e))
  {
    var t := Apply(s, e);
    forall n: nat ensures NoteOk(t, n) { assert NoteOk(s, n); }
    forall a: Addr ensures StoreOk(t, a) && AddrOk(t, a) { assert StoreOk(s, a) && AddrOk(s, a); }
  }

  /** A scanned address passed over because it was removed since is not one the
      scan was needed for. */
  lemma VetoedAddr(s: Sys, a: Addr, b: Addr)
    requires s.recon.Upserting? && AddrOk(s, b) && Mirror.Vetoes(s.tombs, a, s.recon.start)
    ensures AddrOk(Check(s, a), b)
  {
    var t, r := Check(s, a), s.recon;
    assert t == s.(recon := Upserting(r.start, r.gen, r.snap, r.todo - {a}, r.ok));
    if Alive(s, b) {
      assert VetoOk(s, b, r.start, r.gen) && SnapOk(s, b, r.gen, r.snap, r.todo) && DoneOk(s, b, r.gen, r.todo, r.ok);
      assert VetoOk(t, b, r.start, r.gen) && SnapOk(t, b, r.gen, r.snap, r.todo - {a}) && DoneOk(t, b, r.gen, r.todo - {a}, r.ok);
      hide VetoOk, SnapOk, DoneOk;
      assert ScanCovers(t, b);
    }
  }

  lemma PassedAddr(s: Sys, a: Addr, b: Addr)
    requires s.recon.Upserting? && AddrOk(s, b) && !Mirror.Vetoes(s.tombs, a, s.recon.start)
    ensures AddrOk(Check(s, a), b)
  {
    var t, r := Check(s, a), s.recon;
    assert t == s.(tombs := s.tombs - {a}, recon := Setting(r.start, r.gen, r.snap, r.todo, r.ok, a));
    if Alive(s, b) {
      assert VetoOk(s, b, r.start, r.gen) && SnapOk(s, b, r.gen, r.snap, r.todo) && DoneOk(s, b, r.gen, r.todo, r.ok);
      assert VetoOk(t, b, r.start, r.gen) && SnapOk(t, b, r.gen, r.snap, r.todo) && DoneOk(t, b, r.gen, r.todo, r.ok);
      hide VetoOk, SnapOk, DoneOk;
      assert ScanCovers(t, b);
    }
  }

  /** A reconcile step leaves the notifications, the clock, the holds and the stored
      blocks as they are, but for what history knows of one of them. */
  ghost predicate SameStore(s: Sys, t: Sys) {
    && t.clock == s.clock && t.hold == s.hold && t.notes == s.notes && t.lock == s.lock && t.generation == s.generation
    && t.store.Keys == s.store.Keys
    && (forall a | a in s.store :: t.store[a] == s.store[a] || (s.store[a].status == Delivered && t.store[a] == s.store[a].(status := Unknown)))
    && (forall a | a in t.tombs :: a in s.tombs && t.tombs[a] == s.tombs[a])
  }

  lemma StoreKept(s: Sys, t: Sys)
    requires Inv(s) && SameStore(s, t) && !t.recon.Sweeping?
    ensures t.clock > 0 && LockOk(t) && (forall n: nat :: NoteOk(t, n)) && (forall a: Addr :: StoreOk(t, a))
  {
    hide AddrOk, ReconOk;
    forall n: nat ensures NoteOk(t, n) { assert NoteOk(s, n); }
    forall a: Addr ensures StoreOk(t, a) { assert StoreOk(s, a); }
  }

  lemma CheckInv(s: Sys, a: Addr)
    requires Inv(s) && s.recon.Upserting? && a in s.recon.todo
    ensures Inv(Check(s, a))
  {
    hide AddrOk, NoteOk, StoreOk, LockOk;
    var t := Check(s, a);
    StoreKept(s, t);
    assert ReconOk(t);
    forall b: Addr ensures AddrOk(t, b) {
      assert AddrOk(s, b);
      if Mirror.Vetoes(s.tombs, a, s.recon.start) { VetoedAddr(s, a, b); } else { PassedAddr(s, a, b); }
    }
  }

  /** What an upsert changes: one entry, the progress, and what history knows of the
      block when it is cut short. */
  lemma SetRecord(s: Sys, room: bool, shed: set<Addr>)
    requires s.recon.Setting? && s.recon.addr in s.recon.snap
    ensures var t, r, a := SetTo(s, room, shed), s.recon, s.recon.addr;
            && t == s.(mirror := t.mirror, recon := t.recon, store := t.store, lost := t.lost, missing := t.missing)
            && t.recon == Upserting(r.start, r.gen, r.snap, r.todo - {a}, r.ok && room)
            && t.mirror == (if room then (s.mirror - shed)[a := r.snap[a]] else s.mirror - shed)
            && if room && Shortens(s)
               then t.store == s.store[a := s.store[a].(status := Unknown)] && t.lost == s.lost + {a} && t.missing == s.missing + {a}
               else t.store == s.store && t.lost == s.lost && t.missing == s.missing
  {
    hide Shortens;
  }

  lemma SetShape(s: Sys, room: bool, shed: set<Addr>)
    requires MaySet(s, room, shed)
    ensures var t, r := SetTo(s, room, shed), s.recon;
            && SameStore(s, t) && t.complete == s.complete && t.seeded == s.seeded
            && t.recon == Upserting(r.start, r.gen, r.snap, r.todo - {r.addr}, r.ok && room)
            && s.lost <= t.lost <= s.lost + {r.addr} && s.missing <= t.missing <= s.missing + {r.addr} && t.tombs == s.tombs
            && (forall a | a in s.store && a != r.addr :: t.store[a] == s.store[a])
            && (forall a | a in s.mirror && a !in shed && a != r.addr :: a in t.mirror && t.mirror[a] == s.mirror[a])
  {
    hide SetTo, Lapsed;
    SetRecord(s, room, shed);
  }

  /** An upsert of another address only gives up expired entries. */
  lemma SetKeeps(s: Sys, room: bool, shed: set<Addr>, a: Addr)
    requires MaySet(s, room, shed) && ReconOk(s) && s.clock > 0 && a != s.recon.addr && Alive(s, a)
    ensures a in SetTo(s, room, shed).store && (Covered(s, a) ==> Covered(SetTo(s, room, shed), a))
  {
    SetShape(s, room, shed);
    if Covered(s, a) { ShedKeeps(s, s.(mirror := s.mirror - shed), a, shed, s.recon.start); }
  }

  lemma SetOther(s: Sys, room: bool, shed: set<Addr>, a: Addr)
    requires MaySet(s, room, shed) && ReconOk(s) && s.clock > 0 && AddrOk(s, a) && a != s.recon.addr
    ensures AddrOk(SetTo(s, room, shed), a)
  {
    hide Covered, SetTo;
    var t, r := SetTo(s, room, shed), s.recon;
    SetShape(s, room, shed);
    if Alive(s, a) {
      SetKeeps(s, room, shed, a);
      assert VetoOk(s, a, r.start, r.gen) && SnapOk(s, a, r.gen, r.snap, r.todo) && DoneOk(s, a, r.gen, r.todo, r.ok);
      assert VetoOk(t, a, r.start, r.gen);
      assert SnapOk(t, a, r.gen, r.snap, r.todo - {r.addr});
      assert DoneOk(t, a, r.gen, r.todo - {r.addr}, r.ok && room);
      UpsertingCovers(t, a);
    }
  }

  lemma UpsertingCovers(t: Sys, a: Addr)
    requires a in t.store && t.recon.Upserting?
    requires VetoOk(t, a, t.recon.start, t.recon.gen)
    requires SnapOk(t, a, t.recon.gen, t.recon.snap, t.recon.todo) && DoneOk(t, a, t.recon.gen, t.recon.todo, t.recon.ok)
    ensures ScanCovers(t, a)
  {
  }

  /** The upserted address is covered, unless it waits for its notification, was
      lost in a later generation, or is cut short, which history then records. */
  lemma SetSelf(s: Sys, room: bool, shed: set<Addr>)
    requires MaySet(s, room, shed) && ReconOk(s) && s.clock > 0 && AddrOk(s, s.recon.addr) && StoreOk(s, s.recon.addr)
    ensures AddrOk(SetTo(s, room, shed), s.recon.addr)
  {
    var t, r := SetTo(s, room, shed), s.recon;
    var a := r.addr;
    if Alive(s, a) {
      assert VetoOk(s, a, r.start, r.gen) && SnapOk(s, a, r.gen, r.snap, r.todo);
      if room { SetHere(s, shed); } else { SetNowhere(s, shed); }
    }
  }

  lemma SetHere(s: Sys, shed: set<Addr>)
    requires MaySet(s, true, shed) && ReconOk(s)
    requires var a, r := s.recon.addr, s.recon; Alive(s, a) && AddrOk(s, a) && StoreOk(s, a) && SnapOk(s, a, r.gen, r.snap, r.todo)
    ensures AddrOk(SetTo(s, true, shed), s.recon.addr)
  {
    hide ScanCovers, SetTo;
    var t, r := SetTo(s, true, shed), s.recon;
    var a := r.addr;
    SetRecord(s, true, shed);
    assert Untracked(s, a) && !LostAfter(s, a, r.gen) ==> Covered(t, a);
    assert LostAfter(s, a, r.gen) ==> !s.complete;
    UpsertingCovers(t, a);
  }

  lemma SetNowhere(s: Sys, shed: set<Addr>)
    requires MaySet(s, false, shed) && ReconOk(s) && s.clock > 0
    requires var a, r := s.recon.addr, s.recon; Alive(s, a) && AddrOk(s, a) && VetoOk(s, a, r.start, r.gen)
    ensures AddrOk(SetTo(s, false, shed), s.recon.addr)
  {
    hide ScanCovers;
    var t, r := SetTo(s, false, shed), s.recon;
    var a := r.addr;
    assert !Covered(s, a);
    assert DoneOk(t, a, r.gen, r.todo - {a}, false) && SnapOk(t, a, r.gen, r.snap, r.todo - {a}) && VetoOk(t, a, r.start, r.gen);
    UpsertingCovers(t, a);
  }

  lemma SetScannedInv(s: Sys, room: bool, shed: set<Addr>)
    requires Inv(s) && MaySet(s, room, shed)
    ensures Inv(SetTo(s, room, shed))
  {
    hide AddrOk, NoteOk, StoreOk, LockOk;
    var t := SetTo(s, room, shed);
    SetShape(s, room, shed);
    hide SetTo, SameStore;
    StoreKept(s, t);
    assert ReconOk(t);
    forall a: Addr ensures AddrOk(t, a) {
      assert AddrOk(s, a) && StoreOk(s, a);
      if a == s.recon.addr { SetSelf(s, room, shed); } else { SetOther(s, room, shed, a); }
    }
  }

  lemma PruneAddr(s: Sys, a: Addr)
    requires s.recon.Upserting? && AddrOk(s, a)
    ensures AddrOk(Pruned(s), a)
  {
    var t, r := Pruned(s), s.recon;
    if Alive(s, a) {
      assert VetoOk(s, a, r.start, r.gen) && SnapOk(s, a, r.gen, r.snap, r.todo) && DoneOk(s, a, r.gen, r.todo, r.ok);
      assert VetoOk(t, a, r.start, r.gen) && SnapOk(t, a, r.gen, r.snap, r.todo) && DoneOk(t, a, r.gen, r.todo, r.ok);
      hide ScanCovers;
      UpsertingCovers(t, a);
    }
  }

  lemma PruneInv(s: Sys)
    requires Inv(s) && s.recon.Upserting?
    ensures Inv(Pruned(s))
  {
    hide AddrOk, NoteOk, StoreOk, LockOk;
    var t := Pruned(s);
    StoreKept(s, t);
    assert ReconOk(t);
    forall a: Addr ensures AddrOk(t, a) {
      assert AddrOk(s, a);
      PruneAddr(s, a);
    }
  }

  lemma PublishAddr(s: Sys, a: Addr)
    requires s.recon.Upserting? && s.recon.todo == {} && AddrOk(s, a) && StoreOk(s, a)
    ensures AddrOk(Published(s), a)
  {
    var r := s.recon;
    if Alive(s, a) {
      assert DoneOk(s, a, r.gen, r.todo, r.ok);
      hide ScanCovers;
      assert s.generation == r.gen ==> !LostAfter(s, a, r.gen);
      SeedingCovers(Published(s), a);
    }
  }

  lemma SeedingCovers(t: Sys, a: Addr)
    requires a in t.store && t.recon.Seeding?
    ensures ScanCovers(t, a)
  {
  }

  lemma PublishInv(s: Sys)
    requires Inv(s) && s.recon.Upserting? && s.recon.todo == {}
    ensures Inv(Published(s))
  {
    hide AddrOk, NoteOk, StoreOk, LockOk;
    var t := Published(s);
    StoreKept(s, t);
    assert ReconOk(t);
    forall a: Addr ensures AddrOk(t, a) {
      assert AddrOk(s, a) && StoreOk(s, a);
      PublishAddr(s, a);
    }
  }

  lemma SeedInv(s: Sys)
    requires Inv(s) && Enabled(s, Seed)
    ensures Inv(Apply(s, Seed))
  {
    var t := Apply(s, Seed);
    forall n: nat ensures NoteOk(t, n) { assert NoteOk(s, n); }
    forall a: Addr ensures StoreOk(t, a) && AddrOk(t, a) { assert StoreOk(s, a) && AddrOk(s, a); }
  }

  lemma ValidateInv(s: Sys, note: nat, current: bool)
    requires Inv(s) && Enabled(s, Validate(note, current))
    ensures Inv(Apply(s, Validate(note, current)))
  {
    hide AddrOk, StoreOk;
    if current {
      assert NoteOk(s, note) && s.mirror - {} == s.mirror;
      LockInv(s, Apply(s, Validate(note, current)), {});
    } else {
      StaleInv(s, note);
    }
  }

  lemma StampInv(s: Sys, note: nat)
    requires Inv(s) && Enabled(s, Stamp(note))
    ensures Inv(Apply(s, Stamp(note)))
  {
    hide AddrOk;
    assert NoteOk(s, note) && StoreOk(s, s.notes[note].addr) && s.mirror - {} == s.mirror;
    LockInv(s, Apply(s, Stamp(note)), {});
  }

  lemma NextInv(s: Sys, e: Event)
    requires Inv(s) && Enabled(s, e)
    ensures Inv(Apply(s, e))
  {
    hide AddrOk, NoteOk, StoreOk;
    match e
    case Tick(_) => TickInv(s, e);
    case Commit(_, _, _, _, _) => CommitInv(s, e);
    case Unblock(_, _) => UnblockInv(s, e);
    case Validate(note, current) => ValidateInv(s, note, current);
    case ValidateFails(note) => DropInv(s, note);
    case Stamp(note) => StampInv(s, note);
    case ApplyAdd(note) => ApplyAddInv(s, note);
    case MarkIncomplete(note) => DropInv(s, note);
    case RemoveEntry(_) => RemoveEntryInv(s, e);
    case WriteTomb(_, _) => WriteTombInv(s, e);
    case Scan(all, seen) => TakeInv(s, all, seen);
    case Sweep => SweepInv(s, e);
    case EndSweep => EndSweepInv(s, e);
    case CheckTomb(a) => CheckInv(s, a);
    case SetScanned =>
      var a, start := s.recon.addr, s.recon.start;
      ShedLapses(s, a, start);
      SetScannedInv(s, Fits(s, a, start), ShedFor(s, a, start));
    case PruneTombs => PruneInv(s);
    case Publish => PublishInv(s);
    case Seed => SeedInv(s);
    case _ => ScanInv(s, e);
  }

  lemma {:induction false} RunInv(s: Sys, es: seq<Event>, t: Sys)
    requires Inv(s) && Run(s, es, t)
    ensures Inv(t)
    decreases |es|
  {
    if es != [] {
      NextInv(s, es[0]);
      RunInv(Apply(s, es[0]), es[1..], t);
    }
  }

  lemma InitInv(s: Sys)
    requires Init(s)
    ensures Inv(s)
  {
    forall a: Addr ensures StoreOk(s, a) && AddrOk(s, a) { }
  }

  lemma ReachableInv(t: Sys)
    requires Reachable(t)
    ensures Inv(t)
  {
    var s, es :| Init(s) && Run(s, es, t);
    InitInv(s);
    RunInv(s, es, t);
  }

  /** While the mirror alone answers for misses, every live block that the reconcile
      behind it did not lose, and that no upsert cut short since, is in it for the
      whole of its life or has its notification pending: for all interleavings of
      scans, capacity drops, failed validations, commits, expiries and unblocks. */
  lemma MirrorComplete(t: Sys, a: Addr)
    requires Reachable(t) && !ReadThrough(t) && Alive(t, a) && a !in t.missing
    ensures || Covered(t, a)
            || exists n :: n in t.notes && t.notes[n] == AddNote(a, t.store[a].owner, t.store[a].reason, t.store[a].ttl)
  {
    ReachableInv(t);
    assert AddrOk(t, a);
  }

  /** A covered block is found in the mirror for as long as it lives. */
  lemma CoveredIsFound(t: Sys, a: Addr, now: int)
    requires a in t.store && Covered(t, a) && Lives(t.store[a], now)
    ensures !Mirror.Expired(t.mirror[a], now)
  {
  }
}
