/** The bounded count-min sketch that counts keys shed by the full counter cache.

    `column` stands for the seeded hashes: any function from rows and keys to
    columns. Time is read before the cache lock is taken, so the times of
    successive increments need not be ordered. */
module OverflowSketch {

  type Key = string

  const DEPTH: nat := 4
  const WIDTH: nat := 0x4000
  const MAX_COUNT: nat := 0x7fff_ffff_ffff_ffff

  datatype Cell = Cell(n: nat, expires: int)

  /** One counted event. `ttl` is positive: the cache floors it. */
  datatype Op = Op(key: Key, now: nat, ttl: nat)

  type Grid = (nat, nat) -> Cell
  type Hash = (nat, Key) -> nat

  function Column(column: Hash, row: nat, key: Key): nat { column(row, key) % WIDTH }

  predicate Lapsed(c: Cell, now: nat) { c.n == 0 || (c.expires > 0 && now >= c.expires) }

  function BumpCell(c: Cell, now: nat, ttl: nat): Cell {
    var c1 := if Lapsed(c, now) then Cell(0, 0) else c;
    var expires := if ttl > 0 then Max(c1.expires, now + ttl) else c1.expires;
    Cell(if c1.n < MAX_COUNT then c1.n + 1 else c1.n, expires)
  }

  function Max(a: int, b: int): int { if a >= b then a else b }
  function Min(a: nat, b: nat): nat { if a <= b then a else b }

  function BumpGrid(g: Grid, column: Hash, op: Op): Grid {
    (r: nat, c: nat) => if r < DEPTH && c == Column(column, r, op.key) then BumpCell(g(r, c), op.now, op.ttl) else g(r, c)
  }

  /** The cells after a history of increments. */
  function GridOf(column: Hash, h: seq<Op>): Grid {
    if h == [] then (r: nat, c: nat) => Cell(0, 0)
    else BumpGrid(GridOf(column, h[..|h| - 1]), column, h[|h| - 1])
  }

  /** The least count in the first `rows` rows of `key`, saturating. */
  function Least(g: Grid, column: Hash, rows: nat, key: Key): nat {
    if rows == 0 then MAX_COUNT
    else Min(Least(g, column, rows - 1, key), g(rows - 1, Column(column, rows - 1, key)).n)
  }

  // ---------- what a counter of one key alone would say ----------

  /** The unbroken chain of increments of a key. Its own increments continue it while
      they come before its latest deadline; another key's increment breaks it when
      the time it carries has reached that deadline. */
  function Chain(h: seq<Op>, key: Key): Cell {
    if h == [] then Cell(0, 0)
    else
      var op, c := h[|h| - 1], Chain(h[..|h| - 1], key);
      if op.key != key then if c.n > 0 && op.now >= c.expires then Cell(0, 0) else c
      else if c.n > 0 && op.now < c.expires then Cell(c.n + 1, Max(c.expires, op.now + op.ttl))
      else Cell(1, op.now + op.ttl)
  }

  /** The chain by the key's own clock readings: other keys do not matter. */
  function OwnChain(h: seq<Op>, key: Key): Cell {
    if h == [] then Cell(0, 0)
    else
      var op, c := h[|h| - 1], OwnChain(h[..|h| - 1], key);
      if op.key != key then c
      else if c.n > 0 && op.now < c.expires then Cell(c.n + 1, Max(c.expires, op.now + op.ttl))
      else Cell(1, op.now + op.ttl)
  }

  ghost predicate Positive(h: seq<Op>) { forall i :: 0 <= i < |h| ==> h[i].ttl > 0 }

  /** Clock readings come in the order in which the lock is taken. */
  ghost predicate InOrder(h: seq<Op>) { forall i, j :: 0 <= i < j < |h| ==> h[i].now <= h[j].now }

  /** No cell of a key holds less than its chain or lapses before it. */
  lemma {:induction false} CellCoversChain(column: Hash, h: seq<Op>, key: Key, row: nat)
    requires Positive(h) && row < DEPTH
    ensures var cell := GridOf(column, h)(row, Column(column, row, key));
            && cell.n <= MAX_COUNT
            && (Chain(h, key).n > 0 ==> cell.n >= Min(Chain(h, key).n, MAX_COUNT) && cell.expires >= Chain(h, key).expires > 0)
  {
    if h != [] {
      CellCoversChain(column, h[..|h| - 1], key, row);
    }
  }

  /** When the readings come in lock order, a chain that is live by the key's own
      clock is unbroken. */
  lemma {:induction false} OrderedChainIsOwn(h: seq<Op>, key: Key, now: nat)
    requires InOrder(h) && (forall i :: 0 <= i < |h| ==> h[i].now <= now)
    requires OwnChain(h, key).n > 0 && now < OwnChain(h, key).expires
    ensures Chain(h, key) == OwnChain(h, key)
  {
    if h != [] {
      var front, op := h[..|h| - 1], h[|h| - 1];
      assert forall i :: 0 <= i < |front| ==> front[i] == h[i] && front[i].now <= op.now;
      var c := OwnChain(front, key);
      if c.n > 0 && op.now < c.expires {
        OrderedChainIsOwn(front, key, op.now);
      } else {
        ChainLapsed(front, key, op.now);
      }
    }
  }

  /** A chain never outlasts the own one. */
  lemma ChainLapsed(h: seq<Op>, key: Key, now: nat)
    requires OwnChain(h, key).n == 0 || now >= OwnChain(h, key).expires
    ensures Chain(h, key).n == 0 || now >= Chain(h, key).expires
  {
    ChainBelowOwn(h, key);
  }

  lemma {:induction false} ChainBelowOwn(h: seq<Op>, key: Key)
    ensures Chain(h, key).n > 0 ==> OwnChain(h, key).n > 0 && Chain(h, key).expires <= OwnChain(h, key).expires
    ensures Chain(h, key).n <= OwnChain(h, key).n || OwnChain(h, key).n == 0
  {
    if h != [] { ChainBelowOwn(h[..|h| - 1], key); }
  }

  lemma {:induction false} LeastIsLeast(g: Grid, column: Hash, rows: nat, key: Key, bound: nat)
    requires bound <= MAX_COUNT
    ensures (forall r: nat :: r < rows ==> g(r, Column(column, r, key)).n >= bound) ==> Least(g, column, rows, key) >= bound
    ensures Least(g, column, rows, key) == 0 ==> exists r: nat :: r < rows && g(r, Column(column, r, key)).n == 0
  {
    if rows > 0 { LeastIsLeast(g, column, rows - 1, key, bound); }
  }

  /** For any hashes and any interleaving of keys, the count returned for an
      increment is at least the length of its key's chain. */
  lemma NeverUnderCounts(column: Hash, h: seq<Op>, op: Op)
    requires Positive(h + [op])
    ensures var h' := h + [op];
            Least(GridOf(column, h'), column, DEPTH, op.key) >= Min(Chain(h', op.key).n, MAX_COUNT)
  {
    var h' := h + [op];
    var bound := Min(Chain(h', op.key).n, MAX_COUNT);
    forall r: nat | r < DEPTH ensures GridOf(column, h')(r, Column(column, r, op.key)).n >= bound {
      CellCoversChain(column, h', op.key, r);
    }
    LeastIsLeast(GridOf(column, h'), column, DEPTH, op.key, bound);
  }

  /** With the readings in lock order, that is the key's own live count. */
  lemma OwnCountWhenOrdered(column: Hash, h: seq<Op>, op: Op)
    requires Positive(h + [op]) && InOrder(h + [op])
    ensures var h' := h + [op];
            Least(GridOf(column, h'), column, DEPTH, op.key) >= Min(OwnChain(h', op.key).n, MAX_COUNT)
  {
    var h' := h + [op];
    NeverUnderCounts(column, h, op);
    assert h'[|h'| - 1] == op && op.ttl > 0;
    assert forall i :: 0 <= i < |h'| ==> h'[i].now <= op.now;
    OrderedChainIsOwn(h', op.key, op.now);
  }

  /** What the read-only probe answers. */
  function Probe(g: Grid, column: Hash, rows: nat, key: Key, now: nat): nat {
    if rows == 0 then MAX_COUNT
    else if Probe(g, column, rows - 1, key, now) == 0 || Lapsed(g(rows - 1, Column(column, rows - 1, key)), now) then 0
    else Min(Probe(g, column, rows - 1, key, now), g(rows - 1, Column(column, rows - 1, key)).n)
  }

  lemma {:induction false} ProbeCovers(g: Grid, column: Hash, rows: nat, key: Key, now: nat, bound: nat)
    requires 0 < bound <= MAX_COUNT
    requires forall r: nat :: r < rows ==> !Lapsed(g(r, Column(column, r, key)), now) && g(r, Column(column, r, key)).n >= bound
    ensures Probe(g, column, rows, key, now) >= bound
  {
    if rows > 0 { ProbeCovers(g, column, rows - 1, key, now, bound); }
  }

  /** The probe is the least count of the key's cells, and zero as soon as one has lapsed. */
  lemma {:induction false} ProbeIsLeast(g: Grid, column: Hash, rows: nat, key: Key, now: nat)
    ensures (exists r: nat :: r < rows && Lapsed(g(r, Column(column, r, key)), now)) ==> Probe(g, column, rows, key, now) == 0
    ensures (forall r: nat :: r < rows ==> !Lapsed(g(r, Column(column, r, key)), now)) ==> Probe(g, column, rows, key, now) == Least(g, column, rows, key) > 0
  {
    if rows > 0 { ProbeIsLeast(g, column, rows - 1, key, now); }
  }

  /** Left alone in its cells, a key is told exactly its own count, and read as it while
      that lives and as nothing afterwards. */
  lemma AloneIsExact(h: seq<Op>, key: Key, now: nat)
    requires Positive(h)
    ensures var column, own := PairUp(key, key), OwnChain(h, key);
            && Least(GridOf(column, h), column, DEPTH, key) == Min(own.n, MAX_COUNT)
            && Probe(GridOf(column, h), column, DEPTH, key, now) == if own.n > 0 && now < own.expires then Min(own.n, MAX_COUNT) else 0
  {
    var column, own := PairUp(key, key), OwnChain(h, key);
    var g := GridOf(column, h);
    forall r: nat | r < DEPTH ensures Column(column, r, key) == 0 && g(r, 0) == Cell(Min(own.n, MAX_COUNT), own.expires) { AloneCell(h, key, r); }
    hide GridOf, OwnChain;
    SameInAllRows(g, column, DEPTH, key, Min(own.n, MAX_COUNT));
    ProbeIsLeast(g, column, DEPTH, key, now);
    assert own.n > 0 ==> own.expires > 0 by { AloneCell(h, key, 0); }
    if !(own.n > 0 && now < own.expires) { assert Lapsed(g(0, Column(column, 0, key)), now); }
  }

  lemma {:induction false} AloneCell(h: seq<Op>, key: Key, r: nat)
    requires Positive(h) && r < DEPTH
    ensures var own := OwnChain(h, key);
            && Column(PairUp(key, key), r, key) == 0
            && GridOf(PairUp(key, key), h)(r, 0) == Cell(Min(own.n, MAX_COUNT), own.expires) && (own.n > 0 ==> own.expires > 0)
  {
    if h != [] { AloneCell(h[..|h| - 1], key, r); }
  }

  lemma {:induction false} SameInAllRows(g: Grid, column: Hash, rows: nat, key: Key, n: nat)
    requires n <= MAX_COUNT && forall r: nat | r < rows :: g(r, Column(column, r, key)).n == n
    ensures Least(g, column, rows, key) == if rows == 0 then MAX_COUNT else n
  {
    if rows > 0 { SameInAllRows(g, column, rows - 1, key, n); }
  }

  /** A zero answer is a proof that the key has no live count in the sketch. */
  lemma ZeroProbeMeansNoLiveCount(column: Hash, h: seq<Op>, key: Key, now: nat)
    requires Positive(h) && Probe(GridOf(column, h), column, DEPTH, key, now) == 0
    ensures Chain(h, key).n == 0 || now >= Chain(h, key).expires
  {
    if Chain(h, key).n > 0 && now < Chain(h, key).expires {
      forall r: nat | r < DEPTH
        ensures !Lapsed(GridOf(column, h)(r, Column(column, r, key)), now)
             && GridOf(column, h)(r, Column(column, r, key)).n >= Min(Chain(h, key).n, MAX_COUNT)
      {
        CellCoversChain(column, h, key, r);
      }
      ProbeCovers(GridOf(column, h), column, DEPTH, key, now, Min(Chain(h, key).n, MAX_COUNT));
    }
  }

  /** Why the order matters: a request that read its clock at 5 and takes the lock
      after a colliding key's request that read it at 20 is told 2, although it is
      the fourth of its own live window, which lasts until 15. */
  function Late(key: Key, other: Key): seq<Op> { Three(key) + [Op(other, 20, 10)] + [Op(key, 5, 10)] }

  function Three(key: Key): seq<Op> { [] + [Op(key, 0, 10)] + [Op(key, 0, 10)] + [Op(key, 0, 10)] }

  function OneColumn(): Hash { (r: nat, k: Key) => 0 }

  lemma StaleReadUnderCounts(key: Key, other: Key)
    requires key != other
    ensures Positive(Late(key, other))
    ensures OwnChain(Late(key, other), key) == Cell(4, 15)
    ensures Least(GridOf(OneColumn(), Late(key, other)), OneColumn(), DEPTH, key) == 2
  {
    OwnLate(key, other);
    hide GridOf, OwnChain;
    forall r: nat | r < DEPTH ensures GridOf(OneColumn(), Late(key, other))(r, 0) == Cell(2, 30) { LateCell(key, other, r); }
    SameInAllRows(GridOf(OneColumn(), Late(key, other)), OneColumn(), DEPTH, key, 2);
  }

  lemma OwnLate(key: Key, other: Key)
    requires key != other
    ensures OwnChain(Late(key, other), key) == Cell(4, 15)
  {
    OwnThree(key);
    hide OwnChain, Three;
    OwnStep(Three(key), Op(other, 20, 10), key);
    OwnStep(Three(key) + [Op(other, 20, 10)], Op(key, 5, 10), key);
  }

  lemma OwnThree(key: Key)
    ensures OwnChain(Three(key), key) == Cell(3, 10)
  {
    var a := Op(key, 0, 10);
    OwnNone(key);
    hide OwnChain;
    OwnStep([], a, key);
    OwnStep([] + [a], a, key);
    OwnStep([] + [a] + [a], a, key);
  }

  lemma OwnNone(key: Key)
    ensures OwnChain([], key) == Cell(0, 0)
  {
  }

  lemma OwnStep(h: seq<Op>, op: Op, key: Key)
    ensures var c := OwnChain(h, key);
            OwnChain(h + [op], key) ==
              if op.key != key then c
              else if c.n > 0 && op.now < c.expires then Cell(c.n + 1, Max(c.expires, op.now + op.ttl))
              else Cell(1, op.now + op.ttl)
  {
    assert (h + [op])[..|h|] == h;
  }

  lemma LateCell(key: Key, other: Key, r: nat)
    requires r < DEPTH
    ensures GridOf(OneColumn(), Late(key, other))(r, 0) == Cell(2, 30)
  {
    ThreeCell(key, r);
    hide GridOf, Three;
    GridStep(OneColumn(), Three(key), Op(other, 20, 10), r);
    GridStep(OneColumn(), Three(key) + [Op(other, 20, 10)], Op(key, 5, 10), r);
  }

  lemma ThreeCell(key: Key, r: nat)
    requires r < DEPTH
    ensures GridOf(OneColumn(), Three(key))(r, 0) == Cell(3, 10)
  {
    var a, c := Op(key, 0, 10), OneColumn();
    GridNone(c, r);
    hide GridOf;
    GridStep(c, [], a, r);
    GridStep(c, [] + [a], a, r);
    GridStep(c, [] + [a] + [a], a, r);
  }

  lemma GridNone(column: Hash, r: nat)
    ensures GridOf(column, [])(r, 0) == Cell(0, 0)
  {
  }

  lemma GridStep(column: Hash, h: seq<Op>, op: Op, r: nat)
    requires r < DEPTH && Column(column, r, op.key) == 0
    ensures GridOf(column, h + [op])(r, 0) == BumpCell(GridOf(column, h)(r, 0), op.now, op.ttl)
  {
    assert (h + [op])[..|h|] == h;
  }

  // ---------- exactly when a key can be told less than its own count ----------

  ghost predicate TellsLess(column: Hash, h: seq<Op>, key: Key) {
    Least(GridOf(column, h), column, DEPTH, key) < Min(OwnChain(h, key).n, MAX_COUNT)
  }

  /** One cell that the key shares with some others. */
  function Folded(h: seq<Op>, key: Key, others: set<Key>): Cell {
    if h == [] then Cell(0, 0)
    else
      var op, c := h[|h| - 1], Folded(h[..|h| - 1], key, others);
      if op.key == key || op.key in others then BumpCell(c, op.now, op.ttl) else c
  }

  ghost predicate FoldsToLess(h: seq<Op>, key: Key, others: set<Key>) {
    Folded(h, key, others).n < Min(OwnChain(h, key).n, MAX_COUNT)
  }

  lemma {:induction false} CellIsFolded(column: Hash, h: seq<Op>, key: Key, row: nat, others: set<Key>)
    requires row < DEPTH
    requires forall i :: 0 <= i < |h| && h[i].key != key ==>
      (h[i].key in others <==> Column(column, row, h[i].key) == Column(column, row, key))
    ensures GridOf(column, h)(row, Column(column, row, key)) == Folded(h, key, others)
  {
    if h != [] {
      var front := h[..|h| - 1];
      assert forall i :: 0 <= i < |front| ==> front[i] == h[i];
      CellIsFolded(column, front, key, row, others);
    }
  }

  /** For every history: there are hashes with which the sketch tells the key less than
      its own count exactly when some set of keys sharing one cell with it does. */
  lemma UnderCountsExactly(h: seq<Op>, key: Key)
    ensures (exists column :: TellsLess(column, h, key)) <==> (exists others :: FoldsToLess(h, key, others))
  {
    if column :| TellsLess(column, h, key) { ColliderTellsLess(column, h, key); }
    if others :| FoldsToLess(h, key, others) {
      var column: Hash := (r: nat, k: Key) => if k == key || k in others then 0 else 1;
      CellIsFolded(column, h, key, 0, others);
      LeastAtMost(GridOf(column, h), column, DEPTH, key, 0);
      assert TellsLess(column, h, key);
    }
  }

  lemma ColliderTellsLess(column: Hash, h: seq<Op>, key: Key)
    requires TellsLess(column, h, key)
    ensures exists others :: FoldsToLess(h, key, others)
  {
    var bound := Min(OwnChain(h, key).n, MAX_COUNT);
    LeastIsLeast(GridOf(column, h), column, DEPTH, key, bound);
    var r: nat :| r < DEPTH && GridOf(column, h)(r, Column(column, r, key)).n < bound;
    var others := set i | 0 <= i < |h| && Column(column, r, h[i].key) == Column(column, r, key) :: h[i].key;
    CellIsFolded(column, h, key, r, others);
    assert FoldsToLess(h, key, others);
  }

  // ---------- and when one late request can cost it some ----------

  /** The two keys share their cells, with no other key. */
  function PairUp(key: Key, other: Key): Hash { (r: nat, k: Key) => if k == key || k == other then 0 else 1 }

  lemma {:induction false} PairCell(h: seq<Op>, key: Key, other: Key, r: nat)
    requires Positive(h) && r < DEPTH && forall i :: 0 <= i < |h| ==> h[i].key != other
    ensures var own := OwnChain(h, key);
            GridOf(PairUp(key, other), h)(r, 0) == Cell(Min(own.n, MAX_COUNT), own.expires) && (own.n > 0 ==> own.expires > 0)
  {
    if h != [] { PairCell(h[..|h| - 1], key, other, r); }
  }

  /** A cell after a late request of another key and one of `key`. */
  lemma CellAfterLate(column: Hash, h: seq<Op>, late: Op, op: Op, row: nat)
    requires Positive(h + [late] + [op]) && row < DEPTH && late.key != op.key
    ensures var c := Column(column, row, op.key);
            var cell := GridOf(column, h)(row, c);
            var cell1 := if Column(column, row, late.key) == c then BumpCell(cell, late.now, late.ttl) else cell;
            GridOf(column, h + [late] + [op])(row, c) == BumpCell(cell1, op.now, op.ttl)
  {
    assert (h + [late] + [op])[..|h| + 1] == h + [late] && (h + [late])[..|h|] == h;
  }

  /** A key's live window of at least two, a late request of another key that carries a
      time past it, and a request of the key that still belongs to it: exactly then
      there are hashes with which the key is told less than its own count. */
  lemma StaleReadExactly(h: seq<Op>, late: Op, op: Op)
    requires Positive(h + [late] + [op]) && late.key != op.key && forall i :: 0 <= i < |h| ==> h[i].key != late.key
    requires Chain(h, op.key) == OwnChain(h, op.key)
    ensures var h', own := h + [late] + [op], OwnChain(h, op.key);
            (exists column :: TellsLess(column, h', op.key)) <==> own.n >= 2 && op.now < own.expires <= late.now
  {
    var h', own := h + [late] + [op], OwnChain(h, op.key);
    if own.n >= 2 && op.now < own.expires <= late.now {
      LateTellsLess(h, late, op);
    } else {
      forall column ensures !TellsLess(column, h', op.key) { LateIsHarmless(column, h, late, op); }
    }
  }

  lemma Paired(key: Key, other: Key)
    ensures Column(PairUp(key, other), 0, key) == 0 == Column(PairUp(key, other), 0, other)
  {
  }

  lemma ResetByLate(cell: Cell, late: Op, op: Op)
    requires late.ttl > 0 && op.ttl > 0
    ensures op.now < cell.expires <= late.now ==> BumpCell(BumpCell(cell, late.now, late.ttl), op.now, op.ttl).n == 2
  {
  }

  lemma LateTellsLess(h: seq<Op>, late: Op, op: Op)
    requires Positive(h + [late] + [op]) && late.key != op.key && forall i :: 0 <= i < |h| ==> h[i].key != late.key
    requires OwnChain(h, op.key).n >= 2 && op.now < OwnChain(h, op.key).expires <= late.now
    ensures TellsLess(PairUp(op.key, late.key), h + [late] + [op], op.key)
  {
    hide GridOf, OwnChain, Chain, Least, Positive, Column, PairUp, BumpCell;
    var h', column := h + [late] + [op], PairUp(op.key, late.key);
    PositivePrefix(h, late, op);
    Paired(op.key, late.key);
    ResetByLate(GridOf(column, h)(0, 0), late, op);
    PairCell(h, op.key, late.key, 0);
    CellAfterLate(column, h, late, op, 0);
    assert GridOf(column, h')(0, 0).n == 2;
    OwnStep(h, late, op.key);
    OwnStep(h + [late], op, op.key);
    LeastAtMost(GridOf(column, h'), column, DEPTH, op.key, 0);
  }

  lemma LateIsHarmless(column: Hash, h: seq<Op>, late: Op, op: Op)
    requires Positive(h + [late] + [op]) && late.key != op.key && Chain(h, op.key) == OwnChain(h, op.key)
    requires var own := OwnChain(h, op.key); !(own.n >= 2 && op.now < own.expires <= late.now)
    ensures !TellsLess(column, h + [late] + [op], op.key)
  {
    hide GridOf, OwnChain, Chain, Least, Positive;
    var h' := h + [late] + [op];
    PositivePrefix(h, late, op);
    OwnStep(h, late, op.key);
    OwnStep(h + [late], op, op.key);
    var bound := Min(OwnChain(h', op.key).n, MAX_COUNT);
    forall r: nat | r < DEPTH ensures GridOf(column, h')(r, Column(column, r, op.key)).n >= bound {
      CellCoversChain(column, h, op.key, r);
      CellAfterLate(column, h, late, op, r);
    }
    LeastIsLeast(GridOf(column, h'), column, DEPTH, op.key, bound);
  }

  lemma PositivePrefix(h: seq<Op>, late: Op, op: Op)
    requires Positive(h + [late] + [op])
    ensures Positive(h) && late.ttl > 0 && op.ttl > 0
  {
    var h' := h + [late] + [op];
    assert h'[|h|] == late && h'[|h| + 1] == op;
    assert forall i :: 0 <= i < |h| ==> h'[i] == h[i];
  }

  lemma {:induction false} LeastAtMost(g: Grid, column: Hash, rows: nat, key: Key, r: nat)
    requires r < rows
    ensures Least(g, column, rows, key) <= g(r, Column(column, r, key)).n
  {
    if r < rows - 1 { LeastAtMost(g, column, rows - 1, key, r); }
  }

  // ---------- the class ----------

  class Sketch {
    const column: Hash
    var cells: array2<Cell>
    ghost var history: seq<Op>

    ghost predicate Valid()
      reads this, cells
    {
      && cells.Length0 == DEPTH && cells.Length1 == WIDTH
      && Positive(history)
      && forall r: nat, c: nat :: r < DEPTH && c < WIDTH ==> cells[r, c] == GridOf(column, history)(r, c)
    }

    constructor (column: Hash)
      ensures Valid() && history == [] && fresh(cells)
    {
      this.column := column;
      cells := new Cell[DEPTH, WIDTH]((i, j) => Cell(0, 0));
      history := [];
    }

    /** One pass over the rows, bumping the key's cell in each. */
    method BumpRows(key: Key, now: nat, ttl: nat, ghost g0: Grid) returns (n: nat)
      requires cells.Length0 == DEPTH && cells.Length1 == WIDTH && ttl > 0
      requires forall r: nat, c: nat :: r < DEPTH && c < WIDTH ==> cells[r, c] == g0(r, c)
      modifies cells
      ensures forall r: nat, c: nat :: r < DEPTH && c < WIDTH ==> cells[r, c] == BumpGrid(g0, column, Op(key, now, ttl))(r, c)
      ensures n == Least(BumpGrid(g0, column, Op(key, now, ttl)), column, DEPTH, key)
    {
      ghost var g1 := BumpGrid(g0, column, Op(key, now, ttl));
      n := MAX_COUNT;
      var i := 0;
      while i < DEPTH
        invariant 0 <= i <= DEPTH
        invariant n == Least(g1, column, i, key)
        invariant forall r: nat, c: nat :: r < DEPTH && c < WIDTH ==> cells[r, c] == if r < i then g1(r, c) else g0(r, c)
      {
        var idx := Column(column, i, key);
        var cell := cells[i, idx];
        if cell.n == 0 || (cell.expires > 0 && now >= cell.expires) { cell := Cell(0, 0); }
        cell := cell.(expires := Max(cell.expires, now + ttl));
        if cell.n < MAX_COUNT { cell := cell.(n := cell.n + 1); }
        assert cell == g1(i, idx);
        cells[i, idx] := cell;
        n := Min(n, cell.n);
        i := i + 1;
      }
    }

    method Incr(key: Key, now: nat, ttl: nat) returns (n: nat)
      requires Valid() && ttl > 0
      modifies this`history, cells
      ensures Valid() && history == old(history) + [Op(key, now, ttl)]
      ensures n == Least(GridOf(column, history), column, DEPTH, key)
      ensures n >= Min(Chain(history, key).n, MAX_COUNT)
    {
      ghost var op := Op(key, now, ttl);
      NeverUnderCounts(column, history, op);
      n := BumpRows(key, now, ttl, GridOf(column, history));
      assert (history + [op])[..|history|] == history;
      history := history + [op];
    }

    method Count(key: Key, now: nat) returns (n: nat)
      requires Valid()
      ensures n == Probe(GridOf(column, history), column, DEPTH, key, now)
    {
      n := MAX_COUNT;
      var i := 0;
      ghost var g := GridOf(column, history);
      while i < DEPTH
        invariant 0 <= i <= DEPTH
        invariant n == Probe(g, column, i, key, now)
        invariant n > 0
      {
        var cell := cells[i, Column(column, i, key)];
        if cell.n == 0 || (cell.expires > 0 && now >= cell.expires) {
          ProbeStaysZero(g, column, i + 1, DEPTH, key, now);
          return 0;
        }
        n := Min(n, cell.n);
        i := i + 1;
      }
    }
  }

  lemma {:induction false} ProbeStaysZero(g: Grid, column: Hash, rows: nat, more: nat, key: Key, now: nat)
    requires rows <= more && Probe(g, column, rows, key, now) == 0
    ensures Probe(g, column, more, key, now) == 0
  {
    if rows < more { ProbeStaysZero(g, column, rows, more - 1, key, now); }
  }
}
