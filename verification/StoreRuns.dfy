/** The store under any sequence of operations and any passing of time: what a
    create-only write guarantees. */
module StoreRuns {
  import opened Options
  import opened TtlStore

  /** Any user of the store, and the passing of time. */
  datatype Op =
    | Tick(elapsed: nat)
    | Put(key: string, value: Value, ttl: int)
    | Remove(key: string)
    | Swap(key: string, expected: Option<Value>, replacement: Value, ttl: int)
    | Take(key: string, expected: Option<Value>)
    | Count(key: string, delta: int, deadline: int)

  datatype Clocked = Clocked(now: nat, st: Store)

  function Shown(c: Clocked): Store { View(c.st, c.now) }

  function Do(c: Clocked, op: Op): Clocked {
    var live := Shown(c);
    match op
    case Tick(elapsed) => c.(now := c.now + elapsed)
    case Put(key, value, ttl) => c.(st := live[key := Entry(value, Expiry(ttl, c.now))])
    case Remove(key) => c.(st := Drop(live, key))
    case Swap(key, expected, replacement, ttl) => c.(st := CompareAndSwap(live, key, expected, replacement, ttl, c.now).0)
    case Take(key, expected) => c.(st := CompareAndDelete(live, key, expected).0)
    case Count(key, delta, deadline) => c.(st := IncrByDeadline(live, key, delta, deadline, c.now).0)
  }

  ghost predicate Run(cs: seq<Clocked>, ops: seq<Op>) {
    |cs| == |ops| + 1 && forall i :: 0 <= i < |ops| ==> cs[i + 1] == Do(cs[i], ops[i])
  }

  /** The operation is a create of `key`, and it goes through. */
  predicate Creates(c: Clocked, op: Op, key: string) {
    op.Swap? && op.key == key && op.expected.None?
    && CompareAndSwap(Shown(c), key, None, op.replacement, op.ttl, c.now).1
  }

  /** What takes a record away. */
  predicate Ends(op: Op, key: string) { op.Tick? || (op.Remove? && op.key == key) || (op.Take? && op.key == key) }

  /** A live record is only lost to time and to a delete of it. */
  lemma LastsUntilEnded(c: Clocked, op: Op, key: string)
    requires key in Shown(c) && !Ends(op, key)
    ensures key in Shown(Do(c, op))
  {
    hide CompareAndSwap, CompareAndDelete;
    if op.Swap? { SwapsWhatWasExpected(Shown(c), op.key, op.expected, op.replacement, op.ttl, c.now); }
    if op.Take? { DeletesWhatWasExpected(Shown(c), op.key, op.expected); }
    if op.Count? { IncrKeepsWindow(Shown(c), op.key, op.delta, op.deadline, c.now); }
  }

  /** Over any run, of two creates of a key that both go through the first record has
      expired or was deleted in between. */
  lemma {:induction false} CreatedOnceWhileItLasts(cs: seq<Clocked>, ops: seq<Op>, key: string, i: nat, j: nat)
    requires Run(cs, ops) && i < j < |ops| && Creates(cs[i], ops[i], key) && Creates(cs[j], ops[j], key)
    ensures exists k :: i < k < j && Ends(ops[k], key) && key in Shown(cs[k]) && key !in Shown(cs[k + 1])
  {
    hide CompareAndSwap;
    SwapsWhatWasExpected(Shown(cs[i]), key, None, ops[i].replacement, ops[i].ttl, cs[i].now);
    SwapsWhatWasExpected(Shown(cs[j]), key, None, ops[j].replacement, ops[j].ttl, cs[j].now);
    assert key in Shown(cs[i + 1]) && key !in Shown(cs[j]);
    LostBetween(cs, ops, key, i + 1, j);
  }

  lemma {:induction false} LostBetween(cs: seq<Clocked>, ops: seq<Op>, key: string, i: nat, j: nat)
    requires Run(cs, ops) && i <= j < |cs| && key in Shown(cs[i]) && key !in Shown(cs[j])
    ensures exists k :: i <= k < j && Ends(ops[k], key) && key in Shown(cs[k]) && key !in Shown(cs[k + 1])
    decreases j - i
  {
    assert i < j;
    if key in Shown(cs[i + 1]) { LostBetween(cs, ops, key, i + 1, j); }
    else if !Ends(ops[i], key) { LastsUntilEnded(cs[i], ops[i], key); }
  }
}
