/** The TTL'd key/value store, as its callers see it.

    A store is a finite map from keys to entries. An entry whose expiry has
    passed is the same as an absent one, so every operation below is given the
    live part of the store only (`View`). Each function is one atomic operation
    of the store contract. */
module TtlStore {
  import opened Options

  type Byte = x: int | 0 <= x < 256

  /** Counters are held as numbers, challenge records as bytes, everything else as text. */
  datatype Value = Number(n: int) | Text(text: string) | Blob(bytes: seq<Byte>)

  /** `expires` is an absolute deadline, 0 for an entry that never expires. */
  datatype Entry = Entry(value: Value, expires: int)

  type Store = map<string, Entry>

  /** An entry is still live at its exact expiry tick. */
  predicate Live(e: Entry, now: int) {
    e.expires == 0 || now <= e.expires
  }

  function View(st: Store, now: int): Store {
    map k | k in st && Live(st[k], now) :: st[k]
  }

  function Expiry(ttl: int, now: int): int {
    if ttl <= 0 then 0 else now + ttl
  }

  function Lookup(st: Store, key: string): Option<Value> {
    if key in st then Some(st[key].value) else None
  }

  function Drop(st: Store, key: string): Store {
    map k | k in st && k != key :: st[k]
  }

  /** Create-only when `expected` is None, otherwise an exact-value swap. */
  function CompareAndSwap(st: Store, key: string, expected: Option<Value>, replacement: Value, ttl: int, now: int): (Store, bool) {
    if Lookup(st, key) == expected then (st[key := Entry(replacement, Expiry(ttl, now))], true) else (st, false)
  }

  function CompareAndDelete(st: Store, key: string, expected: Option<Value>): (Store, bool) {
    if expected.Some? && Lookup(st, key) == expected then (Drop(st, key), true) else (st, false)
  }

  datatype IncrReply = IncrFailed | Incr(value: int, applied: bool)

  /** Adds `delta` to the counter of the window that ends at `deadline`. */
  function IncrByDeadline(st: Store, key: string, delta: int, deadline: int, now: int): (Store, IncrReply) {
    if deadline != 0 && now >= deadline then
      if key !in st then (st, Incr(0, false))
      else if st[key].value.Number? then (st, Incr(st[key].value.n, false))
      else (st, IncrFailed)
    else if key !in st then
      (st[key := Entry(Number(delta), deadline)], Incr(delta, true))
    else if st[key].value.Number? then
      var n := st[key].value.n + delta;
      (st[key := st[key].(value := Number(n))], Incr(n, true))
    else (st, IncrFailed)
  }

  /** A late round neither creates nor extends a record past its deadline, and
      no round ever moves the expiry of a record that was already there. */
  lemma IncrKeepsWindow(st: Store, key: string, delta: int, deadline: int, now: int)
    ensures var (st', r) := IncrByDeadline(st, key, delta, deadline, now);
            && (deadline != 0 && now >= deadline ==> st' == st && (r.Incr? ==> !r.applied))
            && (forall k | k in st :: k in st' && st'[k].expires == st[k].expires)
            && (forall k | k in st' && k !in st :: k == key && st'[k].expires == deadline && (deadline == 0 || now < deadline))
            && (r.Incr? && !r.applied ==> st' == st)
            && (r.Incr? && r.applied ==> st'[key].value == Number((if key in st && st[key].value.Number? then st[key].value.n else 0) + delta))
  {
  }

  /** A round in time is applied to every counter, and answers with the new total;
      no round touches another key. */
  lemma IncrCounts(st: Store, key: string, delta: int, deadline: int, now: int)
    requires deadline == 0 || now < deadline
    ensures var (st', r) := IncrByDeadline(st, key, delta, deadline, now);
            && (r.Incr? <==> key !in st || st[key].value.Number?)
            && (r.Incr? ==> r.applied && r.value == (if key in st then st[key].value.n else 0) + delta)
            && (r.Incr? ==> st' == st[key := Entry(Number(r.value), if key in st then st[key].expires else deadline)])
            && (r.IncrFailed? ==> st' == st)
  {
  }

  // ---------- conditional writes ----------

  /** A swap goes through exactly when the key is as expected: not live for a create,
      live with that value otherwise. It writes that key alone; refused, nothing. */
  lemma SwapsWhatWasExpected(st: Store, key: string, expected: Option<Value>, replacement: Value, ttl: int, now: int)
    ensures var (st', swapped) := CompareAndSwap(st, key, expected, replacement, ttl, now);
            && (expected.None? ==> (swapped <==> key !in st))
            && (expected.Some? ==> (swapped <==> key in st && st[key].value == expected.value))
            && (!swapped ==> st' == st)
            && (swapped ==> key in st' && st'[key].value == replacement && st'[key].expires == (if ttl > 0 then now + ttl else 0))
            && (forall k | k != key :: (k in st' <==> k in st) && (k in st ==> st'[k] == st[k]))
  {
  }

  /** A delete goes through exactly when the key is live with the value that was named. */
  lemma DeletesWhatWasExpected(st: Store, key: string, expected: Option<Value>)
    ensures var (st', deleted) := CompareAndDelete(st, key, expected);
            && (deleted <==> expected.Some? && key in st && st[key].value == expected.value)
            && (!deleted ==> st' == st)
            && (deleted ==> key !in st')
            && (forall k | k != key :: (k in st' <==> k in st) && (k in st ==> st'[k] == st[k]))
  {
  }
}
