/** The segment selector: per host a bounded counter table with its heap. */
module SegmentSelector {
  import opened SpaceSaving
  import opened SelectorHeap

  /** Heap positions and the table of counters point at each other. */
  ghost predicate Linked(heap: seq<Counter>, pos: map<Segment, nat>) {
    && (forall i :: 0 <= i < |heap| ==> heap[i].key in pos && pos[heap[i].key] == i)
    && (forall k | k in pos :: pos[k] < |heap| && heap[pos[k]].key == k)
  }

  /** The estimates the heap holds. */
  function Estimates(heap: seq<Counter>, pos: map<Segment, nat>): Table {
    map k | k in pos && pos[k] < |heap| :: heap[pos[k]].count
  }

  lemma {:induction false} LinkedSize(heap: seq<Counter>, pos: map<Segment, nat>)
    requires Linked(heap, pos)
    ensures |pos| == |heap|
    decreases |heap|
  {
    if heap == [] {
      if k :| k in pos { assert pos[k] < |heap|; }
    } else {
      var last := |heap| - 1;
      var k := heap[last].key;
      LinkedSize(heap[..last], pos - {k});
      assert pos.Keys == (pos - {k}).Keys + {k};
    }
  }

  /** In a linked heap the root is the least of the estimates. */
  lemma RootIsVictim(heap: seq<Counter>, pos: map<Segment, nat>)
    requires Linked(heap, pos) && IsHeap(heap) && |heap| > 0
    ensures IsLeast(Estimates(heap, pos), heap[0].key)
  {
    var t, v := Estimates(heap, pos), heap[0].key;
    forall k | k in t ensures k == v || t[v] < t[k] || (t[v] == t[k] && SegmentLess(v, k)) {
      RootLeast(heap, pos[k]);
      SegmentTotal(v, k);
    }
  }

  class SelectorDomain {
    const capacity: nat
    var heap: seq<Counter>
    var pos: map<Segment, nat>
    /** Everything observed in this domain. */
    ghost var seen: multiset<Segment>

    ghost predicate Valid()
      reads this
    {
      && capacity > 0 && Linked(heap, pos) && IsHeap(heap)
      && Sound(Estimates(heap, pos), capacity, seen)
    }

    constructor (capacity: nat)
      requires capacity > 0
      ensures Valid() && this.capacity == capacity && seen == multiset{} && heap == []
    {
      this.capacity := capacity;
      heap, pos, seen := [], map[], multiset{};
      new;
      assert Estimates(heap, pos) == map[];
      EmptySound(capacity);
    }

    method Swap(i: nat, j: nat)
      requires i < |heap| && j < |heap| && Linked(heap, pos)
      modifies this`heap, this`pos
      ensures Linked(heap, pos) && heap == Swapped(old(heap), i, j)
      ensures Estimates(heap, pos) == Estimates(old(heap), old(pos))
    {
      heap := Swapped(heap, i, j);
      pos := pos[heap[i].key := i][heap[j].key := j];
    }

    method Up(j0: nat)
      requires j0 < |heap| && Linked(heap, pos) && HeapButUp(heap, j0)
      modifies this`heap, this`pos
      ensures Linked(heap, pos) && IsHeap(heap) && |heap| == old(|heap|)
      ensures Estimates(heap, pos) == Estimates(old(heap), old(pos))
    {
      var j := j0;
      while j > 0 && Less(heap[j], heap[Parent(j)])
        invariant j < |heap| == old(|heap|) && Linked(heap, pos) && HeapButUp(heap, j)
        invariant Estimates(heap, pos) == Estimates(old(heap), old(pos))
      {
        UpStep(heap, j);
        Swap(Parent(j), j);
        j := Parent(j);
      }
    }

    /** The child of `i` that comes first, given that `i` has one. */
    method LesserChild(i: nat) returns (j: nat)
      requires 2 * i + 1 < |heap|
      ensures j < |heap| && j > 0 && Parent(j) == i
      ensures forall c :: 0 < c < |heap| && Parent(c) == i ==> AtMost(heap[j], heap[c])
    {
      j := 2 * i + 1;
      SelfAtMost(heap[j]);
      if j + 1 < |heap| {
        SelfAtMost(heap[j + 1]);
        if Less(heap[j + 1], heap[j]) {
          LessAtMost(heap[j + 1], heap[j]);
          j := j + 1;
        }
      }
    }

    method Down(i0: nat) returns (moved: bool)
      requires i0 < |heap| && Linked(heap, pos) && HeapBut(heap, i0)
      modifies this`heap, this`pos
      ensures Linked(heap, pos) && |heap| == old(|heap|)
      ensures Estimates(heap, pos) == Estimates(old(heap), old(pos))
      ensures if moved then IsHeap(heap) else HeapButUp(heap, i0)
    {
      var i := i0;
      while 2 * i + 1 < |heap|
        invariant i0 <= i < |heap| == old(|heap|) && Linked(heap, pos)
        invariant if i == i0 then HeapBut(heap, i) else HeapButDown(heap, i)
        invariant Estimates(heap, pos) == Estimates(old(heap), old(pos))
        decreases |heap| - i
      {
        var j := LesserChild(i);
        if !Less(heap[j], heap[i]) {
          Settles(heap, i, j);
          return i > i0;
        }
        DownStep(heap, i, j);
        Swap(i, j);
        i := j;
      }
      return i > i0;
    }

    method Fix(i: nat)
      requires i < |heap| && Linked(heap, pos) && HeapBut(heap, i)
      modifies this`heap, this`pos
      ensures Linked(heap, pos) && IsHeap(heap) && |heap| == old(|heap|)
      ensures Estimates(heap, pos) == Estimates(old(heap), old(pos))
    {
      var moved := Down(i);
      if !moved { Up(i); }
    }

    /** Counts one segment, giving up the least estimate when the table is full. */
    method Count(k: Segment)
      requires Valid()
      modifies this
      ensures Valid() && seen == old(seen) + multiset{k}
      ensures Estimates(heap, pos) == Step(old(Estimates(heap, pos)), capacity, k, old(Victim(k)))
    {
      hide IsHeap, Sound, HeapBut, HeapButUp, IsLeast, Linked, Step, Estimates;
      ghost var t, victim := Estimates(heap, pos), Victim(k);
      StepOk(heap, pos, capacity, seen, k);
      LinkedSize(heap, pos);
      seen := seen + multiset{k};
      if k in pos {
        CountUp(heap, pos, capacity, k);
        var i := pos[k];
        heap := heap[i := Counter(k, heap[i].count + 1)];
        Fix(i);
      } else if |pos| < capacity {
        CountNew(heap, pos, capacity, k);
        pos := pos[k := |heap|];
        heap := heap + [Counter(k, 1)];
        Up(|heap| - 1);
      } else {
        CountOver(heap, pos, capacity, k);
        pos := (pos - {heap[0].key})[k := 0];
        heap := heap[0 := Counter(k, heap[0].count + 1)];
        Fix(0);
      }
    }

    /** Who gives way to `k` if anyone has to. */
    ghost function Victim(k: Segment): Segment
      reads this
    {
      if heap == [] then k else heap[0].key
    }

    method CountAll(keys: seq<Segment>)
      requires Valid()
      modifies this
      ensures Valid() && seen == old(seen) + multiset(keys)
    {
      hide Linked, IsHeap, Sound, Estimates, Step;
      var i := 0;
      while i < |keys|
        invariant 0 <= i <= |keys| && Valid() && seen == old(seen) + multiset(keys[..i])
      {
        Count(keys[i]);
        assert keys[..i + 1] == keys[..i] + [keys[i]];
        i := i + 1;
      }
      assert keys[..i] == keys;
    }

    /** The chosen segments: the best ranked, at most `maxSegments`, and among
        them, when the table has room for that many, every segment seen in more than
        one of `maxSegments` observations. */
    method Selected(maxSegments: nat) returns (keys: seq<Segment>)
      requires Valid()
      ensures |keys| <= maxSegments
      ensures exists ks :: Ranking(Estimates(heap, pos), ks) && keys <= ks
      ensures |keys| < maxSegments ==> Ranking(Estimates(heap, pos), keys)
      ensures capacity >= maxSegments ==> forall k :: seen[k] * maxSegments > |seen| ==> k in keys
    {
      var t := Estimates(heap, pos);
      var ks := Sorted(t);
      forall k | capacity >= maxSegments && seen[k] * maxSegments > |seen| ensures k in if |ks| > maxSegments then ks[..maxSegments] else ks {
        HeavySelected(t, capacity, maxSegments, seen, ks, k);
      }
      keys := if |ks| > maxSegments then ks[..maxSegments] else ks;
    }
  }

  lemma StepOk(heap: seq<Counter>, pos: map<Segment, nat>, capacity: nat, seen: multiset<Segment>, k: Segment)
    requires capacity > 0 && Linked(heap, pos) && IsHeap(heap) && Sound(Estimates(heap, pos), capacity, seen)
    ensures var t, v := Estimates(heap, pos), if heap == [] then k else heap[0].key;
            && (k !in t && |t| >= capacity ==> v in t)
            && Sound(Step(t, capacity, k, v), capacity, seen + multiset{k})
  {
    var t := Estimates(heap, pos);
    LinkedSize(heap, pos);
    assert t.Keys == pos.Keys;
    if |heap| > 0 { RootIsVictim(heap, pos); }
    hide Sound, IsHeap, Linked;
    StepSound(t, capacity, seen, k, if heap == [] then k else heap[0].key);
  }

  lemma CountUp(heap: seq<Counter>, pos: map<Segment, nat>, capacity: nat, k: Segment)
    requires Linked(heap, pos) && IsHeap(heap) && k in pos
    ensures pos[k] < |heap|
    ensures var next := heap[pos[k] := Counter(k, heap[pos[k]].count + 1)];
            && HeapBut(next, pos[k]) && Linked(next, pos)
            && Estimates(next, pos) == Step(Estimates(heap, pos), capacity, k, heap[0].key)
  {
    Replaced(heap, pos[k], Counter(k, heap[pos[k]].count + 1));
  }

  lemma CountNew(heap: seq<Counter>, pos: map<Segment, nat>, capacity: nat, k: Segment)
    requires Linked(heap, pos) && IsHeap(heap) && k !in pos && |pos| < capacity
    ensures var next, npos := heap + [Counter(k, 1)], pos[k := |heap|];
            && HeapButUp(next, |heap|) && Linked(next, npos) && |Estimates(heap, pos)| < capacity
            && Estimates(next, npos) == Step(Estimates(heap, pos), capacity, k, if heap == [] then k else heap[0].key)
  {
    assert Estimates(heap, pos).Keys == pos.Keys;
    Appended(heap, Counter(k, 1));
  }

  lemma CountOver(heap: seq<Counter>, pos: map<Segment, nat>, capacity: nat, k: Segment)
    requires Linked(heap, pos) && IsHeap(heap) && k !in pos && |pos| >= capacity > 0
    ensures |heap| > 0 && heap[0].key in Estimates(heap, pos)
    ensures var next, npos := heap[0 := Counter(k, heap[0].count + 1)], (pos - {heap[0].key})[k := 0];
            && HeapBut(next, 0) && Linked(next, npos)
            && Estimates(next, npos) == Step(Estimates(heap, pos), capacity, k, heap[0].key)
  {
    LinkedSize(heap, pos);
    assert Estimates(heap, pos).Keys == pos.Keys;
    Replaced(heap, 0, Counter(k, heap[0].count + 1));
  }

  /** A counter no greater than its lesser child is where it belongs. */
  lemma Settles(h: seq<Counter>, i: nat, j: nat)
    requires 0 < j < |h| && Parent(j) == i && !Less(h[j], h[i])
    requires forall c :: 0 < c < |h| && Parent(c) == i ==> AtMost(h[j], h[c])
    ensures HeapBut(h, i) ==> HeapButUp(h, i)
    ensures HeapButDown(h, i) ==> IsHeap(h)
  {
    assert AtMost(h[i], h[j]);
    hide AtMost;
    forall c | 0 < c < |h| && Parent(c) == i ensures InOrder(h, c) { AtMostTransitive(h[i], h[j], h[c]); }
  }

  lemma Replaced(h: seq<Counter>, i: nat, c: Counter)
    requires IsHeap(h) && i < |h|
    ensures HeapBut(h[i := c], i)
  {
    var t := h[i := c];
    hide AtMost;
    forall x | 0 < x < |t| && Parent(x) != i && x != i ensures InOrder(t, x) { assert InOrder(h, x); }
    if i > 0 {
      forall x | 0 < x < |t| && Parent(x) == i ensures AtMost(t[Parent(i)], t[x]) {
        assert InOrder(h, x) && InOrder(h, i);
        AtMostTransitive(h[Parent(i)], h[i], h[x]);
      }
    }
  }

  lemma Appended(h: seq<Counter>, c: Counter)
    requires IsHeap(h)
    ensures HeapButUp(h + [c], |h|)
  {
    var t := h + [c];
    hide AtMost;
    forall x | 0 < x < |t| && x != |h| ensures InOrder(t, x) { assert InOrder(h, x); }
  }

  /** Insertion of one more tracked segment. */
  method Insert(t: Table, ks: seq<Segment>, k: Segment) returns (r: seq<Segment>)
    requires k in t && k !in ks && Ranked(t, ks)
    ensures Ranked(t, r) && forall x :: x in r <==> x in ks || x == k
  {
    var i := |ks|;
    while i > 0 && Ahead(t, k, ks[i - 1])
      invariant 0 <= i <= |ks|
      invariant forall j :: i <= j < |ks| ==> Ahead(t, k, ks[j])
    {
      i := i - 1;
    }
    if i > 0 { Behind(t, ks, k, i); }
    InsertedRanked(t, ks, k, i);
    InsertedMembers(ks, k, i);
    hide Ranked, Ahead;
    r := ks[..i] + [k] + ks[i..];
  }

  lemma InsertedRanked(t: Table, ks: seq<Segment>, k: Segment, i: nat)
    requires k in t && Ranked(t, ks) && i <= |ks|
    requires (forall a :: 0 <= a < i ==> Ahead(t, ks[a], k)) && (forall a :: i <= a < |ks| ==> Ahead(t, k, ks[a]))
    ensures Ranked(t, ks[..i] + [k] + ks[i..])
  {
    hide Ahead;
    var r := ks[..i] + [k] + ks[i..];
    assert forall a :: 0 <= a < |r| ==> r[a] == if a < i then ks[a] else if a == i then k else ks[a - 1];
  }

  lemma InsertedMembers(ks: seq<Segment>, k: Segment, i: nat)
    requires i <= |ks|
    ensures forall x :: x in ks[..i] + [k] + ks[i..] <==> x in ks || x == k
  {
    assert ks == ks[..i] + ks[i..];
  }

  lemma Behind(t: Table, ks: seq<Segment>, k: Segment, i: nat)
    requires k in t && k !in ks && Ranked(t, ks) && 0 < i <= |ks| && !Ahead(t, k, ks[i - 1])
    ensures forall a :: 0 <= a < i ==> Ahead(t, ks[a], k)
  {
    SegmentTotal(ks[i - 1], k);
    forall a | 0 <= a < i ensures Ahead(t, ks[a], k) {
      if a < i - 1 { AheadTransitive(t, ks[a], ks[i - 1], k); }
    }
  }

  lemma AheadTransitive(t: Table, a: Segment, b: Segment, c: Segment)
    requires a in t && b in t && c in t && Ahead(t, a, b) && Ahead(t, b, c)
    ensures Ahead(t, a, c)
  {
    if t[a] == t[b] == t[c] { SegmentTransitive(a, b, c); }
  }

  /** All tracked segments, ranked. */
  method Sorted(t: Table) returns (ks: seq<Segment>)
    ensures Ranking(t, ks)
  {
    ks := [];
    var rest := t.Keys;
    while rest != {}
      invariant rest <= t.Keys
      invariant forall k :: k in ks <==> k in t && k !in rest
      invariant Ranked(t, ks)
      decreases |rest|
    {
      var k :| k in rest;
      rest := rest - {k};
      ks := Insert(t, ks, k);
    }
  }

  /** The selector of a whole training run. */
  class Selector {
    const capacity: nat
    var domains: map<string, SelectorDomain>

    ghost predicate Valid()
      reads this, domains.Values
    {
      && capacity > 0
      && (forall h | h in domains :: domains[h].capacity == capacity && domains[h].Valid())
      && (forall g, h | g in domains && h in domains && g != h :: domains[g] != domains[h])
    }

    constructor (maxSegments: nat)
      ensures Valid() && domains == map[] && capacity == if 4 * maxSegments > 1 then 4 * maxSegments else 1
    {
      capacity := if 4 * maxSegments > 1 then 4 * maxSegments else 1;
      domains := map[];
    }

    ghost function Seen(host: string): multiset<Segment>
      reads this, domains.Values
    {
      if host in domains then domains[host].seen else multiset{}
    }

    /** Counts the three segments of a record under its normalised host. */
    method Observe(host: string, verb: string, route: string)
      requires Valid()
      modifies this, domains.Values
      ensures Valid() && fresh(domains.Values - old(domains.Values))
      ensures Seen(host) == old(Seen(host)) + multiset(SegmentKeys(verb, route))
      ensures forall h | h != host :: Seen(h) == old(Seen(h))
    {
      hide Linked, IsHeap, Sound, Estimates, SegmentKeys;
      if host !in domains {
        var d := new SelectorDomain(capacity);
        domains := domains[host := d];
      }
      var d := domains[host];
      assert d in domains.Values;
      d.CountAll(SegmentKeys(verb, route));
    }
  }
}
