/** The indexed min-heap that finds the victim: order on sequences of counters. */
module SelectorHeap {
  import opened SpaceSaving

  datatype Counter = Counter(key: Segment, count: nat)

  predicate Less(a: Counter, b: Counter) {
    if a.count != b.count then a.count < b.count else SegmentLess(a.key, b.key)
  }

  predicate AtMost(a: Counter, b: Counter) { !Less(b, a) }

  lemma LessAtMost(a: Counter, b: Counter)
    requires Less(a, b)
    ensures AtMost(a, b)
  {
    SegmentTotal(a.key, b.key);
  }

  lemma AtMostTransitive(a: Counter, b: Counter, c: Counter)
    requires AtMost(a, b) && AtMost(b, c)
    ensures AtMost(a, c)
  {
    SegmentTotal(a.key, b.key);
    SegmentTotal(b.key, c.key);
    SegmentTotal(a.key, c.key);
    if SegmentLess(a.key, b.key) && SegmentLess(b.key, c.key) { SegmentTransitive(a.key, b.key, c.key); }
  }

  function Parent(i: int): int { (i - 1) / 2 }

  ghost predicate InOrder(h: seq<Counter>, c: int)
    requires 0 < c < |h|
  {
    AtMost(h[Parent(c)], h[c])
  }

  ghost predicate IsHeap(h: seq<Counter>) { forall c :: 0 < c < |h| ==> InOrder(h, c) }

  /** The children of `i` may stand under the parent of `i`. */
  ghost predicate Bridged(h: seq<Counter>, i: int) {
    0 < i < |h| ==> forall c :: 0 < c < |h| && Parent(c) == i ==> AtMost(h[Parent(i)], h[c])
  }

  /** A heap but for `i` and its parent. */
  ghost predicate HeapButUp(h: seq<Counter>, i: int) {
    (forall c :: 0 < c < |h| && c != i ==> InOrder(h, c)) && Bridged(h, i)
  }

  /** A heap but for `i` and its children. */
  ghost predicate HeapButDown(h: seq<Counter>, i: int) {
    (forall c :: 0 < c < |h| && Parent(c) != i ==> InOrder(h, c)) && Bridged(h, i)
  }

  /** A heap but for whatever `i` holds. */
  ghost predicate HeapBut(h: seq<Counter>, i: int) {
    (forall c :: 0 < c < |h| && Parent(c) != i && c != i ==> InOrder(h, c)) && Bridged(h, i)
  }

  function Swapped(h: seq<Counter>, i: int, j: int): seq<Counter>
    requires 0 <= i < |h| && 0 <= j < |h|
  {
    h[i := h[j]][j := h[i]]
  }

  lemma {:induction false} RootLeast(h: seq<Counter>, i: nat)
    requires IsHeap(h) && i < |h|
    ensures AtMost(h[0], h[i])
  {
    hide AtMost;
    if i > 0 {
      RootLeast(h, Parent(i));
      assert InOrder(h, i);
      AtMostTransitive(h[0], h[Parent(i)], h[i]);
    } else {
      assert AtMost(h[0], h[0]) by { SegmentTotal(h[0].key, h[0].key); SelfAtMost(h[0]); }
    }
  }

  lemma SelfAtMost(a: Counter)
    ensures AtMost(a, a)
  {
    SegmentTotal(a.key, a.key);
  }

  /** Lifting a counter past its parent. */
  lemma UpStep(h: seq<Counter>, j: nat)
    requires 0 < j < |h| && HeapButUp(h, j) && Less(h[j], h[Parent(j)])
    ensures HeapButUp(Swapped(h, Parent(j), j), Parent(j))
  {
    var i, t := Parent(j), Swapped(h, Parent(j), j);
    LessAtMost(h[j], h[i]);
    hide AtMost, Less;
    forall c | 0 < c < |t| && c != i ensures InOrder(t, c) {
      if c != j {
        assert InOrder(h, c);
        if Parent(c) == i { AtMostTransitive(h[j], h[i], h[c]); }
      }
    }
    if i > 0 {
      assert InOrder(h, i);
      forall c | 0 < c < |t| && Parent(c) == i ensures AtMost(t[Parent(i)], t[c]) {
        if c != j {
          assert InOrder(h, c);
          AtMostTransitive(h[Parent(i)], h[i], h[c]);
        }
      }
    }
  }

  /** Lowering a counter under its lesser child. */
  lemma DownStep(h: seq<Counter>, i: nat, j: nat)
    requires 0 < j < |h| && Parent(j) == i && HeapBut(h, i) && Less(h[j], h[i])
    requires forall c :: 0 < c < |h| && Parent(c) == i ==> AtMost(h[j], h[c])
    ensures HeapButDown(Swapped(h, i, j), j)
  {
    var t := Swapped(h, i, j);
    LessAtMost(h[j], h[i]);
    hide AtMost, Less;
    assert j > i;
    forall c | 0 < c < |t| && Parent(c) != j ensures InOrder(t, c) {
      if Parent(c) != i && c != i { assert InOrder(h, c); }
    }
    forall c | 0 < c < |t| && Parent(c) == j ensures AtMost(t[Parent(j)], t[c]) {
      assert InOrder(h, c);
    }
  }
}
