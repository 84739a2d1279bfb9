/** The Space-Saving guarantee behind the automatic segment selection, on the
    abstract counter table: a map from tracked segments to their estimates. */
module SpaceSaving {

  datatype Segment = Segment(verb: string, route: string)

  type Table = map<Segment, nat>

  /** The three baselines a record contributes to. `verb` is upper-cased already. */
  function SegmentKeys(verb: string, route: string): (keys: seq<Segment>)
    ensures |keys| == 3
  {
    var v := if verb == "" then "GET" else verb;
    [Segment(v, route), Segment("", route), Segment(v, "")]
  }

  /** A record counts once each for its method on its route, for its route under any
      method and for its method on any route; a missing method is GET. Two records share
      the first of them exactly when they have method and route in common. */
  lemma SegmentsOfARecord(verb: string, route: string, verb2: string, route2: string)
    requires route != ""
    ensures var v := if verb == "" then "GET" else verb;
            && multiset(SegmentKeys(verb, route)) == multiset{Segment(v, route), Segment("", route), Segment(v, "")}
            && (forall i, j :: 0 <= i < j < 3 ==> SegmentKeys(verb, route)[i] != SegmentKeys(verb, route)[j])
            && (SegmentKeys(verb, route)[0] == SegmentKeys(verb2, route2)[0] <==> v == (if verb2 == "" then "GET" else verb2) && route == route2)
  {
  }

  // ---------- the order of segments ----------

  predicate TextLess(a: string, b: string) {
    if b == "" then false
    else if a == "" then true
    else if a[0] != b[0] then a[0] < b[0]
    else TextLess(a[1..], b[1..])
  }

  predicate SegmentLess(a: Segment, b: Segment) {
    if a.verb != b.verb then TextLess(a.verb, b.verb) else TextLess(a.route, b.route)
  }

  lemma {:induction false} TextTotal(a: string, b: string)
    ensures TextLess(a, b) || TextLess(b, a) || a == b
    ensures !(TextLess(a, b) && TextLess(b, a))
  {
    if a != "" && b != "" && a[0] == b[0] {
      TextTotal(a[1..], b[1..]);
      assert a == [a[0]] + a[1..] && b == [b[0]] + b[1..];
    }
  }

  lemma {:induction false} TextTransitive(a: string, b: string, c: string)
    requires TextLess(a, b) && TextLess(b, c)
    ensures TextLess(a, c)
  {
    if a != "" && a[0] == b[0] == c[0] { TextTransitive(a[1..], b[1..], c[1..]); }
  }

  lemma SegmentTotal(a: Segment, b: Segment)
    ensures SegmentLess(a, b) || SegmentLess(b, a) || a == b
    ensures !(SegmentLess(a, b) && SegmentLess(b, a))
  {
    TextTotal(a.verb, b.verb);
    TextTotal(a.route, b.route);
  }

  lemma SegmentTransitive(a: Segment, b: Segment, c: Segment)
    requires SegmentLess(a, b) && SegmentLess(b, c)
    ensures SegmentLess(a, c)
  {
    TextTotal(a.verb, b.verb);
    TextTotal(b.verb, c.verb);
    TextTotal(a.verb, c.verb);
    if a.verb == b.verb == c.verb { TextTransitive(a.route, b.route, c.route); }
    else if a.verb != b.verb && b.verb != c.verb { TextTransitive(a.verb, b.verb, c.verb); }
  }

  /** The tracked segment that gives way: the lowest estimate, and among those the
      first in segment order. There is only one. */
  ghost predicate IsLeast(t: Table, v: Segment) {
    v in t && forall k | k in t :: k == v || t[v] < t[k] || (t[v] == t[k] && SegmentLess(v, k))
  }

  /** The table after observing `k`, when `victim` is the one to give way. */
  function Step(t: Table, capacity: nat, k: Segment, victim: Segment): (r: Table)
    requires k !in t && |t| >= capacity ==> victim in t
  {
    if k in t then t[k := t[k] + 1]
    else if |t| < capacity then t[k := 1]
    else (t - {victim})[k := t[victim] + 1]
  }

  // ---------- sums of estimates ----------

  ghost function Total(t: Table): (n: nat) {
    if t == map[] then 0 else var k :| k in t; t[k] + Total(t - {k})
  }

  lemma {:induction false} TotalWithout(t: Table, k: Segment)
    requires k in t
    ensures Total(t) == t[k] + Total(t - {k})
    decreases |t|
  {
    var p :| p in t && Total(t) == t[p] + Total(t - {p});
    if p != k {
      TotalWithout(t - {p}, k);
      TotalWithout(t - {k}, p);
      assert t - {p} - {k} == t - {k} - {p};
    }
  }

  lemma TotalWith(t: Table, k: Segment, n: nat)
    requires k !in t
    ensures Total(t[k := n]) == Total(t) + n
  {
    hide Total;
    TotalWithout(t[k := n], k);
    assert t[k := n] - {k} == t;
  }

  lemma TotalStep(t: Table, capacity: nat, k: Segment, victim: Segment)
    requires k !in t && |t| >= capacity ==> victim in t
    ensures Total(Step(t, capacity, k, victim)) == Total(t) + 1
  {
    hide Total;
    if k in t {
      TotalChange(t, k, k, t[k] + 1);
      assert (t - {k})[k := t[k] + 1] == t[k := t[k] + 1];
    } else if |t| < capacity {
      TotalWith(t, k, 1);
    } else {
      TotalChange(t, victim, k, t[victim] + 1);
    }
  }

  lemma TotalChange(t: Table, out: Segment, k: Segment, n: nat)
    requires out in t && (k == out || k !in t)
    ensures Total((t - {out})[k := n]) == Total(t) - t[out] + n
  {
    hide Total;
    TotalWithout(t, out);
    TotalWith(t - {out}, k, n);
  }

  lemma {:induction false} TotalAtLeast(t: Table, low: nat)
    requires forall k | k in t :: t[k] >= low
    ensures Total(t) >= |t| * low
    decreases |t|
  {
    hide Total;
    if t != map[] {
      var k :| k in t;
      var u := t - {k};
      TotalWithout(t, k);
      TotalAtLeast(u, low);
      assert t.Keys == u.Keys + {k};
      assert |t| == |u| + 1;
      Unfold(|u|, low);
    }
  }

  // ---------- what the table knows about the stream ----------

  /** `seen` is the multiset of the segments observed so far. */
  ghost predicate Sound(t: Table, capacity: nat, seen: multiset<Segment>) {
    && |t| <= capacity
    && Total(t) == |seen|
    && (forall k | k in t :: seen[k] <= t[k])
    && (forall k :: k !in t && seen[k] > 0 ==> |t| == capacity)
    && (forall k, j :: k !in t && j in t ==> seen[k] <= t[j] || |t| < capacity)
  }

  lemma StepSize(t: Table, capacity: nat, k: Segment, victim: Segment)
    requires k !in t && |t| >= capacity ==> victim in t
    ensures |Step(t, capacity, k, victim)| == if k !in t && |t| < capacity then |t| + 1 else |t|
  {
    var r := Step(t, capacity, k, victim);
    if k in t { assert r.Keys == t.Keys; }
    else if |t| < capacity { assert r.Keys == t.Keys + {k}; }
    else { assert r.Keys == t.Keys - {victim} + {k}; }
  }

  /** Observing a segment keeps every estimate at least the true count, every
      untracked true count at most the lowest estimate of a full table, and the
      estimates summing to the number of observations. */
  lemma StepSound(t: Table, capacity: nat, seen: multiset<Segment>, k: Segment, victim: Segment)
    requires Sound(t, capacity, seen) && capacity > 0
    requires k !in t && |t| >= capacity ==> IsLeast(t, victim)
    ensures Sound(Step(t, capacity, k, victim), capacity, seen + multiset{k})
  {
    var r, now := Step(t, capacity, k, victim), seen + multiset{k};
    TotalStep(t, capacity, k, victim);
    StepSize(t, capacity, k, victim);
    forall j | j in r ensures now[j] <= r[j] {
      if j == k && k !in t && |t| >= capacity { assert seen[k] <= t[victim]; }
    }
    forall a, b | a !in r && b in r && |r| == capacity ensures now[a] <= r[b] {
      if a in t {
        assert now[a] <= t[a];
      } else if |t| == capacity {
        assert b != k ==> now[a] <= t[b];
        assert b == k && k !in t ==> now[a] <= t[victim];
      } else {
        assert now[a] == 0;
      }
    }
  }

  lemma EmptySound(capacity: nat)
    ensures Sound(map[], capacity, multiset{})
  {
  }

  // ---------- the selection ----------

  /** The ranking of the selection: more observations first, then segment order. */
  predicate Ahead(t: Table, a: Segment, b: Segment)
    requires a in t && b in t
  {
    t[a] > t[b] || (t[a] == t[b] && SegmentLess(a, b))
  }

  /** Some tracked segments, each at most once, best first. */
  ghost predicate Ranked(t: Table, ks: seq<Segment>) {
    && (forall i :: 0 <= i < |ks| ==> ks[i] in t)
    && (forall i, j :: 0 <= i < j < |ks| ==> Ahead(t, ks[i], ks[j]))
  }

  /** Every tracked segment exactly once, best first. */
  ghost predicate Ranking(t: Table, ks: seq<Segment>) {
    Ranked(t, ks) && forall k | k in t :: k in ks
  }

  lemma {:induction false} DistinctShare(t: Table, ks: seq<Segment>, low: nat)
    requires forall i :: 0 <= i < |ks| ==> ks[i] in t && t[ks[i]] >= low
    requires forall i, j :: 0 <= i < j < |ks| ==> ks[i] != ks[j]
    ensures Total(t) >= |ks| * low
    decreases |ks|
  {
    if ks != [] {
      var rest := ks[1..];
      TotalWithout(t, ks[0]);
      DistinctShare(t - {ks[0]}, rest, low);
      Unfold(|rest|, low);
    }
  }

  lemma Unfold(n: nat, low: nat)
    ensures (n + 1) * low == n * low + low
  {
  }

  lemma TrackedWhenHeavy(t: Table, capacity: nat, maxSegments: nat, seen: multiset<Segment>, k: Segment)
    requires Sound(t, capacity, seen) && capacity >= maxSegments && seen[k] * maxSegments > |seen|
    ensures k in t
  {
    if k !in t {
      TotalAtLeast(t, seen[k]);
      assert |t| == capacity >= maxSegments;
      assert capacity * seen[k] >= maxSegments * seen[k] by { Scale(maxSegments, capacity, seen[k]); }
    }
  }

  lemma Scale(a: nat, b: nat, c: nat)
    requires a <= b
    ensures a * c <= b * c
  {
    assert b * c == a * c + (b - a) * c;
  }

  /** Every segment with more than its share of the stream, one in `maxSegments`,
      is among the first `maxSegments` of the ranking: whatever the stream was, and
      for any table with room for that many. */
  lemma HeavySelected(t: Table, capacity: nat, maxSegments: nat, seen: multiset<Segment>, ks: seq<Segment>, k: Segment)
    requires Sound(t, capacity, seen) && capacity >= maxSegments
    requires Ranking(t, ks) && seen[k] * maxSegments > |seen|
    ensures k in if |ks| > maxSegments then ks[..maxSegments] else ks
  {
    TrackedWhenHeavy(t, capacity, maxSegments, seen, k);
    var p :| 0 <= p < |ks| && ks[p] == k;
    if p >= maxSegments {
      var front := ks[..maxSegments];
      forall i, j | 0 <= i < j < |front| ensures front[i] != front[j] {
        SegmentTotal(front[i], front[j]);
        assert Ahead(t, ks[i], ks[j]);
      }
      assert forall i :: 0 <= i < |front| ==> Ahead(t, ks[i], ks[p]);
      DistinctShare(t, front, t[k]);
      Scale(seen[k], t[k], maxSegments);
      assert false;
    }
    assert p < maxSegments;
    if |ks| > maxSegments { assert ks[..maxSegments][p] == k; }
  }
}
