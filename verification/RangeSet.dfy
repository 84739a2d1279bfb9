/** The immutable set of address ranges behind the reputation feeds: prefixes are
    turned into ranges, sorted, merged in place and looked up by binary search. */
module RangeSet {

  /** Bits, most significant first: bit `i` is bit `7 - i % 8` of byte `i / 8`. */
  type Bits = seq<bool>
  type Addr = b: Bits | |b| == 128 witness seq(128, _ => false)
  type Addr4 = b: Bits | |b| == 32 witness seq(32, _ => false)

  /** An IPv4 address in the 16-byte space: the mapped block of section 2.5.5.2 of
      RFC 4291, 80 zero bits, 16 one bits and the address. */
  function Mapped(a: Addr4): Addr { Filled(80, false) + Filled(16, true) + a }

  function Filled(n: nat, bit: bool): (b: Bits)
    ensures |b| == n && forall i :: 0 <= i < n ==> b[i] == bit
  {
    if n == 0 then [] else [bit] + Filled(n - 1, bit)
  }

  datatype Prefix =
    | Prefix4(addr4: Addr4, len4: int)
    | Prefix6(addr: Addr, len: int)

  predicate Valid(p: Prefix) {
    match p
    case Prefix4(_, n) => 0 <= n <= 32
    case Prefix6(_, n) => 0 <= n <= 128
  }

  /** Naive membership: the address agrees with the prefix in all of its bits. */
  predicate Covers(p: Prefix, k: Addr)
    requires Valid(p)
  {
    match p
    case Prefix4(a, n) => k[..96 + n] == Mapped(a)[..96 + n]
    case Prefix6(a, n) => k[..n] == a[..n]
  }

  datatype Range = Range(start: Addr, end: Addr)

  // ---------- the byte-wise order of addresses ----------

  /** The order of the first difference. */
  predicate Less(a: Bits, b: Bits)
    requires |a| == |b|
  {
    a != [] && (if a[0] == b[0] then Less(a[1..], b[1..]) else b[0])
  }

  function Pow2(n: nat): nat { if n == 0 then 1 else 2 * Pow2(n - 1) }

  function Num(b: Bits): nat {
    if b == [] then 0 else (if b[0] then Pow2(|b| - 1) else 0) + Num(b[1..])
  }

  lemma {:induction false} NumBound(b: Bits)
    ensures Num(b) < Pow2(|b|)
  {
    if b != [] { NumBound(b[1..]); }
  }

  lemma {:induction false} LessIsNumeric(a: Bits, b: Bits)
    requires |a| == |b|
    ensures Less(a, b) <==> Num(a) < Num(b)
  {
    if a != [] {
      if a[0] == b[0] { LessIsNumeric(a[1..], b[1..]); }
      else { NumBound(a[1..]); NumBound(b[1..]); }
    }
  }

  /** The bytes of an address, each as its number. */
  function Bytes(b: Bits): (r: seq<nat>)
    requires |b| % 8 == 0
    ensures |r| == |b| / 8
  {
    if b == [] then [] else [Num(b[..8])] + Bytes(b[8..])
  }

  /** `bytes.Compare(a, b) < 0` on arrays of the same length. */
  predicate ByteLess(a: seq<nat>, b: seq<nat>)
    requires |a| == |b|
  {
    a != [] && (if a[0] == b[0] then ByteLess(a[1..], b[1..]) else a[0] < b[0])
  }

  lemma {:induction false} LessSplit(a: Bits, b: Bits, n: nat)
    requires |a| == |b| && n <= |a|
    ensures Less(a, b) <==> if a[..n] == b[..n] then Less(a[n..], b[n..]) else Less(a[..n], b[..n])
  {
    if n == 0 {
      assert a[0..] == a && b[0..] == b;
    } else {
      LessSplit(a[1..], b[1..], n - 1);
      assert a[1..][..n - 1] == a[..n][1..] && b[1..][..n - 1] == b[..n][1..];
      assert a[1..][n - 1..] == a[n..] && b[1..][n - 1..] == b[n..];
      assert a[..n] == [a[0]] + a[..n][1..] && b[..n] == [b[0]] + b[..n][1..];
    }
  }

  lemma {:induction false} NumInjective(a: Bits, b: Bits)
    requires |a| == |b|
    ensures Num(a) == Num(b) <==> a == b
  {
    if a != [] {
      NumInjective(a[1..], b[1..]);
      NumBound(a[1..]);
      NumBound(b[1..]);
      assert a == [a[0]] + a[1..] && b == [b[0]] + b[1..];
    }
  }

  /** Comparing byte by byte is comparing bit by bit. */
  lemma {:induction false} BytesInOrder(a: Bits, b: Bits)
    requires |a| == |b| && |a| % 8 == 0
    ensures ByteLess(Bytes(a), Bytes(b)) <==> Less(a, b)
    decreases |a|
  {
    if a != [] {
      LessSplit(a, b, 8);
      LessIsNumeric(a[..8], b[..8]);
      NumInjective(a[..8], b[..8]);
      BytesInOrder(a[8..], b[8..]);
      assert Bytes(a)[1..] == Bytes(a[8..]) && Bytes(b)[1..] == Bytes(b[8..]);
    }
  }

  /** The comparison the code makes, and what it says about the addresses. */
  predicate Before(a: Addr, b: Addr): (r: bool)
    ensures r <==> Num(a) < Num(b)
  {
    BytesInOrder(a, b);
    LessIsNumeric(a, b);
    ByteLess(Bytes(a), Bytes(b))
  }

  // ---------- a prefix as a range ----------

  function Low(b: Bits, n: nat): (r: Bits)
    requires n <= |b|
    ensures |r| == |b|
  {
    b[..n] + Filled(|b| - n, false)
  }

  function High(b: Bits, n: nat): (r: Bits)
    requires n <= |b|
    ensures |r| == |b|
  {
    b[..n] + Filled(|b| - n, true)
  }

  lemma {:induction false} NumFilled(n: nat)
    ensures Num(Filled(n, false)) == 0 && Num(Filled(n, true)) == Pow2(n) - 1
  {
    if n > 0 {
      NumFilled(n - 1);
      assert Filled(n, false)[1..] == Filled(n - 1, false) && Filled(n, true)[1..] == Filled(n - 1, true);
    }
  }

  /** The range of a prefix holds exactly the addresses that share its bits. */
  lemma {:induction false} PrefixRange(p: Bits, k: Bits, n: nat)
    requires |p| == |k| && n <= |p|
    ensures Num(Low(p, n)) <= Num(k) <= Num(High(p, n)) <==> k[..n] == p[..n]
    decreases n
  {
    if n == 0 {
      NumFilled(|p|);
      NumBound(k);
      assert Low(p, 0) == Filled(|p|, false) && High(p, 0) == Filled(|p|, true);
    } else {
      var lo, hi := Low(p[1..], n - 1), High(p[1..], n - 1);
      Tails(p, n);
      hide Low, High, Filled, Num, Pow2;
      NumStep(k);
      NumStep(Low(p, n));
      NumStep(High(p, n));
      if p[0] == k[0] {
        PrefixRange(p[1..], k[1..], n - 1);
        SameHead(p, k, n);
      } else {
        NumBound(k[1..]);
        NumBound(hi);
        assert k[..n][0] != p[..n][0];
      }
    }
  }

  lemma SameHead(p: Bits, k: Bits, n: nat)
    requires 0 < n <= |p| == |k| && p[0] == k[0]
    ensures k[..n] == p[..n] <==> k[1..][..n - 1] == p[1..][..n - 1]
  {
    assert k[..n] == [k[0]] + k[1..][..n - 1];
    assert p[..n] == [p[0]] + p[1..][..n - 1];
  }

  lemma NumStep(b: Bits)
    requires b != []
    ensures Num(b) == (if b[0] then Pow2(|b| - 1) else 0) + Num(b[1..])
  {
  }

  lemma Tails(p: Bits, n: nat)
    requires 0 < n <= |p|
    ensures Low(p, n)[0] == High(p, n)[0] == p[0]
    ensures Low(p, n)[1..] == Low(p[1..], n - 1) && High(p, n)[1..] == High(p[1..], n - 1)
  {
  }

  /** The end of the range sets every bit after the prefix, one by one. */
  method RangeOf(p: Prefix) returns (r: Range)
    requires Valid(p)
    ensures forall k: Addr :: Num(r.start) <= Num(k) <= Num(r.end) <==> Covers(p, k)
    ensures Num(r.start) <= Num(r.end)
  {
    var start: Addr := if p.Prefix4? then Mapped(Low(p.addr4, p.len4)) else Low(p.addr, p.len);
    var bits: nat := if p.Prefix4? then p.len4 + 96 else p.len;
    ghost var whole: Addr := if p.Prefix4? then Mapped(p.addr4) else p.addr;
    assert start == Low(whole, bits);
    var end: Addr := start;
    var i := bits;
    while i < 128
      invariant bits <= i <= 128
      invariant end[..bits] == whole[..bits]
      invariant forall j :: bits <= j < i ==> end[j]
      invariant forall j :: i <= j < 128 ==> !end[j]
    {
      end := end[i := true];
      i := i + 1;
    }
    assert end == High(whole, bits);
    r := Range(start, end);
    forall k: Addr ensures Num(r.start) <= Num(k) <= Num(r.end) <==> Covers(p, k) { PrefixRange(whole, k, bits); }
    PrefixRange(whole, whole, bits);
  }

  // ---------- building the set ----------

  predicate Within(r: Range, x: nat) { Num(r.start) <= x <= Num(r.end) }

  predicate InSome(rs: seq<Range>, x: nat) { exists i :: 0 <= i < |rs| && Within(rs[i], x) }

  predicate Sound(rs: seq<Range>) { forall i :: 0 <= i < |rs| ==> Num(rs[i].start) <= Num(rs[i].end) }

  predicate Sorted(rs: seq<Range>) { forall i, j :: 0 <= i < j < |rs| ==> Num(rs[i].start) <= Num(rs[j].start) }

  /** Strictly ordered and apart from each other. */
  predicate Disjoint(rs: seq<Range>) { forall i, j :: 0 <= i < j < |rs| ==> Num(rs[i].end) < Num(rs[j].start) }

  /** The ranges in start order. */
  method SortRanges(rs: seq<Range>) returns (out: seq<Range>)
    ensures Sorted(out) && multiset(out) == multiset(rs)
  {
    out := [];
    var i := 0;
    while i < |rs|
      invariant 0 <= i <= |rs| && Sorted(out) && multiset(out) == multiset(rs[..i])
    {
      out := InsertRange(out, rs[i]);
      assert rs[..i + 1] == rs[..i] + [rs[i]];
      i := i + 1;
    }
    assert rs[..i] == rs;
  }

  method InsertRange(rs: seq<Range>, r: Range) returns (out: seq<Range>)
    requires Sorted(rs)
    ensures Sorted(out) && multiset(out) == multiset(rs) + multiset{r}
  {
    hide Num, Before, Sorted;
    var i := |rs|;
    while i > 0 && Before(r.start, rs[i - 1].start)
      invariant 0 <= i <= |rs| && (i < |rs| ==> Num(r.start) <= Num(rs[i].start))
    {
      i := i - 1;
    }
    out := rs[..i] + [r] + rs[i..];
    SortedInsert(rs, r, i);
    assert rs == rs[..i] + rs[i..];
  }

  lemma SortedInsert(rs: seq<Range>, r: Range, i: nat)
    requires Sorted(rs) && i <= |rs| && (i > 0 ==> Num(rs[i - 1].start) <= Num(r.start))
    requires i < |rs| ==> Num(r.start) <= Num(rs[i].start)
    ensures Sorted(rs[..i] + [r] + rs[i..])
  {
    hide Num;
    var out := rs[..i] + [r] + rs[i..];
    assert forall a :: 0 <= a < i ==> out[a] == rs[a];
    assert forall a :: i < a < |out| ==> out[a] == rs[a - 1];
    assert forall a :: 0 <= a < i ==> Num(rs[a].start) <= Num(r.start);
    assert forall a :: i <= a < |rs| ==> Num(r.start) <= Num(rs[a].start);
  }

  /** What the first `n` slots owe to the ranges read so far. */
  ghost predicate Merged(out: seq<Range>, seen: seq<Range>) {
    && Sound(out) && Disjoint(out)
    && (forall x: nat :: InSome(out, x) <==> InSome(seen, x))
    && (|seen| > 0 ==> |out| > 0 && Num(out[|out| - 1].start) <= Num(seen[|seen| - 1].start))
  }

  lemma InSomeAppend(rs: seq<Range>, r: Range, x: nat)
    ensures InSome(rs + [r], x) <==> InSome(rs, x) || Within(r, x)
  {
    if InSome(rs, x) {
      var i :| 0 <= i < |rs| && Within(rs[i], x);
      assert (rs + [r])[i] == rs[i];
    }
    if Within(r, x) { assert (rs + [r])[|rs|] == r; }
  }

  lemma MergeApart(out: seq<Range>, seen: seq<Range>, r: Range)
    requires Merged(out, seen) && Num(r.start) <= Num(r.end) && (out != [] ==> Num(out[|out| - 1].end) < Num(r.start))
    ensures Merged(out + [r], seen + [r])
  {
    forall x: nat ensures InSome(out + [r], x) <==> InSome(seen + [r], x) {
      InSomeAppend(out, r, x);
      InSomeAppend(seen, r, x);
    }
    forall i, j | 0 <= i < j < |out + [r]| ensures Num((out + [r])[i].end) < Num((out + [r])[j].start) {
      if j == |out| && i < |out| - 1 { assert Num(out[i].end) < Num(out[|out| - 1].start) <= Num(out[|out| - 1].end); }
    }
  }

  /** Growing the last range by one that starts in it. */
  lemma MergeInto(out: seq<Range>, seen: seq<Range>, r: Range, last: Range)
    requires Merged(out, seen) && out != [] && Num(r.start) <= Num(r.end)
    requires Num(out[|out| - 1].start) <= Num(r.start) <= Num(out[|out| - 1].end)
    requires last == if Num(r.end) > Num(out[|out| - 1].end) then Range(out[|out| - 1].start, r.end) else out[|out| - 1]
    ensures Merged(out[..|out| - 1] + [last], seen + [r])
  {
    var front, was := out[..|out| - 1], out[|out| - 1];
    assert out == front + [was];
    forall x: nat ensures InSome(front + [last], x) <==> InSome(seen + [r], x) {
      InSomeAppend(front, last, x);
      InSomeAppend(front, was, x);
      InSomeAppend(seen, r, x);
      assert InSome(out, x) <==> InSome(seen, x);
    }
  }

  lemma MergedNone()
    ensures Merged([], [])
  {
  }

  /** Whether the next range starts in the last one decides how it is taken in. */
  function Joined(out: seq<Range>, r: Range): seq<Range> {
    if out == [] || Before(out[|out| - 1].end, r.start) then out + [r]
    else
      var was := out[|out| - 1];
      out[..|out| - 1] + [if Before(was.end, r.end) then Range(was.start, r.end) else was]
  }

  lemma MergeNext(out: seq<Range>, rs: seq<Range>, i: nat)
    requires i < |rs| && Sorted(rs) && Sound(rs) && Merged(out, rs[..i])
    ensures Merged(Joined(out, rs[i]), rs[..i + 1])
  {
    var r := rs[i];
    assert rs[..i + 1] == rs[..i] + [r];
    if out == [] || Num(out[|out| - 1].end) < Num(r.start) {
      MergeApart(out, rs[..i], r);
    } else {
      assert i > 0 by { if i == 0 { Unmerged(out); } }
      assert Num(rs[i - 1].start) <= Num(r.start);
      assert rs[..i][i - 1] == rs[i - 1];
      var was := out[|out| - 1];
      MergeInto(out, rs[..i], r, if Num(r.end) > Num(was.end) then Range(was.start, r.end) else was);
    }
  }

  lemma Unmerged(out: seq<Range>)
    requires Merged(out, [])
    ensures out == []
  {
    if out != [] {
      assert Within(out[0], Num(out[0].start));
      assert InSome(out, Num(out[0].start));
    }
  }

  /** Takes the range at `i` into the first `n`. */
  method TakeIn(a: array<Range>, n: nat, i: nat) returns (n': nat)
    requires n <= i < a.Length
    modifies a
    ensures n' <= i + 1 && a[..n'] == Joined(old(a[..n]), old(a[i]))
    ensures forall j :: i < j < a.Length ==> a[j] == old(a[j])
  {
    hide Before;
    ghost var out := a[..n];
    var r := a[i];
    if n > 0 && !Before(a[n - 1].end, r.start) {
      var last := if Before(a[n - 1].end, r.end) then Range(a[n - 1].start, r.end) else a[n - 1];
      a[n - 1] := last;
      n' := n;
      assert a[..n] == out[..n - 1] + [last];
    } else {
      a[n] := r;
      n' := n + 1;
      assert a[..n'] == out + [r];
    }
  }

  /** Merges sorted ranges in place, into the front of the array. */
  method MergeInPlace(a: array<Range>) returns (n: nat)
    requires Sorted(a[..]) && Sound(a[..])
    modifies a
    ensures n <= a.Length && Merged(a[..n], old(a[..]))
  {
    ghost var rs := a[..];
    MergedNone();
    hide Merged, Sorted, Sound, Joined;
    n := 0;
    var i := 0;
    while i < a.Length
      invariant 0 <= n <= i <= a.Length && |rs| == a.Length
      invariant forall j :: i <= j < a.Length ==> a[j] == rs[j]
      invariant Merged(a[..n], rs[..i])
    {
      MergeNext(a[..n], rs, i);
      n := TakeIn(a, n, i);
      i := i + 1;
    }
    assert rs[..i] == rs;
  }

  ghost predicate Listed(prefixes: seq<Prefix>, k: Addr)
    requires forall i :: 0 <= i < |prefixes| ==> Valid(prefixes[i])
  {
    exists i :: 0 <= i < |prefixes| && Covers(prefixes[i], k)
  }

  class RangeSet {
    const ranges: seq<Range>

    constructor (merged: seq<Range>)
      ensures ranges == merged
    {
      ranges := merged;
    }

    /** `sort.Search` for the first range that starts after the address. */
    method Search(k: Addr) returns (i: nat)
      requires Sound(ranges) && Disjoint(ranges)
      ensures i <= |ranges|
      ensures forall j :: 0 <= j < i ==> Num(ranges[j].start) <= Num(k)
      ensures forall j :: i <= j < |ranges| ==> Num(ranges[j].start) > Num(k)
    {
      i := 0;
      var j := |ranges|;
      while i < j
        invariant 0 <= i <= j <= |ranges|
        invariant forall x :: 0 <= x < i ==> Num(ranges[x].start) <= Num(k)
        invariant forall x :: j <= x < |ranges| ==> Num(ranges[x].start) > Num(k)
      {
        var h := (i + j) / 2;
        if !Before(k, ranges[h].start) {
          forall x | 0 <= x <= h ensures Num(ranges[x].start) <= Num(k) { Ascending(ranges, x, h); }
          i := h + 1;
        } else {
          forall x | h <= x < |ranges| ensures Num(ranges[x].start) > Num(k) { Ascending(ranges, h, x); }
          j := h;
        }
      }
    }

    method Contains(k: Addr) returns (found: bool)
      requires Sound(ranges) && Disjoint(ranges)
      ensures found <==> InSome(ranges, Num(k))
    {
      var i := Search(k);
      found := i >= 1 && !Before(ranges[i - 1].end, k);
      if found { assert Within(ranges[i - 1], Num(k)); }
    }
  }

  lemma Ascending(rs: seq<Range>, i: nat, j: nat)
    requires Sound(rs) && Disjoint(rs) && i <= j < |rs|
    ensures Num(rs[i].start) <= Num(rs[j].start)
  {
  }

  ghost predicate Matches(rs: seq<Range>, prefixes: seq<Prefix>)
    requires forall i :: 0 <= i < |prefixes| ==> Valid(prefixes[i])
  {
    |rs| <= |prefixes| && forall j :: 0 <= j < |rs| ==> Fits(rs[j], prefixes[j])
  }

  ghost predicate Fits(r: Range, p: Prefix)
    requires Valid(p)
  {
    Num(r.start) <= Num(r.end) && forall k: Addr :: Within(r, Num(k)) <==> Covers(p, k)
  }

  lemma UnionIsListed(rs: seq<Range>, prefixes: seq<Prefix>, k: Addr)
    requires forall i :: 0 <= i < |prefixes| ==> Valid(prefixes[i])
    requires Matches(rs, prefixes) && |rs| == |prefixes|
    ensures InSome(rs, Num(k)) <==> Listed(prefixes, k)
  {
    hide Num, Covers, Within;
    if Listed(prefixes, k) {
      var j :| 0 <= j < |prefixes| && Covers(prefixes[j], k);
      assert Fits(rs[j], prefixes[j]);
    }
    if InSome(rs, Num(k)) {
      var j :| 0 <= j < |rs| && Within(rs[j], Num(k));
      assert Fits(rs[j], prefixes[j]);
    }
  }

  method RangesOf(prefixes: seq<Prefix>) returns (rs: seq<Range>)
    requires forall i :: 0 <= i < |prefixes| ==> Valid(prefixes[i])
    ensures Matches(rs, prefixes) && |rs| == |prefixes|
  {
    rs := [];
    while |rs| < |prefixes|
      invariant Matches(rs, prefixes)
    {
      var r := RangeOf(prefixes[|rs|]);
      assert Fits(r, prefixes[|rs|]);
      rs := rs + [r];
    }
  }

  /** The set built from a prefix list: disjoint ranges in order, holding every
      address some prefix covers and no other. */
  method NewRangeSet(prefixes: seq<Prefix>) returns (s: RangeSet)
    requires forall i :: 0 <= i < |prefixes| ==> Valid(prefixes[i])
    ensures Sound(s.ranges) && Disjoint(s.ranges)
    ensures forall k: Addr :: InSome(s.ranges, Num(k)) <==> Listed(prefixes, k)
  {
    var rs := RangesOf(prefixes);
    assert Sound(rs) by { assert forall j :: 0 <= j < |rs| ==> Fits(rs[j], prefixes[j]); }
    hide Num, Covers, Within, Fits, Matches, InSome, Listed, Sorted;
    var sorted := SortRanges(rs);
    SameUnion(rs, sorted);
    var a := new Range[|sorted|](i requires 0 <= i < |sorted| => sorted[i]);
    assert a[..] == sorted;
    var n := MergeInPlace(a);
    s := new RangeSet(a[..n]);
    forall k: Addr ensures InSome(s.ranges, Num(k)) <==> Listed(prefixes, k) { UnionIsListed(rs, prefixes, k); }
  }

  lemma SameUnion(rs: seq<Range>, out: seq<Range>)
    requires multiset(rs) == multiset(out)
    ensures Sound(rs) ==> Sound(out)
    ensures forall x: nat :: InSome(out, x) <==> InSome(rs, x)
  {
    forall r ensures r in rs <==> r in out { assert r in multiset(rs) <==> r in multiset(out); }
    if Sound(rs) {
      forall i | 0 <= i < |out| ensures Num(out[i].start) <= Num(out[i].end) { assert out[i] in rs; }
    }
    forall x: nat ensures InSome(out, x) <==> InSome(rs, x) {
      if InSome(out, x) { var i :| 0 <= i < |out| && Within(out[i], x); assert out[i] in rs; }
      if InSome(rs, x) { var i :| 0 <= i < |rs| && Within(rs[i], x); assert rs[i] in out; }
    }
  }
}
