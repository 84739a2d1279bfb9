/** The store keys of the behaviour scoreboard and its periods. */
module Scoreboard {

  type IP = string

  const SECOND: nat := 1_000_000_000
  const HOLD_WINDOW: nat := 2 * SECOND
  const GEN_RETENTION: nat := 24 * 3600 * SECOND
  const BACKOFF_WINDOW: nat := 24 * 3600 * SECOND
  const HARD_MAX_BLOCK_TTL: nat := 30 * 24 * 3600 * SECOND

  // ---------- keys ----------

  function BlockKey(ip: IP): string { "block:" + ip }
  function BlockCountKey(ip: IP): string { "blkct:" + ip }
  function HoldKey(ip: IP): string { "unblk:" + ip }
  function GenKey(ip: IP): string { "unblkgen:" + ip }

  function Tag(generation: string): string { if generation == "" then "0" else "g" + generation }

  function EventKey(evtype: string, ip: IP, generation: string, bucket: int): string {
    (("ev:" + evtype + ":" + ip) + ":" + Tag(generation)) + ":" + Decimal(bucket)
  }

  function Decimal(n: int): string {
    if n < 0 then "-" + Digits(-n) else Digits(n)
  }

  function Digits(n: nat): string {
    if n < 10 then [DIGITS[n]] else Digits(n / 10) + [DIGITS[n % 10]]
  }

  const DIGITS := "0123456789"

  predicate ColonFree(s: string) { ':' !in s }

  /** Buckets are absolute slices of wall-clock time. */
  function EventBucket(unixSeconds: int, windowSeconds: int): int {
    var w := if windowSeconds < 1 then 1 else windowSeconds;
    if unixSeconds >= 0 then unixSeconds / w else -((-unixSeconds) / w)
  }

  lemma {:induction false} DigitsColonFree(n: nat)
    ensures ColonFree(Digits(n))
  {
    if n >= 10 { DigitsColonFree(n / 10); }
  }

  lemma FieldStart(x: string, b: string)
    requires ColonFree(b)
    ensures var s := x + ":" + b;
            s[|x|] == ':' && s[..|x|] == x && s[|x| + 1..] == b && forall i :: |x| < i < |s| ==> s[i] != ':'
  {
    var s := x + ":" + b;
    forall i | |x| < i < |s| ensures s[i] != ':' { assert s[i] == b[i - |x| - 1]; }
  }

  lemma LastField(x: string, b: string, y: string, c: string)
    requires ColonFree(b) && ColonFree(c)
    ensures x + ":" + b == y + ":" + c <==> x == y && b == c
  {
    FieldStart(x, b);
    FieldStart(y, c);
  }

  lemma TagInjective(g1: string, g2: string)
    ensures Tag(g1) == Tag(g2) <==> g1 == g2
    ensures ColonFree(g1) ==> ColonFree(Tag(g1))
  {
    if g1 != "" && g2 != "" { assert Tag(g1)[1..] == g1 && Tag(g2)[1..] == g2; }
  }

  /** Counters of two generations never share a key, whatever the event types, addresses and buckets. */
  lemma EventKeysApart(e1: string, ip1: IP, g1: string, b1: int, e2: string, ip2: IP, g2: string, b2: int)
    requires ColonFree(g1) && ColonFree(g2) && g1 != g2
    ensures EventKey(e1, ip1, g1, b1) != EventKey(e2, ip2, g2, b2)
  {
    DigitsColonFree(if b1 < 0 then -b1 else b1);
    DigitsColonFree(if b2 < 0 then -b2 else b2);
    TagInjective(g1, g2);
    TagInjective(g2, g1);
    var p1, p2 := "ev:" + e1 + ":" + ip1, "ev:" + e2 + ":" + ip2;
    LastField(p1 + ":" + Tag(g1), Decimal(b1), p2 + ":" + Tag(g2), Decimal(b2));
    LastField(p1, Tag(g1), p2, Tag(g2));
  }

  /** The generation keys are apart from every other key and from each other. */
  lemma GenKeyApart(ip: IP, other: IP, evtype: string, generation: string, bucket: int)
    ensures GenKey(ip) != BlockKey(other) && GenKey(ip) != BlockCountKey(other) && GenKey(ip) != HoldKey(other)
    ensures GenKey(ip) != EventKey(evtype, other, generation, bucket)
    ensures GenKey(ip) == GenKey(other) <==> ip == other
  {
    assert GenKey(ip)[0] == 'u' && BlockKey(other)[0] == 'b' && BlockCountKey(other)[0] == 'b';
    assert GenKey(ip)[5] == 'g' && HoldKey(other)[5] == ':';
    assert EventKey(evtype, other, generation, bucket)[0] == 'e';
    assert GenKey(ip)[9..] == ip && GenKey(other)[9..] == other;
  }

  lemma CountKeyApart(ip: IP, other: IP, evtype: string, generation: string, bucket: int)
    ensures BlockCountKey(ip) != BlockKey(other) && BlockCountKey(ip) != GenKey(other) && BlockCountKey(ip) != HoldKey(other)
    ensures BlockCountKey(ip) != EventKey(evtype, other, generation, bucket)
    ensures BlockCountKey(ip) == BlockCountKey(other) <==> ip == other
  {
    assert BlockCountKey(ip)[0] == 'b' && HoldKey(other)[0] == 'u' && GenKey(other)[0] == 'u';
    assert BlockCountKey(ip)[2] == 'k' && BlockKey(other)[2] == 'o';
    assert EventKey(evtype, other, generation, bucket)[0] == 'e';
    assert BlockCountKey(ip)[6..] == ip && BlockCountKey(other)[6..] == other;
  }

  // ---------- equal keys are of equal records ----------

  lemma FirstField(a: string, x: string, b: string, y: string)
    requires ColonFree(a) && ColonFree(b) && a + ":" + x == b + ":" + y
    ensures a == b && x == y
  {
    var s := a + ":" + x;
    assert s[|a|] == ':' && s[|b|] == ':';
    assert forall i :: 0 <= i < |a| ==> s[i] == a[i];
    assert forall i :: 0 <= i < |b| ==> s[i] == b[i];
    assert s[..|a|] == a && s[|a| + 1..] == x && s[..|b|] == b && s[|b| + 1..] == y;
  }

  lemma DigitChars(i: nat, j: nat)
    requires i < 10 && j < 10
    ensures DIGITS[i] == DIGITS[j] <==> i == j
    ensures DIGITS[i] != '-'
  {
    assert DIGITS[0] == '0' && DIGITS[1] == '1' && DIGITS[2] == '2' && DIGITS[3] == '3' && DIGITS[4] == '4';
    assert DIGITS[5] == '5' && DIGITS[6] == '6' && DIGITS[7] == '7' && DIGITS[8] == '8' && DIGITS[9] == '9';
  }

  lemma {:induction false} DigitsInjective(a: nat, b: nat)
    requires Digits(a) == Digits(b)
    ensures a == b
  {
    DigitChars(a % 10, b % 10);
    var x, y := Digits(a), Digits(b);
    assert x[|x| - 1] == DIGITS[a % 10] && y[|y| - 1] == DIGITS[b % 10];
    if a >= 10 && b >= 10 {
      assert x[..|x| - 1] == Digits(a / 10) && y[..|y| - 1] == Digits(b / 10);
      DigitsInjective(a / 10, b / 10);
    } else if a >= 10 {
      DigitsSome(a / 10);
    } else if b >= 10 {
      DigitsSome(b / 10);
    }
  }

  lemma {:induction false} DigitsSome(n: nat)
    ensures |Digits(n)| >= 1 && Digits(n)[0] != '-'
  {
    if n < 10 { DigitChars(n, n); } else { DigitsSome(n / 10); }
  }

  lemma DecimalInjective(a: int, b: int)
    ensures Decimal(a) == Decimal(b) <==> a == b
  {
    if Decimal(a) == Decimal(b) {
      DigitsSome(if a < 0 then -a else a);
      DigitsSome(if b < 0 then -b else b);
      if a < 0 && b < 0 {
        assert Decimal(a)[1..] == Digits(-a) && Decimal(b)[1..] == Digits(-b);
        DigitsInjective(-a, -b);
      } else if a >= 0 && b >= 0 {
        DigitsInjective(a, b);
      }
    }
  }

  /** For event types and generations without a colon, every event type, address,
      generation and bucket has a counter of its own; addresses may hold colons. */
  lemma EventKeyInjective(e1: string, ip1: IP, g1: string, b1: int, e2: string, ip2: IP, g2: string, b2: int)
    requires ColonFree(e1) && ColonFree(e2) && ColonFree(g1) && ColonFree(g2)
    ensures EventKey(e1, ip1, g1, b1) == EventKey(e2, ip2, g2, b2) <==> e1 == e2 && ip1 == ip2 && g1 == g2 && b1 == b2
  {
    if EventKey(e1, ip1, g1, b1) == EventKey(e2, ip2, g2, b2) {
      if g1 != g2 { EventKeysApart(e1, ip1, g1, b1, e2, ip2, g2, b2); }
      BackFields("ev:" + e1 + ":" + ip1, Tag(g1), b1, "ev:" + e2 + ":" + ip2, Tag(g2), b2) by {
        TagInjective(g1, g2);
        TagInjective(g2, g1);
      }
      FrontFields(e1, ip1, e2, ip2);
    }
  }

  lemma BackFields(p1: string, t1: string, b1: int, p2: string, t2: string, b2: int)
    requires ColonFree(t1) && ColonFree(t2) && (p1 + ":" + t1) + ":" + Decimal(b1) == (p2 + ":" + t2) + ":" + Decimal(b2)
    ensures p1 == p2 && t1 == t2 && b1 == b2
  {
    DigitsColonFree(if b1 < 0 then -b1 else b1);
    DigitsColonFree(if b2 < 0 then -b2 else b2);
    LastField(p1 + ":" + t1, Decimal(b1), p2 + ":" + t2, Decimal(b2));
    LastField(p1, t1, p2, t2);
    DecimalInjective(b1, b2);
  }

  lemma FrontFields(e1: string, ip1: IP, e2: string, ip2: IP)
    requires ColonFree(e1) && ColonFree(e2) && "ev:" + e1 + ":" + ip1 == "ev:" + e2 + ":" + ip2
    ensures e1 == e2 && ip1 == ip2
  {
    var p1, p2 := "ev:" + e1 + ":" + ip1, "ev:" + e2 + ":" + ip2;
    assert p1[3..] == e1 + ":" + ip1 && p2[3..] == e2 + ":" + ip2;
    FirstField(e1, ip1, e2, ip2);
  }

  /** The other records: one of each kind per address, and no two kinds share a key. */
  lemma BlockAndHoldKeysApart(ip: IP, other: IP, evtype: string, generation: string, bucket: int)
    ensures BlockKey(ip) == BlockKey(other) <==> ip == other
    ensures HoldKey(ip) == HoldKey(other) <==> ip == other
    ensures BlockKey(ip) != HoldKey(other)
    ensures EventKey(evtype, other, generation, bucket) !in {BlockKey(ip), HoldKey(ip)}
  {
    assert BlockKey(ip)[6..] == ip && BlockKey(other)[6..] == other && HoldKey(ip)[6..] == ip && HoldKey(other)[6..] == other;
    assert BlockKey(ip)[0] == 'b' && HoldKey(other)[0] == 'u' && HoldKey(ip)[0] == 'u';
    assert EventKey(evtype, other, generation, bucket)[0] == 'e';
  }

  // ---------- buckets ----------

  /** The bucket of a time is the slice of the window's length that holds it. */
  lemma BucketHoldsTime(unixSeconds: nat, windowSeconds: int)
    ensures var w, b := (if windowSeconds < 1 then 1 else windowSeconds), EventBucket(unixSeconds, windowSeconds);
            b * w <= unixSeconds < (b + 1) * w
  {
  }

  /** Times less than a window apart are in the same bucket or in neighbouring ones. */
  lemma NearbyBuckets(t1: nat, t2: nat, windowSeconds: int)
    requires windowSeconds >= 1 && -windowSeconds < t1 - t2 < windowSeconds
    ensures -1 <= EventBucket(t1, windowSeconds) - EventBucket(t2, windowSeconds) <= 1
  {
    hide EventBucket;
    BucketHoldsTime(t1, windowSeconds);
    BucketHoldsTime(t2, windowSeconds);
    NextSlice(EventBucket(t1, windowSeconds), EventBucket(t2, windowSeconds), windowSeconds, t1, t2);
    NextSlice(EventBucket(t2, windowSeconds), EventBucket(t1, windowSeconds), windowSeconds, t2, t1);
  }

  lemma NextSlice(b1: int, b2: int, w: int, t1: int, t2: int)
    requires w >= 1 && b1 * w <= t1 && t2 < (b2 + 1) * w && t1 - t2 < w
    ensures b1 <= b2 + 1
  {
    var d := b1 - b2 - 1;
    assert b1 * w == (b2 + 1) * w + d * w;
    assert d >= 1 ==> d * w >= w;
  }
}
