/** The binary issuance record of a stateful challenge, versions 1 and 2. */
module ChallengeRecord {
  import TtlStore

  type Byte = TtlStore.Byte
  type Bytes = seq<Byte>
  type U32 = x: int | 0 <= x < 0x1_0000_0000
  type I64 = x: int | -0x8000_0000_0000_0000 <= x < 0x8000_0000_0000_0000
  type Digest = s: Bytes | |s| == 32 witness seq(32, _ => 0)
  type Salt = s: Bytes | |s| == 16 witness seq(16, _ => 0)

  const MAGIC: Bytes := [65, 71, 67, 82]
  const FIXED_SIZE := 60
  const V2_FIXED_SIZE := 84
  const MAX_FIELD_SIZE := 0xFFFF_FFFF
  const MAX_INT := 0x7FFF_FFFF_FFFF_FFFF
  const NO_SALT: Salt := [0, 0, 0, 0, 0, 0, 0, 0, 0, 0, 0, 0, 0, 0, 0, 0]

  const ISSUED := "issued"
  const SPENT := "spent"
  const SHA256 := "sha256"
  const ARGON2ID := "argon2id"

  datatype Error = UnknownState | BadSpec | TooLong | BadMagic | Truncated | UnknownVersion | BadFlags | BadLengths

  datatype Result<+T> = Ok(value: T) | Err(error: Error)

  datatype Record = Record(
    state: string, host: Bytes, ip: Bytes, digest: Digest, algorithm: string, difficulty: int,
    memoryKiB: U32, iterations: U32, salt: Salt, uri: Bytes, noJS: bool, issuedAt: I64)

  /** The work policy authenticated with a challenge; an empty name means SHA-256. */
  function Algorithm(name: string): string { if name == "" then SHA256 else name }

  predicate ValidSpec(r: Record) {
    if Algorithm(r.algorithm) == SHA256 then 0 <= r.difficulty <= 32
    else Algorithm(r.algorithm) == ARGON2ID && 8 * 1024 <= r.memoryKiB <= 32 * 1024 && 1 <= r.iterations <= 3
  }

  function StateByte(state: string): Result<Byte> {
    if state == ISSUED then Ok(1) else if state == SPENT then Ok(2) else Err(UnknownState)
  }

  function StateName(b: Byte): Result<string> {
    if b == 1 then Ok(ISSUED) else if b == 2 then Ok(SPENT) else Err(UnknownState)
  }

  // ---------- big-endian integers ----------

  function Power(w: nat): nat { if w == 0 then 1 else 256 * Power(w - 1) }

  function BigEndian(n: nat, w: nat): (b: Bytes)
    ensures |b| == w
  {
    if w == 0 then [] else BigEndian(n / 256, w - 1) + [n % 256]
  }

  function Value(b: Bytes): nat {
    if b == [] then 0 else 256 * Value(b[..|b| - 1]) + b[|b| - 1]
  }

  lemma {:induction false} ValueOfBigEndian(n: nat, w: nat)
    requires n < Power(w)
    ensures Value(BigEndian(n, w)) == n
  {
    if w > 0 {
      ValueOfBigEndian(n / 256, w - 1);
      var b := BigEndian(n, w);
      assert b[..|b| - 1] == BigEndian(n / 256, w - 1);
    }
  }

  lemma {:induction false} BigEndianOfValue(b: Bytes)
    ensures Value(b) < Power(|b|) && BigEndian(Value(b), |b|) == b
  {
    if b != [] {
      var front := b[..|b| - 1];
      BigEndianOfValue(front);
      assert Value(b) / 256 == Value(front) && Value(b) % 256 == b[|b| - 1];
      assert b == front + [b[|b| - 1]];
    }
  }

  lemma Powers()
    ensures Power(4) == 0x1_0000_0000 && Power(8) == 0x1_0000_0000_0000_0000
  {
    assert Power(2) == 0x1_0000;
    assert Power(4) == 256 * (256 * Power(2));
    assert Power(6) == 256 * (256 * Power(4));
    assert Power(8) == 256 * (256 * Power(6));
  }

  /** Two's complement of a signed 64-bit time. */
  function Unsigned(t: I64): nat { if t < 0 then t + 0x1_0000_0000_0000_0000 else t }

  function Signed(n: nat): I64
    requires n < 0x1_0000_0000_0000_0000
  {
    if n >= 0x8000_0000_0000_0000 then n - 0x1_0000_0000_0000_0000 else n
  }

  function Time(b: Bytes): I64
    requires |b| == 8
  {
    BigEndianOfValue(b); Powers();
    Signed(Value(b))
  }

  function Word(b: Bytes): U32
    requires |b| == 4
  {
    BigEndianOfValue(b); Powers();
    Value(b)
  }

  lemma TimeRoundTrip(t: I64)
    ensures Time(BigEndian(Unsigned(t), 8)) == t
  {
    Powers();
    ValueOfBigEndian(Unsigned(t), 8);
  }

  lemma WordRoundTrip(n: U32)
    ensures Word(BigEndian(n, 4)) == n
  {
    Powers();
    ValueOfBigEndian(n, 4);
  }

  lemma TimeBytes(b: Bytes)
    requires |b| == 8
    ensures BigEndian(Unsigned(Time(b)), 8) == b
  {
    Powers();
    BigEndianOfValue(b);
  }

  lemma WordBytes(b: Bytes)
    requires |b| == 4
    ensures BigEndian(Word(b), 4) == b
  {
    BigEndianOfValue(b);
  }

  // ---------- the layouts ----------

  function Flags(noJS: bool): Byte { if noJS then 1 else 0 }

  function Fields(r: Record): Bytes { r.host + r.ip + r.uri }

  function Lengths(r: Record): Bytes {
    BigEndian(|r.host|, 4) + BigEndian(|r.ip|, 4) + BigEndian(|r.uri|, 4)
  }

  function Head1(r: Record, state: Byte): (b: Bytes)
    requires 0 <= r.difficulty <= 255
    ensures |b| == 8
  {
    MAGIC + [1, state, Flags(r.noJS), r.difficulty]
  }

  function Head2(r: Record, state: Byte): (b: Bytes)
    requires r.iterations <= 255
    ensures |b| == 12
  {
    MAGIC + [2, state, Flags(r.noJS), 1, 0, r.iterations, 0, 0]
  }

  function Fixed1(r: Record, state: Byte): (b: Bytes)
    requires 0 <= r.difficulty <= 255
    ensures |b| == 48
  {
    Head1(r, state) + BigEndian(Unsigned(r.issuedAt), 8) + r.digest
  }

  function Fixed2(r: Record, state: Byte): (b: Bytes)
    requires r.iterations <= 255
    ensures |b| == 72
  {
    Head2(r, state) + BigEndian(Unsigned(r.issuedAt), 8) + r.digest + r.salt + BigEndian(r.memoryKiB, 4)
  }

  predicate TooBig(r: Record, fixed: nat) {
    || |r.host| > MAX_FIELD_SIZE || |r.ip| > MAX_FIELD_SIZE || |r.uri| > MAX_FIELD_SIZE
    || |r.host| + |r.ip| + |r.uri| > MAX_INT - fixed
  }

  function Encode(r: Record): Result<Bytes> {
    if Algorithm(r.algorithm) == ARGON2ID then Encode2(r) else Encode1(r)
  }

  function Encode1(r: Record): Result<Bytes> {
    var state := StateByte(r.state);
    if state.Err? then Err(state.error)
    else if r.difficulty < 0 || r.difficulty > 255 then Err(BadSpec)
    else if TooBig(r, FIXED_SIZE) then Err(TooLong)
    else Ok(Fixed1(r, state.value) + Lengths(r) + Fields(r))
  }

  function Encode2(r: Record): Result<Bytes> {
    var state := StateByte(r.state);
    if state.Err? then Err(state.error)
    else if !ValidSpec(r) || Algorithm(r.algorithm) != ARGON2ID then Err(BadSpec)
    else if TooBig(r, V2_FIXED_SIZE) then Err(TooLong)
    else Ok(Fixed2(r, state.value) + Lengths(r) + Fields(r))
  }

  function Decode(raw: Bytes): Result<Record> {
    if |raw| < 4 || raw[..4] != MAGIC then Err(BadMagic)
    else if |raw| <= 4 then Err(Truncated)
    else if raw[4] == 2 then Decode2(raw)
    else if raw[4] != 1 then Err(UnknownVersion)
    else Decode1(raw)
  }

  function Decode1(raw: Bytes): Result<Record> {
    if |raw| < FIXED_SIZE then Err(Truncated)
    else
      var state := StateName(raw[5]);
      if state.Err? then Err(state.error)
      else if raw[6] > 1 then Err(BadFlags)
      else
        var h, i, u := Word(raw[48..52]), Word(raw[52..56]), Word(raw[56..60]);
        if h + i + u != |raw| - FIXED_SIZE then Err(BadLengths)
        else Ok(Record(state.value, raw[60..60 + h], raw[60 + h..60 + h + i], raw[16..48], "", raw[7], 0, 0, NO_SALT,
                       raw[60 + h + i..60 + h + i + u], raw[6] == 1, Time(raw[8..16])))
  }

  function Decode2(raw: Bytes): Result<Record> {
    if |raw| < V2_FIXED_SIZE then Err(Truncated)
    else
      var state := StateName(raw[5]);
      if state.Err? then Err(state.error)
      else if raw[6] > 1 || raw[7] != 1 || raw[10] != 0 || raw[11] != 0 then Err(BadFlags)
      else
        var h, i, u := Word(raw[72..76]), Word(raw[76..80]), Word(raw[80..84]);
        if h + i + u != |raw| - V2_FIXED_SIZE then Err(BadLengths)
        else
          var r := Record(state.value, raw[84..84 + h], raw[84 + h..84 + h + i], raw[20..52], ARGON2ID, 0, Word(raw[68..72]), raw[9],
                          raw[52..68], raw[84 + h + i..84 + h + i + u], raw[6] == 1, Time(raw[12..20]));
          if !ValidSpec(r) then Err(BadSpec) else Ok(r)
  }

  /** What a record keeps of itself: each version carries only its own policy. */
  function Carried(r: Record): Record {
    if Algorithm(r.algorithm) == ARGON2ID then r.(difficulty := 0)
    else r.(algorithm := "", memoryKiB := 0, iterations := 0, salt := NO_SALT)
  }

  // ---------- round trips ----------

  lemma Tail(fixed: Bytes, r: Record, raw: Bytes)
    requires raw == fixed + Lengths(r) + Fields(r)
    requires |r.host| <= MAX_FIELD_SIZE && |r.ip| <= MAX_FIELD_SIZE && |r.uri| <= MAX_FIELD_SIZE
    ensures var n := |fixed|;
      && |raw| == n + 12 + |r.host| + |r.ip| + |r.uri| && raw[..n] == fixed
      && Word(raw[n..n + 4]) == |r.host| && Word(raw[n + 4..n + 8]) == |r.ip| && Word(raw[n + 8..n + 12]) == |r.uri|
      && raw[n + 12..n + 12 + |r.host|] == r.host
      && raw[n + 12 + |r.host|..n + 12 + |r.host| + |r.ip|] == r.ip
      && raw[n + 12 + |r.host| + |r.ip|..|raw|] == r.uri
  {
    var n := |fixed|;
    assert raw[n..n + 4] == BigEndian(|r.host|, 4);
    assert raw[n + 4..n + 8] == BigEndian(|r.ip|, 4);
    assert raw[n + 8..n + 12] == BigEndian(|r.uri|, 4);
    WordRoundTrip(|r.host|);
    WordRoundTrip(|r.ip|);
    WordRoundTrip(|r.uri|);
  }

  /** A concatenation cut where its parts meet. */
  lemma Parts3(a: Bytes, b: Bytes, c: Bytes)
    ensures var s, m := a + b + c, |a| + |b|; s[..|a|] == a && s[|a|..m] == b && s[m..m + |c|] == c
  {
  }

  lemma Parts5(a: Bytes, b: Bytes, c: Bytes, d: Bytes, e: Bytes)
    ensures var s, m := a + b + c + d + e, |a| + |b|;
            && s[..|a|] == a && s[|a|..m] == b && s[m..m + |c|] == c
            && s[m + |c|..m + |c| + |d|] == d && s[m + |c| + |d|..m + |c| + |d| + |e|] == e
  {
    var front := a + b + c;
    Parts3(a, b, c);
    Parts3(front, d, e);
    var s := a + b + c + d + e;
    assert s[..|front|] == front;
    SameSlice(s, front, |front|, |a|, |a| + |b|);
    SameSlice(s, front, |front|, |a| + |b|, |front|);
    assert s[..|a|] == s[..|front|][..|a|];
  }

  /** The fixed part of an encoded version-1 record. */
  lemma Encoded1(r: Record, raw: Bytes)
    requires Encode1(r) == Ok(raw)
    ensures |raw| >= 48 && raw[0..8] == Head1(r, StateByte(r.state).value)
    ensures raw[8..16] == BigEndian(Unsigned(r.issuedAt), 8) && raw[16..48] == r.digest
  {
    var head, time := Head1(r, StateByte(r.state).value), BigEndian(Unsigned(r.issuedAt), 8);
    var fixed := head + time + r.digest;
    assert raw == fixed + (Lengths(r) + Fields(r));
    Parts3(head, time, r.digest);
    hide BigEndian, Lengths, Fields, Head1;
    assert raw[..48] == fixed;
    SameSlice(raw, fixed, 48, 0, 8);
    SameSlice(raw, fixed, 48, 8, 16);
    SameSlice(raw, fixed, 48, 16, 48);
  }

  lemma HeadBytes(raw: Bytes, head: Bytes, n: nat)
    requires n <= |raw| && raw[0..n] == head && n >= 4
    ensures raw[..4] == head[..4] && forall i :: 0 <= i < n ==> raw[i] == head[i]
  {
    assert raw[..4] == raw[0..n][..4];
    assert forall i :: 0 <= i < n ==> raw[i] == raw[0..n][i];
  }

  lemma DecodeEncode1(r: Record, raw: Bytes)
    requires Encode1(r) == Ok(raw)
    ensures raw[..4] == MAGIC && raw[4] == 1
    ensures Decode1(raw) == Ok(r.(algorithm := "", memoryKiB := 0, iterations := 0, salt := NO_SALT))
  {
    var head := Head1(r, StateByte(r.state).value);
    Encoded1(r, raw);
    Tail(Fixed1(r, StateByte(r.state).value), r, raw);
    TimeRoundTrip(r.issuedAt);
    HeadBytes(raw, head, 8);
    assert head[..4] == MAGIC;
    hide BigEndian, Value, Power, Time, Word, Lengths, Fields, Fixed1;
  }

  /** The fixed part of an encoded version-2 record. */
  lemma Encoded2(r: Record, raw: Bytes)
    requires Encode2(r) == Ok(raw)
    ensures |raw| >= 72 && raw[0..12] == Head2(r, StateByte(r.state).value)
    ensures raw[12..20] == BigEndian(Unsigned(r.issuedAt), 8) && raw[20..52] == r.digest
    ensures raw[52..68] == r.salt && raw[68..72] == BigEndian(r.memoryKiB, 4)
  {
    var head, time, mem := Head2(r, StateByte(r.state).value), BigEndian(Unsigned(r.issuedAt), 8), BigEndian(r.memoryKiB, 4);
    var fixed := head + time + r.digest + r.salt + mem;
    assert raw == fixed + (Lengths(r) + Fields(r));
    Parts5(head, time, r.digest, r.salt, mem);
    hide BigEndian, Lengths, Fields, Head2;
    assert raw[..72] == fixed;
    SameSlice(raw, fixed, 72, 0, 12);
    SameSlice(raw, fixed, 72, 12, 20);
    SameSlice(raw, fixed, 72, 20, 52);
    SameSlice(raw, fixed, 72, 52, 68);
    SameSlice(raw, fixed, 72, 68, 72);
  }

  /** Each part of an encoded version-2 record as the decoder reads it. */
  lemma Read2(r: Record, raw: Bytes)
    requires Encode2(r) == Ok(raw)
    ensures |raw| >= V2_FIXED_SIZE && raw[..4] == MAGIC && raw[4] == 2 && StateName(raw[5]) == Ok(r.state)
    ensures raw[6] == Flags(r.noJS) && raw[7] == 1 && raw[8] == 0 && raw[9] == r.iterations && raw[10] == 0 && raw[11] == 0
    ensures Time(raw[12..20]) == r.issuedAt && raw[20..52] == r.digest && raw[52..68] == r.salt && Word(raw[68..72]) == r.memoryKiB
  {
    hide BigEndian, Time, Word, Fixed2;
    var head := Head2(r, StateByte(r.state).value);
    Encoded2(r, raw);
    TimeRoundTrip(r.issuedAt);
    WordRoundTrip(r.memoryKiB);
    HeadBytes(raw, head, 12);
    assert head[..4] == MAGIC;
  }

  lemma DecodeEncode2(r: Record, raw: Bytes)
    requires Encode2(r) == Ok(raw)
    ensures |raw| >= V2_FIXED_SIZE && raw[..4] == MAGIC && raw[4] == 2 && raw[8] == 0
    ensures Decode2(raw) == Ok(r.(difficulty := 0))
  {
    hide BigEndian, Time, Word, Lengths, Fields, Fixed2, StateName;
    Read2(r, raw);
    Tail(Fixed2(r, StateByte(r.state).value), r, raw);
  }

  /** Exactly which records can be written: the state is known, the policy is one the
      algorithm has room for, and every field and the whole stay within their lengths. */
  lemma EncodableExactly(r: Record)
    ensures Encode(r).Ok? <==>
      && (r.state == "issued" || r.state == "spent")
      && (if r.algorithm == "argon2id" then 8192 <= r.memoryKiB <= 32768 && 1 <= r.iterations <= 3 else 0 <= r.difficulty <= 255)
      && |r.host| < 0x1_0000_0000 && |r.ip| < 0x1_0000_0000 && |r.uri| < 0x1_0000_0000
      && |r.host| + |r.ip| + |r.uri| + (if r.algorithm == "argon2id" then 84 else 60) < 0x8000_0000_0000_0000
  {
    hide Fixed1, Fixed2, Lengths, Fields;
  }

  // ---------- the layout, byte by byte ----------

  /** A signed time in its eight bytes, and a length or a size in its four. */
  lemma BytesOfNumbers(t: I64, n: U32)
    ensures Value(BigEndian(Unsigned(t), 8)) == (if t < 0 then t + 0x1_0000_0000_0000_0000 else t) && Value(BigEndian(n, 4)) == n
  {
    Powers();
    ValueOfBigEndian(Unsigned(t), 8);
    ValueOfBigEndian(n, 4);
  }

  /** Version 1: magic, version, state, flags, difficulty, time, digest, three lengths, and
      the three fields. */
  lemma Layout1(r: Record, raw: Bytes)
    requires Encode1(r) == Ok(raw)
    ensures |raw| == 60 + |r.host| + |r.ip| + |r.uri|
    ensures raw[0] == 65 && raw[1] == 71 && raw[2] == 67 && raw[3] == 82 && raw[4] == 1
    ensures raw[5] == (if r.state == "issued" then 1 else 2) && raw[6] == (if r.noJS then 1 else 0) && raw[7] == r.difficulty
    ensures Value(raw[8..16]) == (if r.issuedAt < 0 then r.issuedAt + 0x1_0000_0000_0000_0000 else r.issuedAt) && raw[16..48] == r.digest
    ensures Word(raw[48..52]) == |r.host| && Word(raw[52..56]) == |r.ip| && Word(raw[56..60]) == |r.uri|
    ensures raw[60..60 + |r.host|] == r.host && raw[60 + |r.host|..60 + |r.host| + |r.ip|] == r.ip && raw[60 + |r.host| + |r.ip|..|raw|] == r.uri
  {
    hide BigEndian, Value, Word, Lengths, Fields, Fixed1;
    var head := Head1(r, StateByte(r.state).value);
    Encoded1(r, raw);
    Tail(Fixed1(r, StateByte(r.state).value), r, raw);
    HeadBytes(raw, head, 8);
    BytesOfNumbers(r.issuedAt, 0);
  }

  /** Version 2: magic, version, state, flags, algorithm, a zero, iterations, two zeros,
      time, digest, salt, memory, three lengths, and the three fields. */
  lemma Layout2(r: Record, raw: Bytes)
    requires Encode2(r) == Ok(raw)
    ensures |raw| == 84 + |r.host| + |r.ip| + |r.uri|
    ensures raw[0] == 65 && raw[1] == 71 && raw[2] == 67 && raw[3] == 82 && raw[4] == 2
    ensures raw[5] == (if r.state == "issued" then 1 else 2) && raw[6] == (if r.noJS then 1 else 0)
    ensures raw[7] == 1 && raw[8] == 0 && raw[9] == r.iterations && raw[10] == 0 && raw[11] == 0
    ensures Value(raw[12..20]) == (if r.issuedAt < 0 then r.issuedAt + 0x1_0000_0000_0000_0000 else r.issuedAt)
    ensures raw[20..52] == r.digest && raw[52..68] == r.salt && Value(raw[68..72]) == r.memoryKiB
    ensures Word(raw[72..76]) == |r.host| && Word(raw[76..80]) == |r.ip| && Word(raw[80..84]) == |r.uri|
    ensures raw[84..84 + |r.host|] == r.host && raw[84 + |r.host|..84 + |r.host| + |r.ip|] == r.ip && raw[84 + |r.host| + |r.ip|..|raw|] == r.uri
  {
    hide BigEndian, Value, Word, Lengths, Fields, Fixed2;
    var head := Head2(r, StateByte(r.state).value);
    Encoded2(r, raw);
    Tail(Fixed2(r, StateByte(r.state).value), r, raw);
    HeadBytes(raw, head, 12);
    BytesOfNumbers(r.issuedAt, r.memoryKiB);
  }

  /** Reading back what was written, for every record that can be written. */
  lemma DecodeInvertsEncode(r: Record)
    ensures Encode(r).Ok? ==> Decode(Encode(r).value) == Ok(Carried(r))
  {
    if Encode(r).Ok? {
      if Algorithm(r.algorithm) == ARGON2ID { DecodeEncode2(r, Encode(r).value); } else { DecodeEncode1(r, Encode(r).value); }
    }
  }

  lemma Relength(raw: Bytes, n: nat, r: Record)
    requires n + 12 <= |raw|
    requires Word(raw[n..n + 4]) == |r.host| && Word(raw[n + 4..n + 8]) == |r.ip| && Word(raw[n + 8..n + 12]) == |r.uri|
    ensures Lengths(r) == raw[n..n + 12]
  {
    WordBytes(raw[n..n + 4]);
    WordBytes(raw[n + 4..n + 8]);
    WordBytes(raw[n + 8..n + 12]);
    hide BigEndian, Word;
    Glue(raw, n, n + 4, n + 8);
    Glue(raw, n, n + 8, n + 12);
  }

  lemma Refields(raw: Bytes, n: nat, a: nat, b: nat, r: Record)
    requires n <= a <= b <= |raw|
    requires r.host == raw[n..a] && r.ip == raw[a..b] && r.uri == raw[b..|raw|]
    ensures Fields(r) == raw[n..|raw|]
  {
    Glue(raw, n, a, b);
    Glue(raw, n, b, |raw|);
  }

  lemma Rejoin(raw: Bytes, n: nat, r: Record)
    requires n + 12 <= |raw| && |raw| == n + 12 + |r.host| + |r.ip| + |r.uri|
    requires Word(raw[n..n + 4]) == |r.host| && Word(raw[n + 4..n + 8]) == |r.ip| && Word(raw[n + 8..n + 12]) == |r.uri|
    requires r.host == raw[n + 12..n + 12 + |r.host|]
    requires r.ip == raw[n + 12 + |r.host|..n + 12 + |r.host| + |r.ip|]
    requires r.uri == raw[n + 12 + |r.host| + |r.ip|..|raw|]
    ensures raw == raw[..n] + Lengths(r) + Fields(r)
  {
    Relength(raw, n, r);
    Refields(raw, n + 12, n + 12 + |r.host|, n + 12 + |r.host| + |r.ip|, r);
    hide Word, Lengths, Fields;
    Glue(raw, 0, n, n + 12);
    Glue(raw, 0, n + 12, |raw|);
    assert raw == raw[0..|raw|] && raw[..n] == raw[0..n];
  }

  lemma Glue(raw: Bytes, i: nat, j: nat, k: nat)
    requires i <= j <= k <= |raw|
    ensures raw[i..j] + raw[j..k] == raw[i..k]
  {
  }

  lemma SameSlice(a: Bytes, b: Bytes, n: nat, i: nat, j: nat)
    requires i <= j <= n <= |a| && n <= |b| && a[..n] == b[..n]
    ensures a[i..j] == b[i..j]
  {
    assert a[i..j] == a[..n][i..j];
    assert b[i..j] == b[..n][i..j];
  }

  /** Every accepted version-1 byte string is what its record encodes to. */
  lemma EncodeInvertsDecode1(raw: Bytes)
    requires Decode(raw).Ok? && raw[4] == 1
    ensures Encode(Decode(raw).value) == Ok(raw)
  {
    var r := Decode(raw).value;
    Rejoin(raw, 48, r);
    TimeBytes(raw[8..16]);
    hide BigEndian, Value, Power, Time, Word, Lengths, Fields;
    assert Head1(r, raw[5]) == raw[0..8];
    Glue(raw, 0, 8, 16);
    Glue(raw, 0, 16, 48);
    assert raw[..48] == raw[0..48];
    assert Fixed1(r, raw[5]) == raw[..48];
  }

  /** An accepted version-2 byte string re-encodes to itself but for byte 8, which
      is written as 0 and read back unchecked. */
  lemma EncodeInvertsDecode2(raw: Bytes)
    requires Decode(raw).Ok? && raw[4] == 2
    ensures |raw| >= V2_FIXED_SIZE && Encode(Decode(raw).value) == Ok(raw[8 := 0])
    ensures Encode(Decode(raw).value) == Ok(raw) <==> raw[8] == 0
  {
    var r := Decode(raw).value;
    Rejoin(raw, 72, r);
    Refixed2(raw, r);
    Rezeroed(raw, raw[..72], Lengths(r), Fields(r));
    hide Lengths, Fields, Fixed2, Decode2, ValidSpec, TooBig;
  }

  lemma Rezeroed(raw: Bytes, fixed: Bytes, lengths: Bytes, fields: Bytes)
    requires raw == fixed + lengths + fields && |fixed| > 8
    ensures raw[8 := 0] == fixed[8 := 0] + lengths + fields
    ensures raw[8 := 0] == raw <==> raw[8] == 0
  {
    if raw[8] != 0 { assert raw[8 := 0][8] != raw[8]; }
  }

  /** What an accepted version-2 byte string says of its record. */
  lemma Decoded2(raw: Bytes, r: Record)
    requires |raw| >= V2_FIXED_SIZE && Decode2(raw) == Ok(r)
    ensures StateByte(r.state) == Ok(raw[5]) && ValidSpec(r) && r.algorithm == ARGON2ID && !TooBig(r, V2_FIXED_SIZE)
    ensures raw[6] == Flags(r.noJS) && raw[7] == 1 && r.iterations == raw[9] && raw[10] == 0 && raw[11] == 0
    ensures r.issuedAt == Time(raw[12..20]) && r.digest == raw[20..52] && r.salt == raw[52..68] && r.memoryKiB == Word(raw[68..72])
  {
    hide Time, Word;
  }

  lemma Refixed2(raw: Bytes, r: Record)
    requires |raw| >= V2_FIXED_SIZE && raw[..4] == MAGIC && raw[4] == 2 && Decode2(raw) == Ok(r)
    ensures StateByte(r.state) == Ok(raw[5]) && ValidSpec(r) && r.algorithm == ARGON2ID
    ensures !TooBig(r, V2_FIXED_SIZE) && Fixed2(r, raw[5]) == raw[..72][8 := 0]
  {
    var want := raw[..72][8 := 0];
    Decoded2(raw, r);
    hide Decode2, ValidSpec, TooBig;
    TimeBytes(raw[12..20]);
    WordBytes(raw[68..72]);
    hide BigEndian, Time, Word;
    Head2Is(raw, r, want);
    Behind8(raw, want);
    hide Head2;
    Glue(want, 0, 12, 20);
    Glue(want, 0, 20, 52);
    Glue(want, 0, 52, 68);
    Glue(want, 0, 68, 72);
    assert want[0..72] == want;
  }

  lemma Head2Is(raw: Bytes, r: Record, want: Bytes)
    requires |raw| >= 72 && raw[..4] == MAGIC && raw[4] == 2 && want == raw[..72][8 := 0]
    requires raw[6] == Flags(r.noJS) && raw[7] == 1 && r.iterations == raw[9] && raw[10] == 0 && raw[11] == 0
    ensures Head2(r, raw[5]) == want[0..12]
  {
    assert forall i :: 0 <= i < 4 ==> want[i] == raw[..4][i] == MAGIC[i];
  }

  /** Changing byte 8 changes no later part. */
  lemma Behind8(raw: Bytes, want: Bytes)
    requires |raw| >= 72 && want == raw[..72][8 := 0]
    ensures want[12..20] == raw[12..20] && want[20..52] == raw[20..52] && want[52..68] == raw[52..68] && want[68..72] == raw[68..72]
  {
  }

  /** The decoder accepts as version 1 exactly what the encoder can write. */
  lemma DecodesExactlyEncodings1(raw: Bytes)
    requires |raw| > 4 && raw[4] == 1
    ensures Decode(raw).Ok? <==> exists r :: Encode(r) == Ok(raw)
  {
    if Decode(raw).Ok? { EncodeInvertsDecode1(raw); }
    if r :| Encode(r) == Ok(raw) { DecodeInvertsEncode(r); }
  }

  /** No byte string of another length carries the same fixed part. */
  lemma LengthMismatchRejected(raw: Bytes, more: Bytes)
    requires Decode(raw).Ok? && |more| != |raw| && |more| >= (if raw[4] == 1 then FIXED_SIZE else V2_FIXED_SIZE)
    requires var n := if raw[4] == 1 then FIXED_SIZE else V2_FIXED_SIZE; more[..n] == raw[..n]
    ensures Decode(more) == Err(BadLengths)
  {
    var n := if raw[4] == 1 then FIXED_SIZE else V2_FIXED_SIZE;
    assert forall i :: 0 <= i < n ==> more[i] == more[..n][i] == raw[i];
    SameSlice(more, raw, n, 0, 4);
    SameSlice(more, raw, n, n - 12, n - 8);
    SameSlice(more, raw, n, n - 8, n - 4);
    SameSlice(more, raw, n, n - 4, n);
    assert more[..4] == more[0..4] && raw[..4] == raw[0..4];
    hide Word, Time;
  }

  /** Marking a record spent changes the stored bytes, and only in the state byte:
      what the swap of an issued record for a spent one relies on. */
  lemma SpendChangesOneByte(raw: Bytes)
    requires Decode(raw).Ok? && Decode(raw).value.state == ISSUED
    ensures var spent := Encode(Decode(raw).value.(state := SPENT));
            && spent.Ok? && spent.value != raw && Decode(spent.value) == Ok(Decode(raw).value.(state := SPENT))
            && |spent.value| == |raw| && forall i :: 0 <= i < |raw| && i != 5 && i != 8 ==> spent.value[i] == raw[i]
  {
    var r := Decode(raw).value;
    var s := r.(state := SPENT);
    if raw[4] == 1 { EncodeInvertsDecode1(raw); OneByte1(r); } else { EncodeInvertsDecode2(raw); OneByte2(r); }
    DecodeInvertsEncode(s);
  }

  lemma OneByte1(r: Record)
    requires Encode1(r).Ok? && r.state == ISSUED
    ensures Encode1(r.(state := SPENT)) == Ok(Encode1(r).value[5 := 2])
  {
    hide BigEndian;
    var s := r.(state := SPENT);
    var fixed := Fixed1(r, 1);
    assert Fixed1(s, 2) == fixed[5 := 2];
    assert (fixed + Lengths(r) + Fields(r))[5 := 2] == fixed[5 := 2] + Lengths(r) + Fields(r);
    assert Lengths(s) == Lengths(r) && Fields(s) == Fields(r);
  }

  lemma OneByte2(r: Record)
    requires Encode2(r).Ok? && r.state == ISSUED
    ensures Encode2(r.(state := SPENT)) == Ok(Encode2(r).value[5 := 2])
  {
    hide BigEndian;
    var s := r.(state := SPENT);
    var fixed := Fixed2(r, 1);
    assert Fixed2(s, 2) == fixed[5 := 2];
    assert (fixed + Lengths(r) + Fields(r))[5 := 2] == fixed[5 := 2] + Lengths(r) + Fields(r);
    assert Lengths(s) == Lengths(r) && Fields(s) == Fields(r);
  }

  /** The reused buffer the encoders append to. */
  class Buffer {
    var bytes: Bytes

    constructor ()
      ensures bytes == []
    {
      bytes := [];
    }

    /** Writes the record over whatever the buffer held; a refused one leaves it empty. */
    method Write(r: Record) returns (reply: Result<()>)
      modifies this
      ensures Wrote(Encode(r), reply, bytes)
    {
      if Algorithm(r.algorithm) == ARGON2ID { reply := Write2(r); } else { reply := Write1(r); }
    }

    method Write1(r: Record) returns (reply: Result<()>)
      modifies this
      ensures Wrote(Encode1(r), reply, bytes)
    {
      bytes := [];
      var state := StateByte(r.state);
      if state.Err? { return Err(state.error); }
      if r.difficulty < 0 || r.difficulty > 255 { return Err(BadSpec); }
      if TooBig(r, FIXED_SIZE) { return Err(TooLong); }
      bytes := MAGIC + [1, state.value];
      bytes := bytes + [Flags(r.noJS), r.difficulty];
      bytes := bytes + BigEndian(Unsigned(r.issuedAt), 8);
      bytes := bytes + r.digest;
      assert bytes == Fixed1(r, state.value);
      WriteTail(r);
      return Ok(());
    }

    method Write2(r: Record) returns (reply: Result<()>)
      requires Algorithm(r.algorithm) == ARGON2ID
      modifies this
      ensures Wrote(Encode2(r), reply, bytes)
    {
      bytes := [];
      var state := StateByte(r.state);
      if state.Err? { return Err(state.error); }
      if !ValidSpec(r) { return Err(BadSpec); }
      if TooBig(r, V2_FIXED_SIZE) { return Err(TooLong); }
      bytes := MAGIC + [2, state.value];
      bytes := bytes + [Flags(r.noJS), 1, 0, r.iterations, 0, 0];
      bytes := bytes + BigEndian(Unsigned(r.issuedAt), 8);
      bytes := bytes + r.digest + r.salt;
      bytes := bytes + BigEndian(r.memoryKiB, 4);
      assert bytes == Fixed2(r, state.value);
      WriteTail(r);
      return Ok(());
    }

    method WriteTail(r: Record)
      modifies this
      ensures bytes == old(bytes) + Lengths(r) + Fields(r)
    {
      bytes := bytes + BigEndian(|r.host|, 4);
      bytes := bytes + BigEndian(|r.ip|, 4);
      bytes := bytes + BigEndian(|r.uri|, 4);
      assert bytes == old(bytes) + Lengths(r);
      bytes := bytes + r.host + r.ip + r.uri;
      assert bytes == old(bytes) + Lengths(r) + Fields(r);
    }
  }

  /** A buffer and reply that agree with the encoding. */
  predicate Wrote(want: Result<Bytes>, reply: Result<()>, bytes: Bytes) {
    match want
    case Ok(raw) => reply.Ok? && bytes == raw
    case Err(error) => reply == Err(error) && bytes == []
  }
}
