/** The bounded local cache of verified tokens and of locally spent challenges. */
module TokenCache {

  type Key = string

  const MAX_ENTRIES: nat := 0x2_0000
  const MAX_VALIDITY: int := 900_000_000_000

  type Entries = map<Key, int>

  predicate Holds(m: Entries, key: Key, now: int) { key in m && now < m[key] }

  /** A full cache is emptied before the next entry. */
  function Store(m: Entries, key: Key, expiry: int): Entries {
    if |m| >= MAX_ENTRIES then map[key := expiry] else m[key := expiry]
  }

  function Claimed(m: Entries, key: Key, expiry: int, now: int): (Entries, bool) {
    if Holds(m, key, now) then (m, false) else (Store(m, key, expiry), true)
  }

  class TokenCache {
    var m: Entries

    constructor ()
      ensures m == map[]
    {
      m := map[];
    }

    method Get(key: Key, now: int) returns (found: bool)
      ensures found <==> Holds(m, key, now)
    {
      found := key in m && now < m[key];
    }

    method Reset()
      modifies this
      ensures m == map[]
    {
      m := map[];
    }

    /** A verification is trusted for no longer than the token or the cap. */
    method Put(key: Key, tokenExpiry: int, now: int)
      modifies this
      ensures m == Store(old(m), key, if tokenExpiry < now + MAX_VALIDITY then tokenExpiry else now + MAX_VALIDITY)
    {
      var exp := now + MAX_VALIDITY;
      if tokenExpiry < exp { exp := tokenExpiry; }
      if |m| >= MAX_ENTRIES { m := map[]; }
      m := m[key := exp];
    }

    method Claim(key: Key, expiry: int, now: int) returns (ok: bool)
      modifies this
      ensures (m, ok) == Claimed(old(m), key, expiry, now)
    {
      if key in m && now < m[key] { return false; }
      if |m| >= MAX_ENTRIES { m := map[]; }
      m := m[key := expiry];
      return true;
    }
  }

  /** One claim in a process whose store is down. */
  datatype Attempt = Attempt(key: Key, expiry: int, now: int)

  function Try(m: Entries, t: Attempt): (Entries, bool) { Claimed(m, t.key, t.expiry, t.now) }

  /** Some claim of the run went through on a full cache, which it then emptied. */
  predicate Cleared(m: Entries, tries: seq<Attempt>)
    decreases |tries|
  {
    tries != [] && ((Try(m, tries[0]).1 && |m| >= MAX_ENTRIES) || Cleared(Try(m, tries[0]).0, tries[1..]))
  }

  /** Some claim of `key` in the run went through. */
  predicate Reclaimed(m: Entries, tries: seq<Attempt>, key: Key)
    decreases |tries|
  {
    tries != [] && ((tries[0].key == key && Try(m, tries[0]).1) || Reclaimed(Try(m, tries[0]).0, tries[1..], key))
  }

  /** From a held key, exactly an emptied cache lets a later claim through. */
  lemma {:induction false} HeldUntilCleared(m: Entries, tries: seq<Attempt>, again: Attempt)
    requires again.key in m && again.now < m[again.key]
    requires forall i :: 0 <= i < |tries| && tries[i].key == again.key ==> tries[i].now < m[again.key]
    ensures Reclaimed(m, tries + [again], again.key) <==> Cleared(m, tries)
    decreases |tries|
  {
    var key := again.key;
    if tries == [] {
      assert tries + [again] == [again] && [again][1..] == [];
    } else {
      var next := Try(m, tries[0]).0;
      assert (tries + [again])[0] == tries[0] && (tries + [again])[1..] == tries[1..] + [again];
      if Try(m, tries[0]).1 && |m| >= MAX_ENTRIES {
        LostIsReclaimed(next, tries[1..], again);
      } else {
        HeldUntilCleared(next, tries[1..], again);
      }
    }
  }

  /** A key that is not there is claimed again at the latest by the last attempt. */
  lemma {:induction false} LostIsReclaimed(m: Entries, tries: seq<Attempt>, again: Attempt)
    requires again.key !in m
    ensures Reclaimed(m, tries + [again], again.key)
    decreases |tries|
  {
    if tries == [] {
      assert tries + [again] == [again];
    } else {
      assert (tries + [again])[0] == tries[0] && (tries + [again])[1..] == tries[1..] + [again];
      if tries[0].key != again.key { LostIsReclaimed(Try(m, tries[0]).0, tries[1..], again); }
    }
  }

  /** While the store is down a process mints once per challenge: after a successful
      claim another one before its expiry goes through exactly when the cache was
      emptied for room in between, whatever else was claimed. */
  lemma LocalSingleSpend(m: Entries, first: Attempt, tries: seq<Attempt>, again: Attempt)
    requires Try(m, first).1 && again.key == first.key && again.now < first.expiry
    requires forall i :: 0 <= i < |tries| && tries[i].key == first.key ==> tries[i].now < first.expiry
    ensures Reclaimed(Try(m, first).0, tries + [again], first.key) <==> Cleared(Try(m, first).0, tries)
  {
    HeldUntilCleared(Try(m, first).0, tries, again);
  }
}
