/** Stateful challenges under concurrent redeemers: the issuance record is read,
    checked at leisure, and spent by a swap on its exact stored bytes. */
module StatefulRedemption {
  import opened ChallengeRecord
  import opened Options
  import TtlStore

  type Id = string

  function RecordKey(id: Id): string { "challenge:" + id }

  /** A redemption that has read `raw` and found it issued. */
  datatype Redeemer = Redeemer(id: Id, raw: Bytes)

  datatype Sys = Sys(
    clock: int,
    store: TtlStore.Store,
    issued: set<Id>,
    redeemers: map<nat, Redeemer>,
    won: seq<Id>)                      // every token minted or handover granted

  /** `lingers` says whether the store finds a record at its exact expiry tick, which
      stores do differently. A swap may commit although its reply is lost. */
  datatype Event =
    | Tick(elapsed: nat)
    | Issue(id: Id, record: Record, ttl: int)
    | Fetch(redeemer: nat, id: Id, lingers: bool)
    | Abandon(redeemer: nat)
    | Spend(redeemer: nat, ttl: int, lingers: bool, replied: bool)

  function Visible(s: Sys, lingers: bool): TtlStore.Store { TtlStore.View(s.store, if lingers then s.clock else s.clock + 1) }

  /** Identifiers are random and taken to be new. */
  predicate Enabled(s: Sys, e: Event) {
    match e
    case Tick(_) => true
    case Issue(id, record, _) => id !in s.issued && record.state == ISSUED && Encode(record).Ok?
    case Fetch(n, id, _) => n !in s.redeemers
    case Abandon(n) => n in s.redeemers
    case Spend(n, _, _, _) => n in s.redeemers && Decode(s.redeemers[n].raw).Ok?
  }

  /** The record is created, not overwritten; an identifier that is taken is an error. */
  function Issued(s: Sys, id: Id, record: TtlStore.Value, ttl: int): Sys {
    var (st, created) := TtlStore.CompareAndSwap(Visible(s, true), RecordKey(id), None, record, ttl, s.clock);
    if created then s.(store := s.store + st, issued := s.issued + {id}) else s
  }

  function Fetched(s: Sys, n: nat, id: Id, lingers: bool): Sys {
    match TtlStore.Lookup(Visible(s, lingers), RecordKey(id))
    case Some(Blob(raw)) =>
      if Decode(raw).Err? || Decode(raw).value.state != ISSUED then s
      else s.(redeemers := s.redeemers[n := Redeemer(id, raw)])
    case _ => s
  }

  function Spent(s: Sys, n: nat, ttl: int, lingers: bool, replied: bool): Sys
    requires n in s.redeemers && Decode(s.redeemers[n].raw).Ok?
  {
    var r, t := s.redeemers[n], s.(redeemers := s.redeemers - {n});
    var spent := Encode(Decode(r.raw).value.(state := SPENT));
    if spent.Err? then t
    else
      var (st, swapped) := TtlStore.CompareAndSwap(Visible(s, lingers), RecordKey(r.id), Some(TtlStore.Blob(r.raw)), TtlStore.Blob(spent.value), ttl, s.clock);
      if !swapped then t else t.(store := s.store + st, won := if replied then s.won + [r.id] else s.won)
  }

  function Apply(s: Sys, e: Event): Sys
    requires Enabled(s, e)
  {
    match e
    case Tick(elapsed) => s.(clock := s.clock + elapsed)
    case Issue(id, record, ttl) => Issued(s, id, TtlStore.Blob(Encode(record).value), ttl)
    case Fetch(n, id, lingers) => Fetched(s, n, id, lingers)
    case Abandon(n) => s.(redeemers := s.redeemers - {n})
    case Spend(n, ttl, lingers, replied) => Spent(s, n, ttl, lingers, replied)
  }

  predicate Init(s: Sys) { s.store == map[] && s.issued == {} && s.redeemers == map[] && s.won == [] }

  ghost predicate Run(s: Sys, es: seq<Event>, t: Sys)
    decreases |es|
  {
    if es == [] then s == t else Enabled(s, es[0]) && Run(Apply(s, es[0]), es[1..], t)
  }

  predicate IsSpent(raw: Bytes) { Decode(raw).Ok? && Decode(raw).value.state == SPENT }
  predicate IsIssued(raw: Bytes) { Decode(raw).Ok? && Decode(raw).value.state == ISSUED }

  /** The stored record of `id` is a spent one. */
  predicate SpentHere(s: Sys, id: Id) {
    RecordKey(id) in s.store && s.store[RecordKey(id)].value.Blob? && IsSpent(s.store[RecordKey(id)].value.bytes)
  }

  ghost predicate Inv(s: Sys) {
    && (forall id: Id :: RecordKey(id) in s.store ==> id in s.issued)
    && (forall n | n in s.redeemers :: IsIssued(s.redeemers[n].raw) && s.redeemers[n].id in s.issued)
    && (forall i :: 0 <= i < |s.won| ==> SpentHere(s, s.won[i]))
    && (forall i, j :: 0 <= i < j < |s.won| ==> s.won[i] != s.won[j])
  }

  lemma RecordKeysApart(a: Id, b: Id)
    ensures RecordKey(a) == RecordKey(b) <==> a == b
  {
    assert RecordKey(a)[10..] == a && RecordKey(b)[10..] == b;
  }

  /** A spend is a swap of the exact bytes that were read: it wins exactly when they are
      what the store still finds, and then the record is a spent one. */
  lemma SpendSwaps(s: Sys, n: nat, ttl: int, lingers: bool)
    requires n in s.redeemers && IsIssued(s.redeemers[n].raw)
    ensures var r, t, live := s.redeemers[n], Spent(s, n, ttl, lingers, true), Visible(s, lingers);
            var found := RecordKey(r.id) in live && live[RecordKey(r.id)].value == TtlStore.Blob(r.raw);
            && t.won == (if found then s.won + [r.id] else s.won)
            && Spent(s, n, ttl, lingers, false) == t.(won := s.won)
            && t.redeemers == s.redeemers - {n} && t.issued == s.issued && t.clock == s.clock
            && (!found ==> t.store == s.store)
            && (found ==> SpentHere(t, r.id) && RecordKey(r.id) in s.store && s.store[RecordKey(r.id)].value == TtlStore.Blob(r.raw)
                          && forall k | k != RecordKey(r.id) :: (k in t.store <==> k in s.store) && (k in s.store ==> t.store[k] == s.store[k]))
  {
    var r := s.redeemers[n];
    SpendChangesOneByte(r.raw);
    hide Decode, Encode, TtlStore.CompareAndSwap;
    var spent := Encode(Decode(r.raw).value.(state := SPENT)).value;
    TtlStore.SwapsWhatWasExpected(Visible(s, lingers), RecordKey(r.id), Some(TtlStore.Blob(r.raw)), TtlStore.Blob(spent), ttl, s.clock);
  }

  lemma SpendInv(s: Sys, n: nat, ttl: int, lingers: bool, replied: bool)
    requires Inv(s) && Enabled(s, Spend(n, ttl, lingers, replied))
    ensures Inv(Spent(s, n, ttl, lingers, replied))
  {
    hide Decode, Encode, Spent, RecordKey, Visible, IsSpent, IsIssued;
    var r, t := s.redeemers[n], Spent(s, n, ttl, lingers, replied);
    SpendSwaps(s, n, ttl, lingers);
    forall id: Id ensures RecordKey(id) == RecordKey(r.id) <==> id == r.id { RecordKeysApart(id, r.id); }
    NotIssuedAndSpent(r.raw);
    if t.store == s.store { KeepsInv(s, t); } else { WinInv(s, t, n); }
  }

  lemma NotIssuedAndSpent(raw: Bytes)
    ensures !(IsIssued(raw) && IsSpent(raw))
  {
    hide Decode;
  }

  lemma KeepsInv(s: Sys, t: Sys)
    requires Inv(s) && t.store == s.store && t.won == s.won && t.issued == s.issued
    requires forall n | n in t.redeemers :: n in s.redeemers && t.redeemers[n] == s.redeemers[n]
    ensures Inv(t)
  {
    hide IsSpent, IsIssued, RecordKey;
  }

  lemma WinInv(s: Sys, t: Sys, n: nat)
    requires Inv(s) && n in s.redeemers && t.issued == s.issued && t.redeemers == s.redeemers - {n}
    requires t.won == s.won || t.won == s.won + [s.redeemers[n].id]
    requires SpentHere(t, s.redeemers[n].id) && !SpentHere(s, s.redeemers[n].id)
    requires forall k | k != RecordKey(s.redeemers[n].id) :: (k in t.store <==> k in s.store) && (k in s.store ==> t.store[k] == s.store[k])
    requires forall id: Id :: RecordKey(id) == RecordKey(s.redeemers[n].id) <==> id == s.redeemers[n].id
    ensures Inv(t)
  {
    hide IsSpent, IsIssued, RecordKey;
    forall i | 0 <= i < |s.won| ensures SpentHere(t, s.won[i]) && s.won[i] != s.redeemers[n].id { assert SpentHere(s, s.won[i]); }
  }

  lemma IssueCreates(s: Sys, id: Id, record: TtlStore.Value, ttl: int)
    requires RecordKey(id) !in s.store
    ensures Issued(s, id, record, ttl)
         == s.(store := s.store[RecordKey(id) := TtlStore.Entry(record, if ttl > 0 then s.clock + ttl else 0)], issued := s.issued + {id})
  {
    hide RecordKey, TtlStore.CompareAndSwap;
    TtlStore.SwapsWhatWasExpected(Visible(s, true), RecordKey(id), None, record, ttl, s.clock);
  }

  lemma IssueInv(s: Sys, e: Event)
    requires Inv(s) && Enabled(s, e) && e.Issue?
    ensures Inv(Apply(s, e))
  {
    hide Decode, Encode, RecordKey, Issued;
    IssueCreates(s, e.id, TtlStore.Blob(Encode(e.record).value), e.ttl);
    forall id: Id ensures RecordKey(id) == RecordKey(e.id) <==> id == e.id { RecordKeysApart(id, e.id); }
    assert forall i :: 0 <= i < |s.won| ==> RecordKey(s.won[i]) in s.store && s.won[i] != e.id;
  }

  lemma FetchInv(s: Sys, e: Event)
    requires Inv(s) && Enabled(s, e) && e.Fetch?
    ensures Inv(Apply(s, e))
  {
    hide Decode, Encode, RecordKey;
    assert RecordKey(e.id) in Visible(s, e.lingers) ==> RecordKey(e.id) in s.store;
  }

  lemma NextInv(s: Sys, e: Event)
    requires Inv(s) && Enabled(s, e)
    ensures Inv(Apply(s, e))
  {
    hide Decode, Encode, RecordKey;
    match e
    case Spend(n, ttl, lingers, replied) => SpendInv(s, n, ttl, lingers, replied);
    case Issue(_, _, _) => IssueInv(s, e);
    case Fetch(_, _, _) => FetchInv(s, e);
    case _ =>
  }

  lemma {:induction false} RunInv(s: Sys, es: seq<Event>, t: Sys)
    requires Inv(s) && Run(s, es, t)
    ensures Inv(t)
    decreases |es|
  {
    if es != [] {
      NextInv(s, es[0]);
      RunInv(Apply(s, es[0]), es[1..], t);
    }
  }

  /** Each issued identifier yields at most one token or handover, over every
      interleaving of issuers and redeemers on every replica. */
  lemma RedeemedAtMostOnce(s: Sys, es: seq<Event>, t: Sys)
    requires Init(s) && Run(s, es, t)
    ensures forall i, j :: 0 <= i < j < |t.won| ==> t.won[i] != t.won[j]
  {
    RunInv(s, es, t);
  }

  lemma StepKeepsSpent(s: Sys, e: Event, id: Id)
    requires Inv(s) && Enabled(s, e) && SpentHere(s, id)
    ensures SpentHere(Apply(s, e), id)
  {
    hide Decode, Encode, RecordKey, Spent;
    if e.Spend? {
      var r := s.redeemers[e.redeemer];
      assert IsIssued(r.raw);
      SpendSwaps(s, e.redeemer, e.ttl, e.lingers);
      RecordKeysApart(id, r.id);
    } else if e.Issue? {
      IssueCreates(s, e.id, TtlStore.Blob(Encode(e.record).value), e.ttl);
      RecordKeysApart(id, e.id);
      assert id in s.issued;
    }
  }

  /** A spent record stays spent: nothing turns it back into an issued one. */
  lemma {:induction false} SpentStaysSpent(s: Sys, es: seq<Event>, t: Sys, id: Id)
    requires Inv(s) && Run(s, es, t) && SpentHere(s, id)
    ensures SpentHere(t, id)
    decreases |es|
  {
    if es != [] {
      NextInv(s, es[0]);
      StepKeepsSpent(s, es[0], id);
      SpentStaysSpent(Apply(s, es[0]), es[1..], t, id);
    }
  }

  /** Whoever still holds the record of a challenge that is spent gets nothing. */
  lemma LoserGetsNothing(s: Sys, n: nat, ttl: int, lingers: bool, replied: bool)
    requires Inv(s) && Enabled(s, Spend(n, ttl, lingers, replied)) && SpentHere(s, s.redeemers[n].id)
    ensures var t := Spent(s, n, ttl, lingers, replied); t.won == s.won && t.store == s.store
  {
    hide Decode, Encode, RecordKey, Spent;
    assert IsIssued(s.redeemers[n].raw);
    SpendSwaps(s, n, ttl, lingers);
  }

  /** And whoever is first gets it: an issued record that is still found is fetched, and
      spent by the redeemer if nobody swapped it in between. */
  lemma FirstRedeemerWins(s: Sys, n: nat, id: Id, ttl: int, lingers: bool)
    requires n !in s.redeemers && RecordKey(id) in Visible(s, lingers)
    requires s.store[RecordKey(id)].value.Blob? && IsIssued(s.store[RecordKey(id)].value.bytes)
    ensures var t := Apply(s, Fetch(n, id, lingers));
            Enabled(t, Spend(n, ttl, lingers, true)) && Apply(t, Spend(n, ttl, lingers, true)).won == s.won + [id]
  {
    hide Decode, Encode, RecordKey, Spent;
    var t := Apply(s, Fetch(n, id, lingers));
    SpendSwaps(t, n, ttl, lingers);
  }
}
