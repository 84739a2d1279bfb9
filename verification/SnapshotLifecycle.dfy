/** The reference-counted engine snapshot under concurrent evaluators, reloads and
    shutdown, one atomic operation at a time. */
module SnapshotLifecycle {
  import opened Options

  type Snap = nat
  type Thread = nat

  /** Where a request is between loading the engine pointer and its release. */
  datatype Phase =
    | Loaded(snap: Snap)
    | Counted(snap: Snap, refs: int)   // read the count, about to compare and swap
    | Using(snap: Snap)

  /** `retiring` is the snapshot a Reload or Close has swapped out and not yet
      released; `closing` are those whose last reference is gone and whose caches
      are about to be closed; `closed` counts the closes. */
  datatype Sys = Sys(
    current: Option<Snap>,
    refs: map<Snap, int>,
    threads: map<Thread, Phase>,
    retiring: Option<Snap>,
    closing: multiset<Snap>,
    closed: multiset<Snap>)

  datatype Event =
    | Load(thread: Thread)
    | ReadCount(thread: Thread)
    | Swap(thread: Thread)
    | Release(thread: Thread)
    | Reload(snap: Snap)
    | Close
    | Retire
    | CloseCaches(snap: Snap)

  predicate Enabled(s: Sys, e: Event) {
    match e
    case Load(t) => t !in s.threads
    case ReadCount(t) => t in s.threads && s.threads[t].Loaded? && s.threads[t].snap in s.refs
    case Swap(t) => t in s.threads && s.threads[t].Counted? && s.threads[t].snap in s.refs
    case Release(t) => t in s.threads && s.threads[t].Using? && s.threads[t].snap in s.refs
    case Reload(n) => s.retiring.None? && s.current.Some? && n !in s.refs
    case Close => s.retiring.None?
    case Retire => s.retiring.Some? && s.retiring.value in s.refs
    case CloseCaches(n) => n in s.closing
  }

  /** Gives one reference back; whoever takes the count to zero closes the caches. */
  function Dropped(s: Sys, n: Snap): Sys
    requires n in s.refs
  {
    s.(refs := s.refs[n := s.refs[n] - 1], closing := if s.refs[n] == 1 then s.closing + multiset{n} else s.closing)
  }

  function Apply(s: Sys, e: Event): Sys
    requires Enabled(s, e)
  {
    match e
    case Load(t) => if s.current.None? then s else s.(threads := s.threads[t := Loaded(s.current.value)])
    case ReadCount(t) =>
      var n := s.threads[t].snap;
      if s.refs[n] <= 0 then s.(threads := s.threads - {t})
      else s.(threads := s.threads[t := Counted(n, s.refs[n])])
    case Swap(t) =>
      var p := s.threads[t];
      if s.refs[p.snap] == p.refs then s.(refs := s.refs[p.snap := p.refs + 1], threads := s.threads[t := Using(p.snap)])
      else s.(threads := s.threads[t := Loaded(p.snap)])
    case Release(t) => Dropped(s.(threads := s.threads - {t}), s.threads[t].snap)
    case Reload(n) => s.(current := Some(n), refs := s.refs[n := 1], retiring := s.current)
    case Close => s.(current := None, retiring := s.current)
    case Retire => Dropped(s.(retiring := None), s.retiring.value)
    case CloseCaches(n) => s.(closing := s.closing - multiset{n}, closed := s.closed + multiset{n})
  }

  /** A new engine owns its first snapshot. */
  predicate Init(s: Sys) {
    exists n :: n in s.refs && s == Sys(Some(n), map[n := 1], map[], None, multiset{}, multiset{})
  }

  ghost predicate Run(s: Sys, es: seq<Event>, t: Sys)
    decreases |es|
  {
    if es == [] then s == t else Enabled(s, es[0]) && Run(Apply(s, es[0]), es[1..], t)
  }

  ghost predicate Reachable(t: Sys) { exists s, es :: Init(s) && Run(s, es, t) }

  // ---------- the invariant ----------

  function Users(s: Sys, n: Snap): set<Thread> { set t | t in s.threads && s.threads[t] == Using(n) }

  /** The engine's own references: the current snapshot and the one being retired. */
  function Owned(s: Sys, n: Snap): nat {
    (if s.current == Some(n) then 1 else 0) + (if s.retiring == Some(n) then 1 else 0)
  }

  ghost predicate SnapOk(s: Sys, n: Snap) {
    if n in s.refs then
      && s.refs[n] == Owned(s, n) + |Users(s, n)|
      && s.closing[n] + s.closed[n] == (if s.refs[n] == 0 then 1 else 0)
    else Owned(s, n) == 0 && s.closing[n] + s.closed[n] == 0
  }

  predicate ThreadOk(s: Sys, t: Thread) {
    t in s.threads ==> s.threads[t].snap in s.refs && (s.threads[t].Counted? ==> s.threads[t].refs > 0)
  }

  ghost predicate Inv(s: Sys) { (forall n: Snap :: SnapOk(s, n)) && (forall t: Thread :: ThreadOk(s, t)) }

  /** A thread outside `Users` that moves without becoming a user changes no count. */
  lemma SameUsers(s: Sys, u: Sys, t: Thread)
    requires forall x | x != t :: (x in u.threads <==> x in s.threads) && (x in s.threads ==> u.threads[x] == s.threads[x])
    requires t in s.threads ==> !s.threads[t].Using?
    requires t in u.threads ==> !u.threads[t].Using?
    ensures forall n: Snap :: Users(u, n) == Users(s, n)
  {
  }

  lemma OneMoreUser(s: Sys, u: Sys, t: Thread, n: Snap)
    requires u.threads == s.threads[t := Using(n)] && (t in s.threads ==> !s.threads[t].Using?)
    ensures |Users(u, n)| == |Users(s, n)| + 1
    ensures forall m: Snap | m != n :: Users(u, m) == Users(s, m)
  {
    assert Users(u, n) == Users(s, n) + {t};
  }

  lemma OneUserLess(s: Sys, u: Sys, t: Thread, n: Snap)
    requires u.threads == s.threads - {t} && t in s.threads && s.threads[t] == Using(n)
    ensures |Users(u, n)| == |Users(s, n)| - 1
    ensures forall m: Snap | m != n :: Users(u, m) == Users(s, m)
  {
    assert Users(u, n) == Users(s, n) - {t};
  }

  lemma AcquireInv(s: Sys, e: Event)
    requires Inv(s) && Enabled(s, e) && (e.Load? || e.ReadCount? || e.Swap?)
    ensures Inv(Apply(s, e))
  {
    var u := Apply(s, e);
    assert ThreadOk(s, e.thread);
    assert s.current.Some? ==> SnapOk(s, s.current.value);
    if e.Swap? && u.threads[e.thread].Using? { OneMoreUser(s, u, e.thread, s.threads[e.thread].snap); }
    else { SameUsers(s, u, e.thread); }
    hide Users;
    forall n: Snap ensures SnapOk(u, n) { assert SnapOk(s, n); }
    forall t: Thread ensures ThreadOk(u, t) { assert ThreadOk(s, t); }
  }

  lemma ReleaseInv(s: Sys, t: Thread)
    requires Inv(s) && Enabled(s, Release(t))
    ensures Inv(Apply(s, Release(t)))
  {
    var u := Apply(s, Release(t));
    OneUserLess(s, u, t, s.threads[t].snap);
    hide Users;
    forall n: Snap ensures SnapOk(u, n) { assert SnapOk(s, n); }
    forall x: Thread ensures ThreadOk(u, x) { assert ThreadOk(s, x); }
  }

  lemma EngineInv(s: Sys, e: Event)
    requires Inv(s) && Enabled(s, e) && (e.Reload? || e.Close? || e.Retire? || e.CloseCaches?)
    ensures Inv(Apply(s, e))
  {
    hide Users;
    var u := Apply(s, e);
    EngineUsers(s, e);
    if e.Reload? { NoUsersYet(s, e.snap); }
    forall n: Snap ensures SnapOk(u, n) { assert SnapOk(s, n); }
    forall x: Thread ensures ThreadOk(u, x) { assert ThreadOk(s, x); }
  }

  lemma EngineUsers(s: Sys, e: Event)
    requires Enabled(s, e) && (e.Reload? || e.Close? || e.Retire? || e.CloseCaches?)
    ensures forall n: Snap :: Users(Apply(s, e), n) == Users(s, n)
  {
  }

  lemma NoUsersYet(s: Sys, n: Snap)
    requires Inv(s) && n !in s.refs
    ensures Users(s, n) == {}
  {
    forall t: Thread ensures t !in Users(s, n) { assert ThreadOk(s, t); }
  }

  lemma NextInv(s: Sys, e: Event)
    requires Inv(s) && Enabled(s, e)
    ensures Inv(Apply(s, e))
  {
    match e
    case Release(t) => ReleaseInv(s, t);
    case Load(_) => AcquireInv(s, e);
    case ReadCount(_) => AcquireInv(s, e);
    case Swap(_) => AcquireInv(s, e);
    case _ => EngineInv(s, e);
  }

  lemma {:induction false} RunInv(s: Sys, es: seq<Event>, t: Sys)
    requires Inv(s) && Run(s, es, t)
    ensures Inv(t)
    decreases |es|
  {
    if es != [] {
      NextInv(s, es[0]);
      RunInv(Apply(s, es[0]), es[1..], t);
    }
  }

  lemma ReachableInv(t: Sys)
    requires Reachable(t)
    ensures Inv(t)
  {
    var s, es :| Init(s) && Run(s, es, t);
    forall n: Snap ensures SnapOk(s, n) { assert Users(s, n) == {}; }
    RunInv(s, es, t);
  }

  /** The count of a snapshot is always the engine's own reference, held until the
      one that retires it lets go, plus its users. */
  lemma CountIsOwnersAndUsers(t: Sys, n: Snap)
    requires Reachable(t) && n in t.refs
    ensures t.refs[n] == Owned(t, n) + |Users(t, n)|
    ensures t.current == Some(n) ==> t.refs[n] >= 1
  {
    ReachableInv(t);
    assert SnapOk(t, n);
  }

  /** No evaluator ever holds a snapshot whose caches are closed or closing. */
  lemma NoUseAfterClose(t: Sys, thread: Thread)
    requires Reachable(t) && thread in t.threads && t.threads[thread].Using?
    ensures var n := t.threads[thread].snap; t.closed[n] == 0 && t.closing[n] == 0
  {
    ReachableInv(t);
    var n := t.threads[thread].snap;
    assert ThreadOk(t, thread) && SnapOk(t, n);
    assert thread in Users(t, n);
  }

  /** Caches are closed at most once; once the engine has let go of a snapshot and
      its last user is gone, exactly once, done or under way. */
  lemma ClosedExactlyOnce(t: Sys, n: Snap)
    requires Reachable(t)
    ensures t.closed[n] + t.closing[n] <= 1
    ensures t.closed[n] + t.closing[n] == 1 <==> n in t.refs && Owned(t, n) == 0 && Users(t, n) == {}
  {
    ReachableInv(t);
    assert SnapOk(t, n);
    assert Users(t, n) == {} <==> |Users(t, n)| == 0;
  }

  /** An acquire fails only on a snapshot the engine pointer has already left, so
      the retry loads another one or learns that the engine is closed. */
  lemma FailedAcquireMeansMoved(t: Sys, thread: Thread)
    requires Reachable(t) && Enabled(t, ReadCount(thread)) && thread !in Apply(t, ReadCount(thread)).threads
    ensures t.current != Some(t.threads[thread].snap)
  {
    ReachableInv(t);
    assert SnapOk(t, t.threads[thread].snap);
  }

  /** Snapshots that were left never come back. */
  lemma {:induction false} NeverCurrentAgain(s: Sys, es: seq<Event>, t: Sys, n: Snap)
    requires Run(s, es, t) && n in s.refs && s.current != Some(n)
    ensures n in t.refs && t.current != Some(n)
    decreases |es|
  {
    if es != [] { NeverCurrentAgain(Apply(s, es[0]), es[1..], t, n); }
  }

  /** A reload takes effect at once: whoever loads the pointer next, and until the next
      reload or close, gets the new snapshot, and the old one is about to be let go. */
  lemma ReloadTakesEffect(s: Sys, n: Snap, thread: Thread)
    requires Enabled(s, Reload(n))
    ensures var t := Apply(s, Reload(n));
            && t.current == Some(n) && n in t.refs && t.refs[n] == 1 && t.retiring == s.current
            && (thread !in t.threads ==> Apply(t, Load(thread)).threads == t.threads[thread := Loaded(n)])
  {
  }

  lemma {:induction false} CurrentUntilReplaced(s: Sys, es: seq<Event>, t: Sys)
    requires Run(s, es, t) && forall i :: 0 <= i < |es| ==> !es[i].Reload? && !es[i].Close?
    ensures t.current == s.current
    decreases |es|
  {
    if es != [] { CurrentUntilReplaced(Apply(s, es[0]), es[1..], t); }
  }

  /** An evaluator that nobody gets in the way of acquires what it loaded, as long as the
      engine or a user still holds it, and gives it back. */
  lemma AcquireSucceeds(s: Sys, thread: Thread)
    requires Enabled(s, ReadCount(thread)) && s.refs[s.threads[thread].snap] > 0
    ensures var n, t := s.threads[thread].snap, Apply(s, ReadCount(thread));
            && Enabled(t, Swap(thread))
            && var u := Apply(t, Swap(thread));
               && u.threads[thread] == Using(n) && u.refs[n] == s.refs[n] + 1
               && Enabled(u, Release(thread)) && thread !in Apply(u, Release(thread)).threads && Apply(u, Release(thread)).refs[n] == s.refs[n]
  {
  }

  /** The engine lets go: a retired snapshot without users is closed by the release of the
      engine's own reference, and a closed engine hands out nothing. */
  lemma RetiredIsReleased(s: Sys, thread: Thread)
    requires Reachable(s) && Enabled(s, Retire)
    ensures var n, t := s.retiring.value, Apply(s, Retire);
            && t.retiring == None && t.refs[n] == s.refs[n] - 1
            && (Users(s, n) == {} && s.current != Some(n) ==> n in t.closing)
    ensures s.current == None && thread !in s.threads ==> Apply(s, Load(thread)) == s
  {
    ReachableInv(s);
    assert SnapOk(s, s.retiring.value);
  }
}
