/** Fibers moving between the chain of running spawners, the ready queue and waiter lists. */
module PromiseFibers {
  import opened PromiseState
  import opened PromiseBuilding

  /** Only fibers moved. */
  ghost predicate Moved(s: State, t: State) {
    && Shape(s) && Shape(t) && t == s.(waiters := t.waiters, ready := t.ready, running := t.running, fibers := t.fibers)
    && (forall p :: p in s.status && s.status[p] != Pending && p !in s.active ==> t.waiters[p] == s.waiters[p])
  }

  lemma MovedOk(s: State, t: State)
    requires Ok(s) && Moved(s, t) && FibersOk(t)
    ensures Ok(t)
  {
    hide FibersOk, CallbacksOk, AllsOk;
    MovedQueues(s, t);
    SameCallbacks(s, t);
    SameAlls(s, t);
  }

  lemma MovedQueues(s: State, t: State)
    requires Shape(s) && QueuesOk(s) && Moved(s, t)
    ensures QueuesOk(t)
  {
  }

  lemma SameAlls(s: State, t: State)
    requires Shape(s) && AllsOk(s, {}) && Moved(s, t)
    ensures AllsOk(t, {})
  {
    hide AllOk;
    forall a | a in t.slots ensures AllOk(t, a, {}) { SameAll(s, t, a, {}); }
  }

  lemma SplitLast(q: seq<Fiber>)
    requires Distinct(q) && q != []
    ensures Distinct(q[..|q| - 1]) && q[|q| - 1] !in q[..|q| - 1]
    ensures forall f :: f in q <==> f in q[..|q| - 1] || f == q[|q| - 1]
  {
    assert q == q[..|q| - 1] + [q[|q| - 1]];
  }

  lemma SplitFirst(q: seq<Fiber>)
    requires Distinct(q) && q != []
    ensures Distinct(q[1..]) && q[0] !in q[1..] && forall f :: f in q <==> f in q[1..] || f == q[0]
  {
    assert q == [q[0]] + q[1..];
  }

  lemma Appended(q: seq<Fiber>, g: Fiber)
    requires Distinct(q) && g !in q
    ensures Distinct(q + [g]) && forall f :: f in q + [g] <==> f in q || f == g
  {
  }

  /** The running fiber parks on a pending promise. */
  ghost function ParkedOn(s: State, p: Promise): State
    requires s.running != [] && p in s.waiters
  {
    var n := |s.running| - 1;
    s.(running := s.running[..n], waiters := s.waiters[p := s.waiters[p] + [s.running[n]]])
  }

  lemma ParkedOnOk(s: State, p: Promise)
    requires Ok(s) && s.running != [] && p in s.status && s.status[p] == Pending
    ensures p in s.waiters && Ok(ParkedOn(s, p))
  {
    hide CallbacksOk, AllsOk, QueuesOk;
    ParkedOnFibers(s, p);
    hide FibersOk;
    MovedOk(s, ParkedOn(s, p));
  }

  lemma StillSomewhere(s: State, p: Promise, f: Fiber)
    requires Shape(s) && FibersOk(s) && s.running != [] && p in s.status && f in s.fibers
    ensures f in ParkedOn(s, p).running || f in s.ready || Parked(ParkedOn(s, p), f)
  {
    var t := ParkedOn(s, p);
    SplitLast(s.running);
    if f == s.running[|s.running| - 1] {
      assert f in t.waiters[p];
    } else if Parked(s, f) {
      var q :| q in s.waiters && f in s.waiters[q];
      assert f in t.waiters[q];
    }
  }

  /** A fiber waiting once the running one has parked waits on one promise only. */
  lemma ParkedApart(s: State, p: Promise, q: Promise, f: Fiber)
    requires Shape(s) && FibersOk(s) && s.running != [] && p in s.status
    requires q in ParkedOn(s, p).waiters && f in ParkedOn(s, p).waiters[q]
    ensures f !in s.ready && f !in ParkedOn(s, p).running && f in s.fibers
    ensures forall o :: o in ParkedOn(s, p).waiters && o != q ==> f !in ParkedOn(s, p).waiters[o]
  {
    hide Parked;
    SplitLast(s.running);
    assert s.running[|s.running| - 1] in s.running;
    hide Distinct;
  }

  lemma ParkedOnDistinct(s: State, p: Promise, q: Promise)
    requires Shape(s) && FibersOk(s) && s.running != [] && p in s.status && q in ParkedOn(s, p).waiters
    ensures Distinct(ParkedOn(s, p).waiters[q])
  {
    assert s.running[|s.running| - 1] in s.running;
    hide Parked;
    Appended(s.waiters[p], s.running[|s.running| - 1]);
    hide Distinct;
  }

  lemma ParkedOnWaiters(s: State, p: Promise)
    requires Shape(s) && FibersOk(s) && s.running != [] && p in s.status
    ensures Shape(ParkedOn(s, p)) && WaitersApart(ParkedOn(s, p))
  {
    hide FibersOk, Distinct;
    var t := ParkedOn(s, p);
    forall q | q in t.waiters ensures Distinct(t.waiters[q]) { ParkedOnDistinct(s, p, q); }
    forall q, o, f | q in t.waiters && o in t.waiters && q != o && f in t.waiters[q] ensures f !in t.waiters[o] {
      ParkedApart(s, p, q, f);
    }
    forall q, f | q in t.waiters && f in t.waiters[q] ensures f !in t.ready && f !in t.running && f in t.fibers {
      ParkedApart(s, p, q, f);
    }
  }

  lemma ParkedOnFibers(s: State, p: Promise)
    requires Shape(s) && FibersOk(s) && s.running != [] && p in s.status
    ensures Shape(ParkedOn(s, p)) && FibersOk(ParkedOn(s, p))
  {
    hide Parked, WaitersApart;
    var t := ParkedOn(s, p);
    SplitLast(s.running);
    ParkedOnWaiters(s, p);
    hide Distinct;
    forall f | f in t.fibers ensures f in t.running || f in t.ready || Parked(t, f) { StillSomewhere(s, p, f); }
  }

  /** The running fiber goes to the back of the ready queue. */
  ghost function Yielded(s: State): State
    requires s.running != []
  {
    var n := |s.running| - 1;
    s.(running := s.running[..n], ready := s.ready + [s.running[n]])
  }

  lemma YieldedOk(s: State)
    requires Ok(s) && s.running != []
    ensures Ok(Yielded(s))
  {
    hide CallbacksOk, AllsOk, QueuesOk;
    var t := Yielded(s);
    SplitLast(s.running);
    Appended(s.ready, s.running[|s.running| - 1]);
    hide Distinct;
    FibersKept(s, t);
    hide FibersOk;
    MovedOk(s, t);
  }

  /** Fibers only moved between the running chain and the ready queue. */
  lemma FibersKept(s: State, t: State)
    requires Shape(s) && FibersOk(s) && Shape(t) && t.waiters == s.waiters && t.fibers == s.fibers
    requires Distinct(t.ready) && Distinct(t.running) && forall f :: f in t.ready ==> f !in t.running
    requires forall f :: f in t.ready || f in t.running <==> f in s.ready || f in s.running
    ensures FibersOk(t)
  {
    hide Distinct;
    WaitersStayApart(s, t);
    hide WaitersApart;
    forall f | f in t.fibers ensures f in t.running || f in t.ready || Parked(t, f) {
      if Parked(s, f) { assert Parked(t, f); }
    }
  }

  lemma WaitersStayApart(s: State, t: State)
    requires Shape(s) && WaitersApart(s) && Shape(t) && t.waiters == s.waiters && t.fibers == s.fibers
    requires forall f :: f in t.ready || f in t.running <==> f in s.ready || f in s.running
    ensures WaitersApart(t)
  {
    hide Distinct;
  }

  /** The loop takes the head of the ready queue. */
  ghost function Resumed(s: State): State
    requires s.ready != []
  {
    s.(ready := s.ready[1..], running := s.running + [s.ready[0]])
  }

  lemma ResumedOk(s: State)
    requires Ok(s) && s.ready != []
    ensures Ok(Resumed(s))
  {
    hide CallbacksOk, AllsOk, QueuesOk;
    var t := Resumed(s);
    SplitFirst(s.ready);
    Appended(s.running, s.ready[0]);
    hide Distinct;
    FibersKept(s, t);
    hide FibersOk;
    MovedOk(s, t);
  }

  /** A new fiber starts running at once, above its spawner, with a promise that is its own from now on. */
  ghost function Spawned(s: State, f: Fiber, p: Promise): State {
    s.(running := s.running + [f], fibers := s.fibers + {f}, owned := s.owned + {p})
  }

  /** No callback is going to settle `p`. */
  ghost predicate Untargeted(s: State, p: Promise)
    requires Shape(s)
  {
    forall q, k :: Owed(s, q, k) ==> s.cbs[q][k].dst != p
  }

  lemma OwnedOk(s: State, p: Promise)
    requires Ok(s) && p in s.status && s.status[p] == Pending && !Reserved(s, p) && Untargeted(s, p)
    ensures Ok(s.(owned := s.owned + {p}))
  {
    hide AllsOk, CallbacksOk, FibersOk, Reserved;
    var t := s.(owned := s.owned + {p});
    OwnedCallbacks(s, p);
    SameFibers(s, t);
    OwnedAlls(s, p);
  }

  lemma OwnedAlls(s: State, p: Promise)
    requires Shape(s) && AllsOk(s, {}) && p in s.status && !Reserved(s, p)
    ensures Shape(s.(owned := s.owned + {p})) && AllsOk(s.(owned := s.owned + {p}), {})
  {
    hide AllOk;
    var t := s.(owned := s.owned + {p});
    forall a | a in t.slots ensures AllOk(t, a, {}) { SameAll(s, t, a, {}); }
  }

  lemma OwnedCallbacks(s: State, p: Promise)
    requires Shape(s) && CallbacksOk(s) && p in s.status && Untargeted(s, p)
    ensures Shape(s.(owned := s.owned + {p})) && CallbacksOk(s.(owned := s.owned + {p}))
  {
    var t := s.(owned := s.owned + {p});
    forall q, k | Owed(t, q, k) ensures CallbackOk(t, q, t.cbs[q][k]) {
      assert Owed(s, q, k);
      assert CallbackOk(s, q, s.cbs[q][k]);
    }
    forall q, j, k | Owed(t, q, j) && Owed(t, q, k) && j < k ensures !SameInput(t.cbs[q][j], t.cbs[q][k]) {
      assert Owed(s, q, j) && Owed(s, q, k);
    }
  }

  /** A fiber about to end gives its promise up, so that it may settle. */
  ghost function Disowned(s: State, p: Promise): State {
    s.(owned := s.owned - {p})
  }

  ghost predicate FreeToSettle(s: State, p: Promise) {
    p in s.status && s.status[p] == Pending && !Reserved(s, p)
  }

  lemma DisownedOk(s: State, p: Promise)
    requires Ok(s) && p in s.owned
    ensures Ok(Disowned(s, p)) && FreeToSettle(Disowned(s, p), p)
  {
    hide AllsOk, CallbacksOk, FibersOk, Reserved;
    DisownedCallbacks(s, p);
    SameFibers(s, Disowned(s, p));
    DisownedAlls(s, p);
  }

  lemma DisownedAlls(s: State, p: Promise)
    requires Shape(s) && AllsOk(s, {}) && p in s.owned
    ensures Shape(Disowned(s, p)) && AllsOk(Disowned(s, p), {}) && !Reserved(Disowned(s, p), p)
  {
    hide AllOk;
    var t := Disowned(s, p);
    forall a | a in t.slots ensures AllOk(t, a, {}) { SameAll(s, t, a, {}); }
  }

  lemma DisownedCallbacks(s: State, p: Promise)
    requires Shape(s) && CallbacksOk(s)
    ensures Shape(Disowned(s, p)) && CallbacksOk(Disowned(s, p))
  {
    var t := Disowned(s, p);
    forall q, k | Owed(t, q, k) ensures CallbackOk(t, q, t.cbs[q][k]) {
      assert Owed(s, q, k);
      assert CallbackOk(s, q, s.cbs[q][k]);
    }
    forall q, j, k | Owed(t, q, j) && Owed(t, q, k) && j < k ensures !SameInput(t.cbs[q][j], t.cbs[q][k]) {
      assert Owed(s, q, j) && Owed(s, q, k);
    }
  }

  lemma SpawnedOk(s: State, f: Fiber, p: Promise)
    requires Ok(s) && f !in s.fibers && p in s.status && s.status[p] == Pending && !Reserved(s, p) && Untargeted(s, p)
    ensures Ok(Spawned(s, f, p))
  {
    OwnedOk(s, p);
    StartedOk(s.(owned := s.owned + {p}), f);
  }

  lemma StartedOk(s: State, f: Fiber)
    requires Ok(s) && f !in s.fibers
    ensures Ok(s.(running := s.running + [f], fibers := s.fibers + {f}))
  {
    hide CallbacksOk, AllsOk, QueuesOk;
    var t := s.(running := s.running + [f], fibers := s.fibers + {f});
    forall g | g in t.fibers ensures g in t.running || g in t.ready || Parked(t, g) {
      if g != f && Parked(s, g) { assert Parked(t, g); }
    }
    assert FibersOk(t);
    hide FibersOk;
    MovedOk(s, t);
  }

  /** The running fiber is done. */
  ghost function Finished(s: State): State
    requires s.running != []
  {
    var n := |s.running| - 1;
    s.(running := s.running[..n], fibers := s.fibers - {s.running[n]})
  }

  lemma FinishedOk(s: State)
    requires Ok(s) && s.running != []
    ensures Ok(Finished(s))
  {
    hide CallbacksOk, AllsOk, QueuesOk;
    var t := Finished(s);
    FinishedFibers(s);
    hide FibersOk;
    MovedOk(s, t);
  }

  lemma FinishedFibers(s: State)
    requires Shape(s) && FibersOk(s) && s.running != []
    ensures Shape(Finished(s)) && FibersOk(Finished(s))
  {
    var t := Finished(s);
    SplitLast(s.running);
    assert s.running[|s.running| - 1] in s.running;
    assert forall f :: f in t.running ==> f in s.running;
    hide Distinct;
    forall f | f in t.fibers ensures f in t.running || f in t.ready || Parked(t, f) {
      if Parked(s, f) { assert Parked(t, f); }
    }
  }

  // Where an unfinished fiber is ----------------------------------------------------------------------------

  ghost function Count(q: seq<Fiber>, f: Fiber): nat {
    if q == [] then 0 else (if q[0] == f then 1 else 0) + Count(q[1..], f)
  }

  lemma {:induction false} CountDistinct(q: seq<Fiber>, f: Fiber)
    requires Distinct(q)
    ensures Count(q, f) == if f in q then 1 else 0
  {
    if q != [] {
      CountDistinct(q[1..], f);
      if q[0] == f { assert forall i :: 0 <= i < |q[1..]| ==> q[1..][i] != f; }
    }
  }

  /** No fiber is lost or doubled: an unfinished fiber is on the running chain, or queued as ready, or waiting on
      exactly one promise, once; a finished one is nowhere. */
  lemma OnePlace(s: State, f: Fiber)
    requires Ok(s)
    ensures f in s.fibers <==> f in s.running || f in s.ready || Parked(s, f)
    ensures f in s.fibers && Parked(s, f) ==> (Count(s.running, f) == 0 && Count(s.ready, f) == 0
      && exists p :: p in s.waiters && Count(s.waiters[p], f) == 1
                     && forall q :: q in s.waiters && q != p ==> f !in s.waiters[q])
    ensures f in s.fibers && !Parked(s, f) ==> Count(s.running, f) + Count(s.ready, f) == 1
  {
    hide CallbacksOk, AllsOk, QueuesOk;
    CountDistinct(s.running, f);
    CountDistinct(s.ready, f);
    if Parked(s, f) {
      var p :| p in s.waiters && f in s.waiters[p];
      CountDistinct(s.waiters[p], f);
    }
  }

  // What fibers are for -------------------------------------------------------------------------------------

  /** Every fiber has a promise of its own to settle; the waiters of a promise are exactly the fibers awaiting it while
      it is pending. So a fiber that is ready or running awaits nothing, or a promise that has settled. */
  ghost predicate Awaits(s: State, owner: map<Fiber, Promise>, awaiting: map<Fiber, Promise>) {
    Owns(s, owner) && Waits(s, awaiting)
  }

  /** Between two calls into the scheduler: no wake is under way and no `all` is being built. */
  ghost predicate AtRest(s: State, owner: map<Fiber, Promise>, awaiting: map<Fiber, Promise>) {
    Ok(s) && Awaits(s, owner, awaiting) && Between(s)
  }

  lemma RestShape(s: State, owner: map<Fiber, Promise>, awaiting: map<Fiber, Promise>)
    requires AtRest(s, owner, awaiting)
    ensures Shape(s)
  {
  }

  ghost predicate Owns(s: State, owner: map<Fiber, Promise>) {
    && owner.Keys == s.fibers && owner.Values == s.owned
    && (forall f, g :: f in owner && g in owner && f != g ==> owner[f] != owner[g])
  }

  ghost predicate Waits(s: State, awaiting: map<Fiber, Promise>) {
    && awaiting.Keys <= s.fibers
    && (forall p, f :: p in s.waiters && f in s.waiters[p] ==> f in awaiting && awaiting[f] == p)
    && (forall f :: f in awaiting ==> WaitsRightly(s, f, awaiting[f]))
  }

  ghost predicate WaitsRightly(s: State, f: Fiber, p: Promise) {
    p in s.status && p in s.waiters && (s.status[p] == Pending ==> f in s.waiters[p])
  }

  lemma EmptyOk(s: State)
    requires s.status == map[] && s.payload == map[] && s.waiters == map[] && s.cbs == map[] && s.cursor == map[]
    requires s.ready == [] && s.running == [] && s.fibers == {} && s.active == {}
    requires s.remaining == map[] && s.values == map[] && s.slots == map[] && s.entries == map[] && s.result == map[]
    requires s.owned == {}
    ensures AtRest(s, map[], map[])
  {
  }

  lemma OwnsSame(s: State, t: State, owner: map<Fiber, Promise>)
    requires Owns(s, owner) && t.fibers == s.fibers && t.owned == s.owned
    ensures Owns(t, owner)
  {
  }

  lemma WaitsSame(s: State, t: State, awaiting: map<Fiber, Promise>)
    requires Waits(s, awaiting) && t.fibers == s.fibers && t.waiters == s.waiters && t.status == s.status
    ensures Waits(t, awaiting)
  {
    forall f | f in awaiting ensures WaitsRightly(t, f, awaiting[f]) { assert WaitsRightly(s, f, awaiting[f]); }
  }

  /** Settling keeps that: whoever waits waits on, or is woken. */
  lemma AwaitsAdvance(s: State, t: State, owner: map<Fiber, Promise>, awaiting: map<Fiber, Promise>)
    requires Ok(s) && Ok(t) && Advance(s, t, {}) && Awaits(s, owner, awaiting)
    ensures Awaits(t, owner, awaiting)
  {
    assert Framed(s, t, {}) && QueuesOk(s) && QueuesOk(t) && Shape(s) && Shape(t);
    hide Ok, Advance, Waits;
    OwnsSame(s, t, owner);
    WaitsAdvance(s, t, awaiting);
  }

  lemma WaitsAdvance(s: State, t: State, awaiting: map<Fiber, Promise>)
    requires Shape(s) && Shape(t) && QueuesOk(s) && QueuesOk(t) && Framed(s, t, {}) && Waits(s, awaiting)
    ensures Waits(t, awaiting)
  {
    hide QueuesOk, WaitsRightly, Shape, Framed;
    forall f | f in awaiting ensures WaitsRightly(t, f, awaiting[f]) { RightlyAdvance(s, t, f, awaiting[f]); }
    forall p | p in t.waiters ensures p in s.waiters && (t.waiters[p] == s.waiters[p] || t.waiters[p] == []) {
      WaitersAdvance(s, t, p);
    }
    assert t.fibers == s.fibers by { FramedFibers(s, t); }
  }

  lemma FramedFibers(s: State, t: State)
    requires Shape(s) && Shape(t) && Framed(s, t, {})
    ensures t.fibers == s.fibers
  {
  }

  lemma RightlyAdvance(s: State, t: State, f: Fiber, p: Promise)
    requires Shape(s) && Shape(t) && QueuesOk(s) && QueuesOk(t) && Framed(s, t, {}) && WaitsRightly(s, f, p)
    ensures WaitsRightly(t, f, p)
  {
    hide QueuesOk;
    if t.status[p] == Pending { PendingAdvance(s, t, p); }
  }

  lemma PendingAdvance(s: State, t: State, p: Promise)
    requires Shape(s) && Shape(t) && QueuesOk(s) && QueuesOk(t) && Framed(s, t, {})
    requires p in s.status && p in t.status && t.status[p] == Pending
    ensures s.status[p] == Pending && t.waiters[p] == s.waiters[p]
  {
  }

  lemma WaitersAdvance(s: State, t: State, p: Promise)
    requires Shape(s) && Shape(t) && QueuesOk(s) && QueuesOk(t) && Framed(s, t, {}) && p in t.waiters
    ensures p in s.waiters && (t.waiters[p] == s.waiters[p] || t.waiters[p] == [])
  {
    if t.status[p] == Pending {
      PendingAdvance(s, t, p);
    } else if p in s.active {
      assert p in s.active - {};
    } else {
      assert p !in t.active - {};
    }
  }

  /** The running fiber waits for nobody. */
  lemma RunnerIsFree(s: State)
    requires Ok(s) && s.running != []
    ensures Shape(s) && s.running[|s.running| - 1] in s.fibers
    ensures forall p, f :: p in s.waiters && f in s.waiters[p] ==> f != s.running[|s.running| - 1]
  {
    hide CallbacksOk, AllsOk, QueuesOk;
    assert s.running[|s.running| - 1] in s.running;
  }

  /** The running fiber has a promise of its own, which nobody else settles. */
  lemma OwnerOfRunner(s: State, owner: map<Fiber, Promise>, awaiting: map<Fiber, Promise>)
    requires Ok(s) && Awaits(s, owner, awaiting) && s.running != []
    ensures s.running[|s.running| - 1] in owner && owner[s.running[|s.running| - 1]] in s.owned
  {
    hide Ok, Waits;
    RunnerIsFree(s);
  }

  lemma AwaitsParked(s: State, p: Promise, owner: map<Fiber, Promise>, awaiting: map<Fiber, Promise>)
    requires Ok(s) && Awaits(s, owner, awaiting) && s.running != [] && p in s.status && s.status[p] == Pending
    requires p in s.waiters && s.running[|s.running| - 1] !in awaiting
    ensures Awaits(ParkedOn(s, p), owner, awaiting[s.running[|s.running| - 1] := p])
  {
    hide Ok, Owns;
    RunnerIsFree(s);
    var t, g := ParkedOn(s, p), s.running[|s.running| - 1];
    OwnsSame(s, t, owner);
    forall f | f in awaiting ensures f != g && WaitsRightly(t, f, awaiting[f]) {
      assert WaitsRightly(s, f, awaiting[f]);
    }
    assert WaitsRightly(t, g, p);
    hide WaitsRightly;
  }

  /** A fiber that awaits a settled promise takes one hop. */
  lemma AwaitsHop(s: State, p: Promise, owner: map<Fiber, Promise>, awaiting: map<Fiber, Promise>)
    requires Ok(s) && Awaits(s, owner, awaiting) && s.running != [] && p in s.status && s.status[p] != Pending
    requires p in s.waiters && s.running[|s.running| - 1] !in awaiting
    ensures Awaits(Yielded(s), owner, awaiting[s.running[|s.running| - 1] := p])
  {
    hide Ok, Owns;
    RunnerIsFree(s);
    var t, g := Yielded(s), s.running[|s.running| - 1];
    OwnsSame(s, t, owner);
    forall f | f in awaiting ensures f != g && WaitsRightly(t, f, awaiting[f]) {
      assert WaitsRightly(s, f, awaiting[f]);
    }
    assert WaitsRightly(t, g, p);
    hide WaitsRightly;
  }

  /** What a running fiber awaited has settled, so it can go on. */
  lemma AwaitOver(s: State, owner: map<Fiber, Promise>, awaiting: map<Fiber, Promise>)
    requires Ok(s) && Awaits(s, owner, awaiting) && s.running != [] && s.running[|s.running| - 1] in awaiting
    ensures AwaitedSettled(s, awaiting[s.running[|s.running| - 1]])
    ensures Awaits(s, owner, awaiting - {s.running[|s.running| - 1]})
  {
    hide Ok, Owns;
    RunnerIsFree(s);
    var g := s.running[|s.running| - 1];
    assert WaitsRightly(s, g, awaiting[g]);
  }

  ghost predicate AwaitedSettled(s: State, p: Promise) {
    p in s.status && p in s.payload && s.status[p] != Pending
  }

  /** A new promise, with or without an `all` for it, concerns no fiber. */
  lemma AwaitsGrown(s: State, t: State, r: Promise, owner: map<Fiber, Promise>, awaiting: map<Fiber, Promise>)
    requires Ok(s) && Grown(s, t, r) && Awaits(s, owner, awaiting)
    ensures Awaits(t, owner, awaiting)
  {
    hide Ok, Owns, Waits;
    OwnsSame(s, t, owner);
    hide Grown;
    WaitsGrown(s, t, r, awaiting);
  }

  lemma WaitsGrown(s: State, t: State, r: Promise, awaiting: map<Fiber, Promise>)
    requires Grown(s, t, r) && Waits(s, awaiting)
    ensures Waits(t, awaiting)
  {
    hide Grown;
    GrownWaiters(s, t, r);
    forall f | f in awaiting ensures WaitsRightly(t, f, awaiting[f]) { assert WaitsRightly(s, f, awaiting[f]); }
    hide WaitsRightly;
  }

  lemma GrownWaiters(s: State, t: State, r: Promise)
    requires Grown(s, t, r)
    ensures r !in s.status && r !in s.waiters && t.fibers == s.fibers
    ensures t.status == s.status[r := Pending] && t.waiters == s.waiters[r := []]
  {
    hide SameRecord;
  }

  lemma AwaitsSpawned(s: State, f: Fiber, p: Promise, owner: map<Fiber, Promise>, awaiting: map<Fiber, Promise>)
    requires Awaits(s, owner, awaiting) && f !in s.fibers && p !in s.owned
    ensures Awaits(Spawned(s, f, p), owner[f := p], awaiting)
  {
    hide Owns, Waits;
    OwnsSpawned(s, f, p, owner);
    WaitsSpawned(s, f, p, awaiting);
  }

  lemma OwnsSpawned(s: State, f: Fiber, p: Promise, owner: map<Fiber, Promise>)
    requires Owns(s, owner) && f !in s.fibers && p !in s.owned
    ensures Owns(Spawned(s, f, p), owner[f := p])
  {
    assert forall g :: g in owner ==> owner[g] in owner.Values;
    assert owner[f := p].Values == owner.Values + {p} by {
      forall q ensures q in owner[f := p].Values <==> q in owner.Values + {p} {
        if q in owner.Values {
          var g :| g in owner && owner[g] == q;
          assert owner[f := p][g] == q;
        }
        assert owner[f := p][f] == p;
      }
    }
  }

  lemma WaitsSpawned(s: State, f: Fiber, p: Promise, awaiting: map<Fiber, Promise>)
    requires Waits(s, awaiting)
    ensures Waits(Spawned(s, f, p), awaiting)
  {
    var t := Spawned(s, f, p);
    forall g | g in awaiting ensures WaitsRightly(t, g, awaiting[g]) { assert WaitsRightly(s, g, awaiting[g]); }
    hide WaitsRightly;
  }

  lemma OwnsValues(s: State, f: Fiber, p: Promise, owner: map<Fiber, Promise>, awaiting: map<Fiber, Promise>)
    requires Awaits(s, owner, awaiting) && f !in s.fibers && p !in s.owned
    ensures owner[f := p].Values == s.owned + {p}
  {
    hide Waits;
    OwnsSpawned(s, f, p, owner);
  }

  /** An ending fiber's promise is struck off, and no other fiber's. */
  lemma OwnsDisowned(s: State, f: Fiber, owner: map<Fiber, Promise>)
    requires Owns(s, owner) && f in owner
    ensures (owner - {f}).Values == s.owned - {owner[f]} && (owner - {f}).Keys == s.fibers - {f}
    ensures forall g, h :: g in owner - {f} && h in owner - {f} && g != h ==> (owner - {f})[g] != (owner - {f})[h]
  {
    forall q ensures q in (owner - {f}).Values <==> q in s.owned - {owner[f]} {
      if q in s.owned - {owner[f]} {
        var g :| g in owner && owner[g] == q;
        assert (owner - {f})[g] == q;
      }
      if q in (owner - {f}).Values {
        var g :| g in owner - {f} && (owner - {f})[g] == q;
        assert owner[g] == q && q in owner.Values;
      }
    }
  }

  lemma OwnsFinished(s: State, t: State, f: Fiber, owner: map<Fiber, Promise>)
    requires Owns(s, owner) && f in owner && t.fibers == s.fibers - {f} && t.owned == s.owned - {owner[f]}
    ensures Owns(t, owner - {f})
  {
    OwnsDisowned(s, f, owner);
  }

  /** Whoever waits, waits on, or is woken, when an ending fiber's promise settles. */
  lemma WaitsSettled(s: State, t: State, u: State, p: Promise, awaiting: map<Fiber, Promise>)
    requires t == Disowned(s, p) && Ok(t) && Ok(u) && Advance(t, u, {}) && Waits(s, awaiting)
    ensures Waits(u, awaiting) && u.running == s.running && u.fibers == s.fibers && u.owned == s.owned - {p}
  {
    assert Framed(t, u, {}) && QueuesOk(t) && QueuesOk(u) && Shape(t) && Shape(u);
    hide Ok, Advance, Waits;
    WaitsSame(s, t, awaiting);
    WaitsAdvance(t, u, awaiting);
  }

  lemma WaitsFinished(s: State, awaiting: map<Fiber, Promise>)
    requires Ok(s) && Waits(s, awaiting) && s.running != [] && s.running[|s.running| - 1] !in awaiting
    ensures Waits(Finished(s), awaiting)
  {
    hide Ok;
    RunnerIsFree(s);
    var t, g := Finished(s), s.running[|s.running| - 1];
    forall f | f in awaiting ensures f != g && WaitsRightly(t, f, awaiting[f]) {
      assert WaitsRightly(s, f, awaiting[f]);
    }
    hide WaitsRightly;
  }

  lemma AwaitsSame(s: State, t: State, owner: map<Fiber, Promise>, awaiting: map<Fiber, Promise>)
    requires Awaits(s, owner, awaiting) && t.fibers == s.fibers && t.waiters == s.waiters
    requires t.status == s.status && t.owned == s.owned
    ensures Awaits(t, owner, awaiting)
  {
    hide Owns, Waits;
    OwnsSame(s, t, owner);
    WaitsSame(s, t, awaiting);
  }

  /** The same when the `all` being built was the only thing out of order. */
  lemma AwaitsWeaklyAdvance(s: State, t: State, except: set<Promise>, owner: map<Fiber, Promise>,
                            awaiting: map<Fiber, Promise>)
    requires OkBut(s, except) && Ok(t) && Advance(s, t, {}) && Awaits(s, owner, awaiting)
    ensures Awaits(t, owner, awaiting)
  {
    assert Framed(s, t, {}) && QueuesOk(s) && QueuesOk(t) && Shape(s) && Shape(t);
    hide OkBut, Advance, Waits;
    OwnsSame(s, t, owner);
    WaitsAdvance(s, t, awaiting);
  }

  /** A new promise is nobody's yet. */
  lemma AddedOrdinary(s: State, p: Promise)
    requires Ok(s) && p !in s.status
    ensures Shape(Added(s, p)) && !Reserved(Added(s, p), p) && Untargeted(Added(s, p), p)
  {
    hide QueuesOk, FibersOk, Missing, InputOk;
    AddedShape(s, p);
    forall a | a in s.result ensures s.result[a] != p { assert AllOk(s, a, {}); }
    hide AllOk, AllsOk;
    forall q, k | Owed(Added(s, p), q, k) ensures Added(s, p).cbs[q][k].dst != p {
      assert Owed(s, q, k) && CallbackOk(s, q, s.cbs[q][k]);
    }
  }

  lemma AwaitedSame(s: State, e: Promise, a: AllId, i: nat)
    requires e in s.cbs && a in s.slots && i < |s.slots[a]| && a in s.result
    ensures Subscribing(s, e, a, i).status == s.status && Subscribing(s, e, a, i).waiters == s.waiters
    ensures Subscribing(s, e, a, i).fibers == s.fibers && Subscribing(s, e, a, i).owned == s.owned
  {
  }

  // The order of awaits -------------------------------------------------------------------------------------

  datatype AwaitOf = AwaitOf(fiber: Fiber, promise: Promise)

  /** The fibers that awaited `p`, in the order of their awaits. */
  ghost function Awaiters(awaits: seq<AwaitOf>, p: Promise): seq<Fiber> {
    if awaits == [] then []
    else
      var last := awaits[|awaits| - 1];
      Awaiters(awaits[..|awaits| - 1], p) + if last.promise == p then [last.fiber] else []
  }

  /** The waiters of a pending promise are the fibers that awaited it, in that order. */
  ghost predicate InAwaitOrder(s: State, awaits: seq<AwaitOf>) {
    && (forall p :: p in s.status && s.status[p] == Pending ==> p in s.waiters && s.waiters[p] == Awaiters(awaits, p))
    && (forall a :: a in awaits ==> a.promise in s.status)
  }

  lemma WaitersAre(s: State, awaits: seq<AwaitOf>, p: Promise)
    requires InAwaitOrder(s, awaits) && p in s.status && s.status[p] == Pending
    ensures p in s.waiters && s.waiters[p] == Awaiters(awaits, p)
  {
  }

  lemma OrderEmpty(s: State)
    requires s.status == map[]
    ensures InAwaitOrder(s, [])
  {
  }

  lemma {:induction false} NoAwaiters(awaits: seq<AwaitOf>, p: Promise)
    requires forall a :: a in awaits ==> a.promise != p
    ensures Awaiters(awaits, p) == []
  {
    if awaits != [] { NoAwaiters(awaits[..|awaits| - 1], p); }
  }

  lemma OrderAwaited(s: State, t: State, awaits: seq<AwaitOf>, f: Fiber, p: Promise)
    requires InAwaitOrder(s, awaits) && p in s.status && p in s.waiters && t.status == s.status
    requires t.waiters == if s.status[p] == Pending then s.waiters[p := s.waiters[p] + [f]] else s.waiters
    ensures InAwaitOrder(t, awaits + [AwaitOf(f, p)])
  {
    assert (awaits + [AwaitOf(f, p)])[..|awaits|] == awaits;
  }

  lemma OrderGrown(s: State, t: State, r: Promise, awaits: seq<AwaitOf>)
    requires InAwaitOrder(s, awaits) && Grown(s, t, r)
    ensures InAwaitOrder(t, awaits)
  {
    GrownWaiters(s, t, r);
    NoAwaiters(awaits, r);
    hide Grown, Awaiters;
  }

  lemma OrderAdvance(s: State, t: State, awaits: seq<AwaitOf>)
    requires InAwaitOrder(s, awaits) && Advance(s, t, {}) && Ok(t)
    ensures InAwaitOrder(t, awaits)
  {
    assert Shape(s) && Shape(t) && Framed(s, t, {});
    hide Ok, Advance, Awaiters;
    forall p | p in t.status && t.status[p] == Pending ensures p in t.waiters && t.waiters[p] == Awaiters(awaits, p) {
      StillPending(s, t, p);
    }
    assert t.status.Keys == s.status.Keys;
    hide Framed, Shape;
  }

  lemma StillPending(s: State, t: State, p: Promise)
    requires Shape(s) && Shape(t) && Framed(s, t, {}) && p in t.status && t.status[p] == Pending
    ensures p in s.status && s.status[p] == Pending && p in s.waiters && p in t.waiters && t.waiters[p] == s.waiters[p]
  {
  }

  lemma OrderSame(s: State, t: State, awaits: seq<AwaitOf>)
    requires InAwaitOrder(s, awaits) && t.status == s.status && t.waiters == s.waiters
    ensures InAwaitOrder(t, awaits)
  {
  }

  /** Of two awaits of the same promise the earlier one is the earlier in line. */
  lemma {:induction false} EarlierAwaitFirst(awaits: seq<AwaitOf>, p: Promise, i: nat, j: nat) returns (a: nat, b: nat)
    requires i < j < |awaits| && awaits[i].promise == p && awaits[j].promise == p
    ensures a < b < |Awaiters(awaits, p)|
    ensures Awaiters(awaits, p)[a] == awaits[i].fiber && Awaiters(awaits, p)[b] == awaits[j].fiber
  {
    var front := awaits[..|awaits| - 1];
    if j == |awaits| - 1 {
      a := AwaitInLine(front, p, i);
      b := |Awaiters(front, p)|;
    } else {
      a, b := EarlierAwaitFirst(front, p, i, j);
    }
  }

  lemma {:induction false} AwaitInLine(awaits: seq<AwaitOf>, p: Promise, i: nat) returns (a: nat)
    requires i < |awaits| && awaits[i].promise == p
    ensures a < |Awaiters(awaits, p)| && Awaiters(awaits, p)[a] == awaits[i].fiber
  {
    if i == |awaits| - 1 { a := |Awaiters(awaits[..i], p)|; } else { a := AwaitInLine(awaits[..|awaits| - 1], p, i); }
  }

  /** Fibers woken by one settlement go on in the order of their awaits. `line` is everything that has been resumed
      or is ready at some time after the settlement, in order; before it, that was `before`. */
  lemma WokenInAwaitOrder(before: seq<Fiber>, line: seq<Fiber>, awaits: seq<AwaitOf>, p: Promise, i: nat, j: nat)
    returns (a: nat, b: nat)
    requires before + Awaiters(awaits, p) <= line
    requires i < j < |awaits| && awaits[i].promise == p && awaits[j].promise == p
    ensures |before| <= a < b < |line| && line[a] == awaits[i].fiber && line[b] == awaits[j].fiber
  {
    a, b := EarlierAwaitFirst(awaits, p, i, j);
    assert (before + Awaiters(awaits, p))[|before| + a] == awaits[i].fiber;
    assert (before + Awaiters(awaits, p))[|before| + b] == awaits[j].fiber;
    a, b := |before| + a, |before| + b;
  }
}
