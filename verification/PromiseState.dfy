/** Promises with combinator callbacks and parked fibers: the state, its invariant, and the effect of each step of a
    settlement. */
module PromiseState {
  type Promise = nat
  type Fiber = nat
  type AllId = nat

  datatype Status = Pending | Fulfilled | Rejected

  /** A settlement's payload: a plain value, or the values array of one `all`. */
  datatype Value = Plain(v: int) | Values(all: AllId)

  /** A parked combinator callback: a race entry converts the payload for its destination, an `all` entry reports to
      its shared countdown at its input index. */
  datatype Callback = RaceCb(dst: Promise, adapt: Value -> Value) | AllCb(dst: Promise, all: AllId, idx: nat)

  /** What became of one input of an `all`. */
  datatype Slot = Unreached | Waiting | Filled | Failed

  datatype State = State(status: map<Promise, Status>, payload: map<Promise, Value>,
                         waiters: map<Promise, seq<Fiber>>, cbs: map<Promise, seq<Callback>>, cursor: map<Promise, nat>,
                         ready: seq<Fiber>, running: seq<Fiber>, fibers: set<Fiber>,
                         remaining: map<AllId, int>, values: map<AllId, seq<Value>>, slots: map<AllId, seq<Slot>>,
                         entries: map<AllId, seq<Promise>>, result: map<AllId, Promise>,
                         active: set<Promise>, owned: set<Promise>)

  ghost predicate Shape(s: State) {
    && s.payload.Keys == s.status.Keys && s.waiters.Keys == s.status.Keys
    && s.cbs.Keys == s.status.Keys && s.cursor.Keys == s.status.Keys && s.active <= s.status.Keys
    && s.values.Keys == s.remaining.Keys && s.slots.Keys == s.remaining.Keys
    && s.entries.Keys == s.remaining.Keys && s.result.Keys == s.remaining.Keys && s.owned <= s.status.Keys
  }

  /** Promises that no resolver, race or `all` input may settle: each fiber's own, and the results of `all`s. */
  ghost predicate Reserved(s: State, p: Promise) {
    p in s.owned || exists a :: a in s.result && s.result[a] == p
  }

  /** The callbacks of `p` not run yet. */
  ghost predicate Owed(s: State, p: Promise, k: int)
    requires Shape(s)
  {
    p in s.status && s.cursor[p] <= k < |s.cbs[p]|
  }

  /** Outstanding callbacks are well formed, and an `all` input has at most one. */
  ghost predicate CallbacksOk(s: State)
    requires Shape(s)
  {
    && (forall p, k :: Owed(s, p, k) ==> CallbackOk(s, p, s.cbs[p][k]))
    && (forall p, j, k :: Owed(s, p, j) && Owed(s, p, k) && j < k ==> !SameInput(s.cbs[p][j], s.cbs[p][k]))
  }

  ghost predicate CallbackOk(s: State, p: Promise, cb: Callback)
    requires Shape(s)
  {
    && cb.dst in s.status
    && match cb
       case RaceCb(dst, _) => !Reserved(s, dst)
       case AllCb(dst, a, i) => a in s.slots && dst == s.result[a] && i < |s.slots[a]| && i < |s.entries[a]|
                                && s.entries[a][i] == p && s.slots[a][i] == Waiting
  }

  ghost predicate SameInput(c: Callback, d: Callback) {
    c.AllCb? && d.AllCb? && c.all == d.all && c.idx == d.idx
  }

  /** Some callback of `p` still owed reports input `i` of `a`. */
  ghost predicate OwedFor(s: State, p: Promise, a: AllId, i: nat)
    requires Shape(s)
  {
    exists k :: Owed(s, p, k) && s.cbs[p][k].AllCb? && s.cbs[p][k].all == a && s.cbs[p][k].idx == i
  }

  /** The number of inputs not filled yet. */
  ghost function Missing(t: seq<Slot>): nat {
    if t == [] then 0 else (if t[0] == Filled then 0 else 1) + Missing(t[1..])
  }

  lemma {:induction false} MissingUpdate(t: seq<Slot>, i: nat, x: Slot)
    requires i < |t| && t[i] != Filled
    ensures Missing(t[i := x]) == Missing(t) - (if x == Filled then 1 else 0)
  {
    if i == 0 {
      assert t[0 := x][1..] == t[1..];
    } else {
      assert t[i := x][1..] == t[1..][i-1 := x];
      MissingUpdate(t[1..], i - 1, x);
    }
  }

  lemma {:induction false} MissingNone(t: seq<Slot>)
    ensures Missing(t) == 0 <==> forall i :: 0 <= i < |t| ==> t[i] == Filled
  {
    if t != [] {
      MissingNone(t[1..]);
      if forall i :: 0 <= i < |t| ==> t[i] == Filled {
        forall i | 0 <= i < |t[1..]| ensures t[1..][i] == Filled { assert t[i + 1] == Filled; }
      }
    }
  }

  /** One `all`: its countdown and values agree with what became of its inputs, and its result is settled by them. */
  ghost predicate AllOk(s: State, a: AllId, except: set<Promise>)
    requires Shape(s) && a in s.slots
  {
    var r := s.result[a];
    && |s.slots[a]| == |s.entries[a]| && |s.values[a]| == |s.entries[a]| && r in s.status
    && s.remaining[a] == Missing(s.slots[a])
    && (forall i :: 0 <= i < |s.slots[a]| ==> InputOk(s, a, i))
    && (s.status[r] == Fulfilled ==> s.payload[r] == Values(a) && Missing(s.slots[a]) == 0)
    && (s.status[r] == Rejected ==> exists i :: FailedWith(s, a, i, s.payload[r]))
    && (s.status[r] == Pending && r !in except ==>
          Missing(s.slots[a]) > 0 && forall i :: 0 <= i < |s.slots[a]| ==> s.slots[a][i] != Failed)
  }

  ghost predicate InputOk(s: State, a: AllId, i: nat)
    requires Shape(s) && a in s.slots && i < |s.slots[a]| == |s.entries[a]| == |s.values[a]|
  {
    var e := s.entries[a][i];
    && e in s.status
    && match s.slots[a][i]
       case Unreached => true
       case Waiting => OwedFor(s, e, a, i)
       case Filled => s.status[e] == Fulfilled && s.values[a][i] == s.payload[e]
       case Failed => s.status[e] == Rejected
  }

  ghost predicate FailedWith(s: State, a: AllId, i: nat, v: Value)
    requires Shape(s) && a in s.slots && |s.slots[a]| == |s.entries[a]|
  {
    && i < |s.slots[a]| && s.slots[a][i] == Failed
    && s.entries[a][i] in s.status && s.status[s.entries[a][i]] == Rejected && s.payload[s.entries[a][i]] == v
  }

  ghost predicate AllsOk(s: State, except: set<Promise>)
    requires Shape(s)
  {
    && (forall a :: a in s.slots ==> AllOk(s, a, except))
    && (forall a, b :: a in s.result && b in s.result && a != b ==> s.result[a] != s.result[b])
    && (forall a :: a in s.result ==> s.result[a] !in s.owned)
  }

  /** A fiber's own promise is pending. A pending promise has run no callback; a settled one that is not being woken
      has neither callbacks nor waiters. */
  ghost predicate QueuesOk(s: State)
    requires Shape(s)
  {
    && (forall p :: p in s.owned ==> s.status[p] == Pending)
    && (forall p :: p in s.status && s.status[p] == Pending ==> s.cursor[p] == 0 && p !in s.active)
    && (forall p :: p in s.status && s.status[p] != Pending && p !in s.active ==>
          s.cbs[p] == [] && s.waiters[p] == [] && s.cursor[p] == 0)
  }

  ghost predicate Distinct(q: seq<Fiber>) {
    forall i, j :: 0 <= i < j < |q| ==> q[i] != q[j]
  }

  /** Every unfinished fiber is in exactly one place: on the chain of running spawners once, in the ready queue
      once, or once in the waiter list of one promise. */
  ghost predicate FibersOk(s: State)
    requires Shape(s)
  {
    && Distinct(s.ready)
    && WaitersApart(s)
    && (forall f :: f in s.ready ==> f !in s.running && f in s.fibers)
    && Distinct(s.running) && (forall f :: f in s.running ==> f in s.fibers)
    && (forall f :: f in s.fibers ==> f in s.running || f in s.ready || Parked(s, f))
  }

  /** A waiting fiber waits once, on one promise, and is nowhere else. */
  ghost predicate WaitersApart(s: State)
    requires Shape(s)
  {
    && (forall p :: p in s.waiters ==> Distinct(s.waiters[p]))
    && (forall p, q, f :: p in s.waiters && q in s.waiters && p != q && f in s.waiters[p] ==> f !in s.waiters[q])
    && (forall p, f :: p in s.waiters && f in s.waiters[p] ==> f !in s.ready && f !in s.running && f in s.fibers)
  }

  ghost predicate Parked(s: State, f: Fiber) {
    exists p :: p in s.waiters && f in s.waiters[p]
  }

  ghost predicate OkBut(s: State, except: set<Promise>) {
    Shape(s) && CallbacksOk(s) && AllsOk(s, except) && QueuesOk(s) && FibersOk(s)
  }

  ghost predicate Ok(s: State) {
    OkBut(s, {})
  }

  // ---------------------------------------------------------------------------------------------------------
  // What a cascade may change

  /** From `s` to `t` promises only settled: no settled promise changed; the queues of promises still pending, and of
      those being woken (`mine` aside), are untouched; and the ready queue only grew, by waiters of promises that
      settled. */
  ghost predicate Advance(s: State, t: State, mine: set<Promise>) {
    && Shape(s) && Shape(t) && Framed(s, t, mine)
    && s.ready <= t.ready
    && (forall f :: f in t.ready && f !in s.ready ==> Woken(s, t, f))
  }

  ghost predicate Framed(s: State, t: State, mine: set<Promise>)
    requires Shape(s) && Shape(t)
  {
    && t.status.Keys == s.status.Keys && t.active - mine == s.active - mine
    && t.entries == s.entries && t.result == s.result && t.running == s.running && t.fibers == s.fibers
    && t.owned == s.owned
    && (forall p :: p in s.status && s.status[p] != Pending ==>
          t.status[p] == s.status[p] && t.payload[p] == s.payload[p])
    && (forall p :: p in s.status && t.status[p] == Pending ==> t.waiters[p] == s.waiters[p] && t.cbs[p] == s.cbs[p])
    && (forall p :: p in s.active - mine ==>
          t.waiters[p] == s.waiters[p] && t.cbs[p] == s.cbs[p] && t.cursor[p] == s.cursor[p])
  }

  /** The inputs an `all` under construction has not reached. */
  ghost function YetToReach(s: State): iset<(AllId, nat)> {
    iset x: (AllId, nat) | IsUnreached(s, x.0, x.1)
  }

  ghost predicate IsUnreached(s: State, a: AllId, i: int) {
    a in s.slots && 0 <= i < |s.slots[a]| && s.slots[a][i] == Unreached
  }

  ghost predicate Woken(s: State, t: State, f: Fiber)
    requires Shape(s)
  {
    exists p :: p in s.status && s.status[p] == Pending && p in t.status && t.status[p] != Pending && f in s.waiters[p]
  }

  lemma AdvanceRefl(s: State, mine: set<Promise>)
    requires Shape(s)
    ensures Advance(s, s, mine)
  {
  }

  lemma AdvanceWoken(s: State, t: State, u: State, mine: set<Promise>, f: Fiber)
    requires Advance(s, t, mine) && Advance(t, u, mine) && f in u.ready && f !in s.ready
    ensures Woken(s, u, f)
  {
    if f in t.ready {
      assert Woken(s, t, f);
    } else {
      assert Woken(t, u, f);
      var p :| p in t.status && t.status[p] == Pending && p in u.status && u.status[p] != Pending && f in t.waiters[p];
      assert s.status[p] == Pending;
    }
  }

  lemma AdvanceTrans(s: State, t: State, u: State, mine: set<Promise>)
    requires Advance(s, t, mine) && Advance(t, u, mine)
    ensures Advance(s, u, mine)
  {
    forall f | f in u.ready && f !in s.ready ensures Woken(s, u, f) { AdvanceWoken(s, t, u, mine, f); }
    AdvanceFrames(s, t, u, mine);
    hide Framed, Woken;
  }

  lemma AdvanceFrames(s: State, t: State, u: State, mine: set<Promise>)
    requires Advance(s, t, mine) && Advance(t, u, mine)
    ensures Framed(s, u, mine)
  {
    AdvanceShapes(s, t, u, mine);
    hide Advance, Shape;
    forall p | p in s.status ensures FramedAt(s, u, mine, p) { AdvanceFrame(s, t, u, mine, p); }
    FramedAll(s, u, mine);
  }

  lemma FramedAll(s: State, t: State, mine: set<Promise>)
    requires Shape(s) && Shape(t) && t.status.Keys == s.status.Keys && s.active <= s.status.Keys
    requires t.active - mine == s.active - mine && t.owned == s.owned
    requires t.entries == s.entries && t.result == s.result && t.running == s.running && t.fibers == s.fibers
    requires forall p :: p in s.status ==> FramedAt(s, t, mine, p)
    ensures Framed(s, t, mine)
  {
  }

  lemma AdvanceShapes(s: State, t: State, u: State, mine: set<Promise>)
    requires Advance(s, t, mine) && Advance(t, u, mine)
    ensures Shape(s) && Shape(u) && u.status.Keys == s.status.Keys && s.active <= s.status.Keys
    ensures u.active - mine == s.active - mine
    ensures u.entries == s.entries && u.result == s.result && u.running == s.running && u.fibers == s.fibers
    ensures u.owned == s.owned
  {
    hide Woken;
  }

  /** One promise of a framed step. */
  ghost predicate FramedAt(s: State, t: State, mine: set<Promise>, p: Promise)
    requires Shape(s) && Shape(t) && p in s.status && p in t.status
  {
    && (s.status[p] != Pending ==> t.status[p] == s.status[p] && t.payload[p] == s.payload[p])
    && (t.status[p] == Pending ==> t.waiters[p] == s.waiters[p] && t.cbs[p] == s.cbs[p])
    && (p in s.active - mine ==> t.waiters[p] == s.waiters[p] && t.cbs[p] == s.cbs[p] && t.cursor[p] == s.cursor[p])
  }

  lemma AdvanceFrame(s: State, t: State, u: State, mine: set<Promise>, p: Promise)
    requires Advance(s, t, mine) && Advance(t, u, mine) && Shape(s) && Shape(u) && p in s.status && p in u.status
    ensures FramedAt(s, u, mine, p)
  {
    hide Woken;
    assert p in t.status && (p in s.active - mine ==> p in t.active - mine);
  }

  lemma AdvanceMine(s: State, t: State, mine: set<Promise>)
    requires Advance(s, t, {})
    ensures Advance(s, t, mine)
  {
    hide Woken;
    assert s.active - {} == s.active && t.active - {} == t.active;
  }

  lemma AdvanceDone(s: State, t: State, p: Promise)
    requires Advance(s, t, {p}) && p !in s.active && p !in t.active
    ensures Advance(s, t, {})
  {
    hide Woken;
    assert s.active - {p} == s.active && t.active - {p} == t.active;
  }

  ghost function PendingSet(s: State): set<Promise> {
    set p | p in s.status && s.status[p] == Pending
  }

  lemma SamePending(s: State, t: State)
    requires t.status == s.status
    ensures PendingSet(t) == PendingSet(s)
  {
  }

  // ---------------------------------------------------------------------------------------------------------
  // The steps of one settlement

  /** `p` may settle this way: anything goes for an ordinary promise, an `all` result needs its inputs' say. */
  ghost predicate CanSettle(s: State, p: Promise, st: Status, v: Value)
    requires Shape(s)
  {
    && p in s.status && s.status[p] == Pending && st != Pending && p !in s.owned
    && forall a :: a in s.result && a in s.slots && s.result[a] == p && |s.slots[a]| == |s.entries[a]| ==>
         (st == Fulfilled ==> v == Values(a) && Missing(s.slots[a]) == 0)
         && (st == Rejected ==> exists i :: FailedWith(s, a, i, v))
  }

  ghost function Settled(s: State, p: Promise, st: Status, v: Value): State {
    s.(status := s.status[p := st], payload := s.payload[p := v], active := s.active + {p})
  }

  lemma OwedStill(s: State, t: State, p: Promise, a: AllId, i: nat)
    requires Shape(s) && Shape(t) && OwedFor(s, p, a, i)
    requires t.status.Keys == s.status.Keys && t.cbs == s.cbs && t.cursor == s.cursor
    ensures OwedFor(t, p, a, i)
  {
    var k :| Owed(s, p, k) && s.cbs[p][k].AllCb? && s.cbs[p][k].all == a && s.cbs[p][k].idx == i;
    assert Owed(t, p, k);
  }

  /** Callback lists only depend on themselves and on the `all` bookkeeping. */
  lemma SameCallbacks(s: State, t: State)
    requires Shape(s) && Shape(t) && CallbacksOk(s)
    requires t.status.Keys == s.status.Keys && t.cbs == s.cbs && t.cursor == s.cursor
    requires t.slots == s.slots && t.entries == s.entries && t.result == s.result && t.owned == s.owned
    ensures CallbacksOk(t)
  {
    forall p, k | Owed(t, p, k) ensures CallbackOk(t, p, t.cbs[p][k]) {
      assert Owed(s, p, k);
      assert CallbackOk(s, p, s.cbs[p][k]);
      if t.cbs[p][k].RaceCb? && Reserved(t, t.cbs[p][k].dst) { assert Reserved(s, t.cbs[p][k].dst); }
    }
    forall p, j, k | Owed(t, p, j) && Owed(t, p, k) && j < k ensures !SameInput(t.cbs[p][j], t.cbs[p][k]) {
      assert Owed(s, p, j) && Owed(s, p, k);
    }
  }

  /** An input's standing survives the settlement of a pending promise. */
  lemma SettledInput(s: State, p: Promise, st: Status, v: Value, a: AllId, i: nat)
    requires Shape(s) && p in s.status && s.status[p] == Pending && st != Pending
    requires a in s.slots && i < |s.slots[a]| == |s.entries[a]| == |s.values[a]| && InputOk(s, a, i)
    ensures Shape(Settled(s, p, st, v)) && InputOk(Settled(s, p, st, v), a, i)
  {
    if s.slots[a][i] == Waiting { OwedStill(s, Settled(s, p, st, v), s.entries[a][i], a, i); }
  }

  lemma SettledAll(s: State, p: Promise, st: Status, v: Value, a: AllId)
    requires Shape(s) && a in s.slots && AllOk(s, a, {p}) && CanSettle(s, p, st, v)
    ensures Shape(Settled(s, p, st, v)) && AllOk(Settled(s, p, st, v), a, {})
  {
    var t := Settled(s, p, st, v);
    forall i | 0 <= i < |t.slots[a]| ensures InputOk(t, a, i) { SettledInput(s, p, st, v, a, i); }
    if t.status[t.result[a]] == Rejected {
      var i :| FailedWith(s, a, i, t.payload[t.result[a]]);
      assert FailedWith(t, a, i, t.payload[t.result[a]]);
    }
  }

  lemma SettledOk(s: State, p: Promise, st: Status, v: Value)
    requires OkBut(s, {p}) && CanSettle(s, p, st, v)
    ensures Ok(Settled(s, p, st, v))
  {
    hide CallbacksOk, AllOk, FibersOk, Missing, QueuesOk, CanSettle;
    var t := Settled(s, p, st, v);
    SettledQueues(s, p, st, v);
    SameCallbacks(s, t);
    SameFibers(s, t);
    forall a | a in t.slots ensures AllOk(t, a, {}) { SettledAll(s, p, st, v, a); }
  }

  lemma SettledQueues(s: State, p: Promise, st: Status, v: Value)
    requires Shape(s) && QueuesOk(s) && CanSettle(s, p, st, v)
    ensures Shape(Settled(s, p, st, v)) && QueuesOk(Settled(s, p, st, v))
  {
  }

  lemma SameFibers(s: State, t: State)
    requires Shape(s) && Shape(t) && FibersOk(s)
    requires t.waiters == s.waiters && t.ready == s.ready && t.running == s.running && t.fibers == s.fibers
    ensures FibersOk(t)
  {
    forall f | f in t.fibers ensures f in t.running || f in t.ready || Parked(t, f) {
      if Parked(s, f) { assert Parked(t, f); }
    }
  }

  /** All waiters move to the ready queue, in park order. */
  ghost function WokenUp(s: State, p: Promise): State
    requires p in s.waiters
  {
    s.(ready := s.ready + s.waiters[p], waiters := s.waiters[p := []])
  }

  lemma WokenUpPlaces(s: State, p: Promise)
    requires Shape(s) && FibersOk(s) && p in s.waiters
    ensures Distinct(s.ready + s.waiters[p])
    ensures forall f :: f in s.ready + s.waiters[p] ==> f !in s.running && f in s.fibers
    ensures forall q, f :: q in s.waiters && q != p && f in s.waiters[q] ==> f !in s.ready + s.waiters[p]
    ensures forall f :: f in s.fibers ==> f in s.running || f in s.ready + s.waiters[p] || Parked(WokenUp(s, p), f)
  {
    var r := s.ready + s.waiters[p];
    forall i, j | 0 <= i < j < |r| ensures r[i] != r[j] {
      if i < |s.ready| <= j { assert r[j] in s.waiters[p] && r[i] in s.ready; }
    }
    forall f | f in s.fibers ensures f in s.running || f in r || Parked(WokenUp(s, p), f) {
      if f !in s.running && f !in s.ready {
        var q :| q in s.waiters && f in s.waiters[q];
        if q != p { assert f in WokenUp(s, p).waiters[q]; }
      }
    }
  }

  lemma WokenUpFibers(s: State, p: Promise)
    requires Shape(s) && FibersOk(s) && p in s.waiters
    ensures Shape(WokenUp(s, p)) && FibersOk(WokenUp(s, p))
  {
    WokenUpPlaces(s, p);
    hide Parked;
  }

  lemma WokenUpOk(s: State, p: Promise)
    requires Ok(s) && p in s.active
    ensures p in s.waiters && Ok(WokenUp(s, p))
  {
    hide CallbacksOk, FibersOk, AllOk, Missing;
    var t := WokenUp(s, p);
    WokenUpFibers(s, p);
    SameCallbacks(s, t);
    forall a | a in t.slots ensures AllOk(t, a, {}) { SameAll(s, t, a, {}); }
  }

  /** An `all` does not depend on waiters, the ready queue or which promises are being woken. */
  lemma SameAll(s: State, t: State, a: AllId, except: set<Promise>)
    requires Shape(s) && Shape(t) && a in s.slots && AllOk(s, a, except)
    requires t.status == s.status && t.payload == s.payload && t.cbs == s.cbs && t.cursor == s.cursor
    requires t.remaining == s.remaining && t.values == s.values
    requires t.slots == s.slots && t.entries == s.entries && t.result == s.result
    ensures AllOk(t, a, except)
  {
    forall i | 0 <= i < |t.slots[a]| ensures InputOk(t, a, i) {
      assert InputOk(s, a, i);
      if s.slots[a][i] == Waiting { OwedStill(s, t, s.entries[a][i], a, i); }
    }
    if t.status[t.result[a]] == Rejected {
      var i :| FailedWith(s, a, i, t.payload[t.result[a]]);
      assert FailedWith(t, a, i, t.payload[t.result[a]]);
    }
  }

  // Running one owed callback -------------------------------------------------------------------------------

  /** A race callback is taken off the list. */
  ghost function Taken(s: State, p: Promise): State
    requires p in s.cursor
  {
    s.(cursor := s.cursor[p := s.cursor[p] + 1])
  }

  /** An `all` input is filled: its value is stored at its index and the countdown drops. */
  ghost function FilledIn(s: State, p: Promise, a: AllId, i: nat): State
    requires p in s.cursor && p in s.payload && a in s.slots && a in s.values && a in s.remaining
    requires i < |s.slots[a]| && i < |s.values[a]|
  {
    s.(cursor := s.cursor[p := s.cursor[p] + 1], slots := s.slots[a := s.slots[a][i := Filled]],
       values := s.values[a := s.values[a][i := s.payload[p]]], remaining := s.remaining[a := s.remaining[a] - 1])
  }

  /** An `all` input failed. */
  ghost function FailedAt(s: State, p: Promise, a: AllId, i: nat): State
    requires p in s.cursor && a in s.slots && i < |s.slots[a]|
  {
    s.(cursor := s.cursor[p := s.cursor[p] + 1], slots := s.slots[a := s.slots[a][i := Failed]])
  }

  /** The callback list after one more callback of `p` ran, which is the one that reported input `i` of `a` (if any). */
  ghost predicate OneTaken(s: State, t: State, p: Promise) {
    && Shape(s) && Shape(t) && p in s.cursor && Owed(s, p, s.cursor[p])
    && t.status == s.status && t.payload == s.payload && t.cbs == s.cbs && t.cursor == s.cursor[p := s.cursor[p] + 1]
    && t.entries == s.entries && t.result == s.result && t.slots.Keys == s.slots.Keys && t.owned == s.owned
    && (forall a :: a in s.slots ==> |t.slots[a]| == |s.slots[a]|)
    && (forall a, i :: a in s.slots && 0 <= i < |s.slots[a]| && t.slots[a][i] != s.slots[a][i] ==> Reports(s, p, a, i))
  }

  /** The next callback of `p` reports input `i` of `a`. */
  ghost predicate Reports(s: State, p: Promise, a: AllId, i: int)
    requires Shape(s) && p in s.cursor && Owed(s, p, s.cursor[p])
  {
    var cb := s.cbs[p][s.cursor[p]]; cb.AllCb? && cb.all == a && cb.idx == i
  }

  lemma TakenCallbacks(s: State, t: State, p: Promise)
    requires OneTaken(s, t, p) && CallbacksOk(s)
    ensures CallbacksOk(t)
  {
    var c := s.cursor[p];
    forall q, k | Owed(t, q, k) ensures CallbackOk(t, q, t.cbs[q][k]) {
      assert Owed(s, q, k);
      var cb := s.cbs[q][k];
      assert CallbackOk(s, q, cb) && CallbackOk(s, p, s.cbs[p][c]);
      if cb.RaceCb? {
        if Reserved(t, cb.dst) { assert Reserved(s, cb.dst); }
      } else {
        if q == p { assert !SameInput(s.cbs[p][c], s.cbs[p][k]); }
      }
    }
    forall q, j, k | Owed(t, q, j) && Owed(t, q, k) && j < k ensures !SameInput(t.cbs[q][j], t.cbs[q][k]) {
      assert Owed(s, q, j) && Owed(s, q, k);
    }
  }

  /** Inputs other than the one just reported still have their callback. */
  lemma TakenOwed(s: State, t: State, p: Promise, e: Promise, a: AllId, i: nat)
    requires OneTaken(s, t, p) && OwedFor(s, e, a, i)
    requires !(e == p && Reports(s, p, a, i))
    ensures OwedFor(t, e, a, i)
  {
    var k :| Owed(s, e, k) && s.cbs[e][k].AllCb? && s.cbs[e][k].all == a && s.cbs[e][k].idx == i;
    assert Owed(t, e, k);
  }

  lemma TakenInput(s: State, t: State, p: Promise, a: AllId, i: nat)
    requires OneTaken(s, t, p) && CallbacksOk(s) && a in s.slots
    requires i < |s.slots[a]| == |s.entries[a]| == |s.values[a]| == |t.values[a]| && InputOk(s, a, i)
    requires t.slots[a][i] == s.slots[a][i] && t.values[a][i] == s.values[a][i]
    requires s.slots[a][i] == Waiting ==> !Reports(s, p, a, i)
    ensures InputOk(t, a, i)
  {
    if s.slots[a][i] == Waiting { TakenOwed(s, t, p, s.entries[a][i], a, i); }
  }

  /** An `all` that did not hear anything is as it was. */
  lemma TakenOther(s: State, t: State, p: Promise, a: AllId)
    requires OneTaken(s, t, p) && CallbacksOk(s) && a in s.slots && AllOk(s, a, {})
    requires t.slots[a] == s.slots[a] && t.values[a] == s.values[a] && t.remaining[a] == s.remaining[a]
    requires forall i :: !Reports(s, p, a, i)
    ensures AllOk(t, a, {})
  {
    hide Missing, CallbacksOk;
    forall i | 0 <= i < |t.slots[a]| ensures InputOk(t, a, i) { TakenInput(s, t, p, a, i); }
    if t.status[t.result[a]] == Rejected {
      var i :| FailedWith(s, a, i, t.payload[t.result[a]]);
      assert FailedWith(t, a, i, t.payload[t.result[a]]);
    }
  }

  /** The `all` that heard from input `i`: filled. */
  lemma FilledAll(s: State, p: Promise, a: AllId, i: nat)
    requires Shape(s) && CallbacksOk(s) && p in s.cursor && Owed(s, p, s.cursor[p]) && Reports(s, p, a, i)
    requires s.status[p] == Fulfilled && a in s.slots && AllOk(s, a, {})
    ensures i < |s.slots[a]| && i < |s.values[a]| && OneTaken(s, FilledIn(s, p, a, i), p)
    ensures AllOk(FilledIn(s, p, a, i), a, {s.result[a]})
    ensures s.status[s.result[a]] != Pending || s.remaining[a] != 1 ==> AllOk(FilledIn(s, p, a, i), a, {})
    ensures s.status[s.result[a]] == Pending && s.remaining[a] == 1 ==> Missing(FilledIn(s, p, a, i).slots[a]) == 0
  {
    assert CallbackOk(s, p, s.cbs[p][s.cursor[p]]);
    hide Missing, CallbacksOk, OneTaken;
    var t := FilledIn(s, p, a, i);
    ReportedWaits(s, p, a, i);
    FilledTaken(s, p, a, i);
    MissingUpdate(s.slots[a], i, Filled);
    forall k | 0 <= k < |t.slots[a]| ensures InputOk(t, a, k) {
      if k != i { TakenInput(s, t, p, a, k); }
    }
    if t.status[t.result[a]] == Rejected {
      var k :| FailedWith(s, a, k, t.payload[t.result[a]]);
      assert FailedWith(t, a, k, t.payload[t.result[a]]);
    }
  }

  lemma FilledTaken(s: State, p: Promise, a: AllId, i: nat)
    requires Shape(s) && p in s.status && Owed(s, p, s.cursor[p]) && Reports(s, p, a, i)
    requires a in s.slots && i < |s.slots[a]| && i < |s.values[a]|
    ensures OneTaken(s, FilledIn(s, p, a, i), p)
  {
  }

  lemma FailedAll(s: State, p: Promise, a: AllId, i: nat)
    requires Shape(s) && CallbacksOk(s) && p in s.cursor && Owed(s, p, s.cursor[p]) && Reports(s, p, a, i)
    requires s.status[p] == Rejected && a in s.slots && AllOk(s, a, {})
    ensures i < |s.slots[a]| && OneTaken(s, FailedAt(s, p, a, i), p)
    ensures AllOk(FailedAt(s, p, a, i), a, {s.result[a]}) && FailedWith(FailedAt(s, p, a, i), a, i, s.payload[p])
    ensures s.status[s.result[a]] != Pending ==> AllOk(FailedAt(s, p, a, i), a, {})
  {
    assert CallbackOk(s, p, s.cbs[p][s.cursor[p]]);
    var t := FailedAt(s, p, a, i);
    assert OneTaken(s, t, p);
    MissingUpdate(s.slots[a], i, Failed);
    hide Missing, CallbacksOk, OneTaken;
    forall k | 0 <= k < |t.slots[a]| ensures InputOk(t, a, k) {
      if k != i { TakenInput(s, t, p, a, k); }
    }
    if t.status[t.result[a]] == Rejected {
      var k :| FailedWith(s, a, k, t.payload[t.result[a]]);
      assert FailedWith(t, a, k, t.payload[t.result[a]]);
    }
  }

  lemma AllOkMore(s: State, a: AllId, except: set<Promise>)
    requires Shape(s) && a in s.slots && AllOk(s, a, {})
    ensures AllOk(s, a, except)
  {
  }

  /** Taking the next callback off `p`'s list keeps everything but the `all` it reports to. */
  lemma TakenRest(s: State, t: State, p: Promise, except: set<Promise>)
    requires Ok(s) && OneTaken(s, t, p) && p in s.active && t.active == s.active
    requires t.waiters == s.waiters && t.ready == s.ready && t.running == s.running && t.fibers == s.fibers
    requires forall a :: a in t.slots ==> AllOk(t, a, except)
    ensures OkBut(t, except)
  {
    hide AllOk, FibersOk, CallbacksOk, QueuesOk, OneTaken;
    OneTakenShape(s, t, p);
    TakenCallbacks(s, t, p);
    SameFibers(s, t);
    TakenQueues(s, t, p);
  }

  lemma TakenQueues(s: State, t: State, p: Promise)
    requires Shape(s) && QueuesOk(s) && OneTaken(s, t, p)
    requires p in s.active && t.active == s.active && t.waiters == s.waiters
    ensures QueuesOk(t) && t.result == s.result && t.slots.Keys == s.slots.Keys
  {
  }

  ghost predicate OthersKept(s: State, t: State, a: AllId)
    requires Shape(s) && Shape(t)
  {
    forall b :: b in s.slots && b in t.slots && b != a ==>
      t.slots[b] == s.slots[b] && t.values[b] == s.values[b] && t.remaining[b] == s.remaining[b]
  }

  /** Only the `all` that heard something changes. */
  lemma OthersOk(s: State, t: State, p: Promise, a: AllId, i: nat, except: set<Promise>)
    requires Ok(s) && OneTaken(s, t, p) && Reports(s, p, a, i) && OthersKept(s, t, a)
    ensures forall b :: b in t.slots && b != a ==> AllOk(t, b, except)
  {
    assert CallbacksOk(s) && AllsOk(s, {}) && Shape(t) && t.slots.Keys == s.slots.Keys;
    forall b | b in t.slots && b != a ensures AllOk(t, b, except) {
      assert AllOk(s, b, {});
      assert forall k :: !Reports(s, p, b, k);
      hide CallbacksOk, AllsOk, OneTaken, AllOk;
      TakenOther(s, t, p, b);
      AllOkMore(t, b, except);
    }
  }

  /** One `all` heard from input `i`, and the rest is as it was. */
  ghost predicate Heard(s: State, t: State, p: Promise, a: AllId, i: nat) {
    && OneTaken(s, t, p) && Reports(s, p, a, i) && OthersKept(s, t, a) && p in s.active && t.active == s.active
    && a in s.slots
    && t.waiters == s.waiters && t.ready == s.ready && t.running == s.running && t.fibers == s.fibers
  }

  lemma OneTakenShape(s: State, t: State, p: Promise)
    requires OneTaken(s, t, p)
    ensures Shape(t) && t.result == s.result && t.slots.Keys == s.slots.Keys && t.owned == s.owned
  {
  }

  lemma HeardOk(s: State, t: State, p: Promise, a: AllId, i: nat, except: set<Promise>)
    requires Ok(s) && Heard(s, t, p, a, i) && AllOk(t, a, except)
    ensures OkBut(t, except)
  {
    hide CallbacksOk, FibersOk, QueuesOk, AllOk, OneTaken, Missing, Owed, Reports, OthersKept, Shape;
    OneTakenShape(s, t, p);
    OthersOk(s, t, p, a, i, except);
    TakenRest(s, t, p, except);
  }

  /** An `all` result that is still pending may settle as its inputs say. */
  lemma AllCanSettle(s: State, a: AllId, st: Status, v: Value)
    requires Shape(s) && a in s.slots && AllsOk(s, {s.result[a]})
    requires s.result[a] in s.status && st != Pending && s.status[s.result[a]] == Pending
    requires st == Fulfilled ==> v == Values(a) && Missing(s.slots[a]) == 0
    requires st == Rejected ==> |s.slots[a]| == |s.entries[a]| && exists i :: FailedWith(s, a, i, v)
    ensures CanSettle(s, s.result[a], st, v)
  {
    assert AllOk(s, a, {s.result[a]});
    hide AllOk, FailedWith, Missing;
  }

  lemma ReportsTo(s: State, p: Promise, a: AllId, i: nat)
    requires Ok(s) && p in s.cursor && Owed(s, p, s.cursor[p]) && Reports(s, p, a, i)
    ensures CallbackOk(s, p, s.cbs[p][s.cursor[p]]) && a in s.slots && AllOk(s, a, {})
  {
    hide FibersOk, QueuesOk, AllOk;
  }

  /** The input being reported waits at its index, under its result. */
  lemma ReportedWaits(s: State, p: Promise, a: AllId, i: nat)
    requires Shape(s) && p in s.cursor && Owed(s, p, s.cursor[p]) && Reports(s, p, a, i)
    requires CallbackOk(s, p, s.cbs[p][s.cursor[p]]) && a in s.slots && AllOk(s, a, {})
    ensures i < |s.slots[a]| && i < |s.values[a]|
    ensures s.slots[a][i] == Waiting && s.cbs[p][s.cursor[p]].dst == s.result[a]
  {
    hide Missing, InputOk, FailedWith;
  }

  lemma FilledHeard(s: State, p: Promise, a: AllId, i: nat)
    requires Shape(s) && p in s.active && p in s.cursor && Owed(s, p, s.cursor[p]) && Reports(s, p, a, i)
    requires CallbackOk(s, p, s.cbs[p][s.cursor[p]]) && a in s.slots && AllOk(s, a, {}) && s.status[p] == Fulfilled
    ensures i < |s.slots[a]| && i < |s.values[a]| && s.cbs[p][s.cursor[p]].dst == s.result[a]
    ensures Heard(s, FilledIn(s, p, a, i), p, a, i) && YetToReach(FilledIn(s, p, a, i)) == YetToReach(s)
  {
    hide AllOk;
    ReportedWaits(s, p, a, i);
    hide CallbackOk;
    ReportedReach(s, FilledIn(s, p, a, i), a, i);
    hide YetToReach;
  }

  /** A report touches no input that is yet to be reached. */
  lemma ReportedReach(s: State, t: State, a: AllId, i: nat)
    requires a in s.slots && i < |s.slots[a]| && s.slots[a][i] != Unreached
    requires a in t.slots && i < |t.slots[a]| && t.slots[a][i] != Unreached
    requires t.slots == s.slots[a := s.slots[a][i := t.slots[a][i]]]
    ensures YetToReach(t) == YetToReach(s)
  {
  }

  lemma FilledOk(s: State, p: Promise, a: AllId, i: nat)
    requires Ok(s) && p in s.active && p in s.cursor && Owed(s, p, s.cursor[p]) && Reports(s, p, a, i)
    requires s.status[p] == Fulfilled
    ensures a in s.slots && a in s.result && i < |s.slots[a]| && i < |s.values[a]| && s.result[a] in s.status
    ensures s.cbs[p][s.cursor[p]].dst == s.result[a]
    ensures OkBut(FilledIn(s, p, a, i), {s.result[a]})
    ensures s.status[s.result[a]] != Pending || s.remaining[a] != 1 ==> Ok(FilledIn(s, p, a, i))
    ensures s.status[s.result[a]] == Pending && s.remaining[a] == 1 ==>
      CanSettle(FilledIn(s, p, a, i), s.result[a], Fulfilled, Values(a))
    ensures YetToReach(FilledIn(s, p, a, i)) == YetToReach(s)
  {
    ReportsTo(s, p, a, i);
    hide CallbacksOk, FibersOk, QueuesOk, AllOk, OneTaken, OthersKept, Missing, YetToReach, CallbackOk, Heard;
    FilledHeard(s, p, a, i);
    FilledAll(s, p, a, i);
    AllResultDomain(s, a);
    var t := FilledIn(s, p, a, i);
    HeardOk(s, t, p, a, i, {s.result[a]});
    hide Heard, FailedWith, CanSettle;
    if s.status[s.result[a]] != Pending || s.remaining[a] != 1 {
      HeardOk(s, t, p, a, i, {});
    } else { AllCanSettle(t, a, Fulfilled, Values(a)); }
  }

  lemma FailedHeard(s: State, p: Promise, a: AllId, i: nat)
    requires Shape(s) && p in s.active && p in s.cursor && Owed(s, p, s.cursor[p]) && Reports(s, p, a, i)
    requires CallbackOk(s, p, s.cbs[p][s.cursor[p]]) && a in s.slots && AllOk(s, a, {}) && s.status[p] == Rejected
    ensures i < |s.slots[a]| && s.cbs[p][s.cursor[p]].dst == s.result[a]
    ensures Heard(s, FailedAt(s, p, a, i), p, a, i) && YetToReach(FailedAt(s, p, a, i)) == YetToReach(s)
  {
    hide Missing, InputOk, FailedWith;
  }

  lemma FailedOk(s: State, p: Promise, a: AllId, i: nat)
    requires Ok(s) && p in s.active && p in s.cursor && Owed(s, p, s.cursor[p]) && Reports(s, p, a, i)
    requires s.status[p] == Rejected
    ensures a in s.slots && a in s.result && i < |s.slots[a]| && s.result[a] in s.status
    ensures s.cbs[p][s.cursor[p]].dst == s.result[a]
    ensures OkBut(FailedAt(s, p, a, i), {s.result[a]})
    ensures s.status[s.result[a]] != Pending ==> Ok(FailedAt(s, p, a, i))
    ensures s.status[s.result[a]] == Pending ==> CanSettle(FailedAt(s, p, a, i), s.result[a], Rejected, s.payload[p])
    ensures YetToReach(FailedAt(s, p, a, i)) == YetToReach(s)
  {
    ReportsTo(s, p, a, i);
    hide CallbacksOk, FibersOk, QueuesOk, AllOk, OneTaken, OthersKept, Missing, YetToReach, CallbackOk, Heard;
    FailedHeard(s, p, a, i);
    FailedAll(s, p, a, i);
    AllResultDomain(s, a);
    var t := FailedAt(s, p, a, i);
    HeardOk(s, t, p, a, i, {s.result[a]});
    hide Heard, FailedWith, CanSettle;
    if s.status[s.result[a]] != Pending {
      HeardOk(s, t, p, a, i, {});
    } else { AllCanSettle(t, a, Rejected, s.payload[p]); }
  }

  lemma AllResultDomain(s: State, a: AllId)
    requires Shape(s) && a in s.slots && AllOk(s, a, {})
    ensures s.result[a] in s.status
  {
  }

  lemma SameResults(s: State, t: State, p: Promise)
    requires t.result == s.result && t.owned == s.owned
    ensures Reserved(t, p) <==> Reserved(s, p)
  {
  }

  /** A race callback is taken off; its destination is an ordinary promise. */
  lemma TakenRaceOk(s: State, p: Promise)
    requires Ok(s) && p in s.active && p in s.cursor && Owed(s, p, s.cursor[p]) && s.cbs[p][s.cursor[p]].RaceCb?
    ensures Ok(Taken(s, p)) && s.cbs[p][s.cursor[p]].dst in s.status && YetToReach(Taken(s, p)) == YetToReach(s)
    ensures !Reserved(Taken(s, p), s.cbs[p][s.cursor[p]].dst)
  {
    hide FibersOk, QueuesOk, AllOk, AllsOk, YetToReach, OneTaken, Reserved;
    var t, cb := Taken(s, p), s.cbs[p][s.cursor[p]];
    assert CallbackOk(s, p, cb);
    hide CallbacksOk, CallbackOk;
    TakenReach(s, p);
    SameResults(s, t, cb.dst);
    TakenUnheard(s, p);
    TakenRest(s, t, p, {});
  }

  lemma TakenReach(s: State, p: Promise)
    requires p in s.cursor
    ensures YetToReach(Taken(s, p)) == YetToReach(s)
  {
  }

  lemma TakenUnheard(s: State, p: Promise)
    requires Shape(s) && CallbacksOk(s) && AllsOk(s, {}) && p in s.cursor
    requires Owed(s, p, s.cursor[p]) && s.cbs[p][s.cursor[p]].RaceCb?
    ensures OneTaken(s, Taken(s, p), p) && forall b :: b in s.slots ==> AllOk(Taken(s, p), b, {})
  {
    hide CallbacksOk, AllOk;
    var t := Taken(s, p);
    assert OneTaken(s, t, p);
    forall b | b in t.slots ensures AllOk(t, b, {}) { TakenOther(s, t, p, b); }
  }

  lemma OrdinaryCanSettle(s: State, p: Promise, st: Status, v: Value)
    requires Ok(s) && p in s.status && s.status[p] == Pending && st != Pending && !Reserved(s, p)
    ensures CanSettle(s, p, st, v) && OkBut(s, {p})
  {
    hide CallbacksOk, FibersOk, QueuesOk, AllOk;
    forall a | a in s.slots ensures AllOk(s, a, {p}) { AllOkMore(s, a, {p}); }
  }

  /** All callbacks ran: the lists are dropped. */
  ghost function WakeEnded(s: State, p: Promise): State {
    s.(cbs := s.cbs[p := []], cursor := s.cursor[p := 0], active := s.active - {p})
  }

  lemma WakeEndedOk(s: State, p: Promise)
    requires Ok(s) && p in s.active && p in s.status
    requires s.status[p] != Pending && s.waiters[p] == [] && s.cursor[p] == |s.cbs[p]|
    ensures Ok(WakeEnded(s, p))
  {
    var t := WakeEnded(s, p);
    hide FibersOk, AllOk, CallbacksOk, QueuesOk;
    EndedCallbacks(s, p);
    EndedQueues(s, p);
    SameFibers(s, t);
    forall a | a in t.slots ensures AllOk(t, a, {}) { EndedAll(s, p, a); }
  }

  lemma EndedQueues(s: State, p: Promise)
    requires Shape(s) && QueuesOk(s) && p in s.status && s.status[p] != Pending && s.waiters[p] == []
    ensures Shape(WakeEnded(s, p)) && QueuesOk(WakeEnded(s, p))
  {
  }

  lemma EndedCallbacks(s: State, p: Promise)
    requires Shape(s) && CallbacksOk(s) && p in s.active && p in s.status && s.cursor[p] == |s.cbs[p]|
    ensures Shape(WakeEnded(s, p)) && CallbacksOk(WakeEnded(s, p))
  {
    var t := WakeEnded(s, p);
    forall q, k | Owed(t, q, k) ensures CallbackOk(t, q, t.cbs[q][k]) {
      assert Owed(s, q, k) && q != p;
      assert CallbackOk(s, q, s.cbs[q][k]);
      if Reserved(t, t.cbs[q][k].dst) { assert Reserved(s, t.cbs[q][k].dst); }
    }
    forall q, j, k | Owed(t, q, j) && Owed(t, q, k) && j < k ensures !SameInput(t.cbs[q][j], t.cbs[q][k]) {
      assert Owed(s, q, j) && Owed(s, q, k) && q != p;
    }
  }

  lemma EndedAll(s: State, p: Promise, a: AllId)
    requires Shape(s) && a in s.slots && AllOk(s, a, {}) && p in s.active && p in s.status && s.cursor[p] == |s.cbs[p]|
    ensures Shape(WakeEnded(s, p)) && AllOk(WakeEnded(s, p), a, {})
  {
    hide Missing;
    var t := WakeEnded(s, p);
    forall i | 0 <= i < |t.slots[a]| ensures InputOk(t, a, i) {
      assert InputOk(s, a, i);
      if s.slots[a][i] == Waiting {
        var e := s.entries[a][i];
        var k :| Owed(s, e, k) && s.cbs[e][k].AllCb? && s.cbs[e][k].all == a && s.cbs[e][k].idx == i;
        assert Owed(t, e, k);
      }
    }
    if t.status[t.result[a]] == Rejected {
      var i :| FailedWith(s, a, i, t.payload[t.result[a]]);
      assert FailedWith(t, a, i, t.payload[t.result[a]]);
    }
  }

  // Advances ------------------------------------------------------------------------------------------------

  lemma BeginAdvance(s: State, p: Promise, st: Status, v: Value)
    requires OkBut(s, {p}) && p in s.status && s.status[p] == Pending && st != Pending
    ensures Advance(s, WokenUp(Settled(s, p, st, v), p), {p})
  {
    hide CallbacksOk, AllsOk, FibersOk, QueuesOk, Framed;
    var t := WokenUp(Settled(s, p, st, v), p);
    BeginFramed(s, p, st, v);
    forall f | f in t.ready && f !in s.ready ensures Woken(s, t, f) {
      assert f in s.waiters[p];
    }
    hide Woken;
  }

  lemma BeginFramed(s: State, p: Promise, st: Status, v: Value)
    requires Shape(s) && p in s.status && s.status[p] == Pending && st != Pending
    ensures Shape(WokenUp(Settled(s, p, st, v), p)) && Framed(s, WokenUp(Settled(s, p, st, v), p), {p})
  {
  }

  lemma TakenAdvance(s: State, t: State, p: Promise)
    requires Shape(s) && Shape(t) && p in s.cursor
    requires t == s.(cursor := s.cursor[p := s.cursor[p] + 1], slots := t.slots, values := t.values,
                     remaining := t.remaining)
    ensures Advance(s, t, {p})
  {
  }

  lemma EndAdvance(s: State, p: Promise)
    requires Shape(s) && p in s.status && s.status[p] != Pending
    ensures Advance(s, WakeEnded(s, p), {p})
  {
  }

  // The loop that runs a promise's callbacks ----------------------------------------------------------------

  /** `i` callbacks of `p` have run since `s`. */
  ghost predicate Waking(s: State, t: State, p: Promise, i: nat, st: Status, v: Value) {
    && Advance(s, t, {p}) && p in s.status && p !in s.active && p in t.active && s.status[p] == Pending && st != Pending
    && t.status[p] == st && t.payload[p] == v && t.waiters[p] == [] && t.cbs[p] == s.cbs[p]
    && t.cursor[p] == i <= |t.cbs[p]|
    && s.ready + s.waiters[p] <= t.ready && YetToReach(t) == YetToReach(s)
  }

  /** One more callback of `p` has run. */
  ghost predicate NextCallback(s: State, t: State, p: Promise) {
    && Shape(s) && Shape(t) && p in s.status && p in t.status && p in t.active && p in s.active
    && t.waiters[p] == s.waiters[p] && t.cbs[p] == s.cbs[p] && t.cursor[p] == s.cursor[p] + 1
  }

  lemma SettleDomain(s: State, p: Promise, st: Status, v: Value)
    requires OkBut(s, {p}) && CanSettle(s, p, st, v)
    ensures p in s.status && p in s.waiters && p in s.cbs && p in s.cursor
    ensures p in s.payload && s.status[p] == Pending && st != Pending
    ensures PendingSet(Settled(s, p, st, v)) < PendingSet(s)
  {
    hide CallbacksOk, AllsOk, FibersOk;
    assert p in PendingSet(s) && p !in PendingSet(Settled(s, p, st, v));
  }

  lemma AfterBegin(s: State, p: Promise, st: Status, v: Value)
    requires OkBut(s, {p}) && CanSettle(s, p, st, v) && p in s.waiters
    requires Advance(s, WokenUp(Settled(s, p, st, v), p), {p})
    ensures Waking(s, WokenUp(Settled(s, p, st, v), p), p, 0, st, v)
    ensures PendingSet(WokenUp(Settled(s, p, st, v), p)) < PendingSet(s)
  {
    hide CallbacksOk, AllsOk, FibersOk, Advance, CanSettle;
    assert p in s.status && s.status[p] == Pending && st != Pending by { SettleDomain(s, p, st, v); }
    assert p in PendingSet(s) && p !in PendingSet(WokenUp(Settled(s, p, st, v), p));
  }

  lemma WakingNext(s: State, t: State, p: Promise, i: nat, st: Status, v: Value)
    requires Ok(t) && Waking(s, t, p, i, st, v) && p in t.cbs && i < |t.cbs[p]|
    ensures p in t.status && p in t.active && t.status[p] != Pending
    ensures Owed(t, p, i) && p in t.cursor && t.cursor[p] == i
    ensures PendingSet(t) < PendingSet(s)
  {
    hide CallbacksOk, AllsOk, FibersOk, QueuesOk, YetToReach;
    assert p in PendingSet(s) && p !in PendingSet(t);
  }

  lemma WakingFewer(s: State, t: State, p: Promise, i: nat, st: Status, v: Value)
    requires Waking(s, t, p, i, st, v)
    ensures p in s.status && PendingSet(t) <= PendingSet(Settled(s, p, st, v))
  {
  }

  lemma WakingStep(s: State, t: State, u: State, p: Promise, i: nat, st: Status, v: Value)
    requires Waking(s, t, p, i, st, v) && p in t.cbs && i < |t.cbs[p]|
    requires Advance(t, u, {p}) && NextCallback(t, u, p) && YetToReach(u) == YetToReach(t)
    ensures Waking(s, u, p, i + 1, st, v) && p in u.cbs && u.cbs[p] == t.cbs[p]
  {
    hide YetToReach, Advance, Shape;
    WakingStatus(s, t, p, i, st, v);
    AdvanceTrans(s, t, u, {p});
    AdvanceKeeps(t, u, p);
  }

  lemma AdvanceKeeps(s: State, t: State, p: Promise)
    requires Advance(s, t, {p}) && p in s.status && s.status[p] != Pending
    ensures Shape(s) && Shape(t) && p in t.status && p in t.cbs
    ensures t.status[p] == s.status[p] && t.payload[p] == s.payload[p] && s.ready <= t.ready
  {
    hide Woken;
  }

  /** `p` settled, its waiters woke in park order, and whatever that set off is over. */
  ghost predicate Settles(s: State, u: State, p: Promise, st: Status, v: Value) {
    && Advance(s, u, {}) && YetToReach(u) == YetToReach(s) && p in s.waiters && s.ready + s.waiters[p] <= u.ready
    && p in u.status && u.status[p] == st && p in u.payload && u.payload[p] == v
  }

  lemma WakingDone(s: State, t: State, p: Promise, i: nat, st: Status, v: Value)
    requires Ok(t) && Waking(s, t, p, i, st, v) && p in t.cbs && i >= |t.cbs[p]|
    ensures p in t.cursor && Ok(WakeEnded(t, p)) && Settles(s, WakeEnded(t, p), p, st, v)
  {
    hide CallbacksOk, AllsOk, FibersOk, QueuesOk, Framed;
    var u := WakeEnded(t, p);
    assert YetToReach(u) == YetToReach(t);
    hide YetToReach, Woken;
    WakingStatus(s, t, p, i, st, v);
    WakeEndedOk(t, p);
    EndAdvance(t, p);
    AdvanceTrans(s, t, u, {p});
    AdvanceDone(s, u, p);
  }

  lemma WakingStatus(s: State, t: State, p: Promise, i: nat, st: Status, v: Value)
    requires Waking(s, t, p, i, st, v)
    ensures Shape(s) && Shape(t) && p in t.status && p in t.active
    ensures p !in s.active && t.status[p] == st && st != Pending
    ensures t.cursor[p] == i && t.waiters[p] == [] && i <= |t.cbs[p]|
    ensures t.payload[p] == v && s.ready + s.waiters[p] <= t.ready
    ensures YetToReach(t) == YetToReach(s)
  {
    hide YetToReach, Woken;
  }

  /** The settled promise being woken keeps its place while a callback settles others. */
  lemma AfterTaken(s: State, t: State, u: State, p: Promise)
    requires NextCallback(s, t, p) && Advance(t, u, {})
    ensures NextCallback(s, u, p)
  {
    hide Woken;
    assert p in t.active - {};
  }

  lemma OkShape(s: State)
    requires Ok(s)
    ensures Shape(s)
  {
  }

  lemma ShapeDomain(s: State, p: Promise)
    requires Shape(s) && p in s.status
    ensures p in s.payload && p in s.waiters && p in s.cbs && p in s.cursor
  {
  }

  lemma RaceDone(s: State, u: State, p: Promise)
    requires Shape(s) && p in s.cursor && p in s.active && Shape(Taken(s, p)) && Advance(Taken(s, p), u, {})
    ensures Advance(s, u, {p}) && NextCallback(s, u, p)
  {
    hide Advance;
    var t := Taken(s, p);
    TakenAdvance(s, t, p);
    AdvanceMine(t, u, {p});
    AdvanceTrans(s, t, u, {p});
    AfterTaken(s, t, u, p);
  }

  // Races ---------------------------------------------------------------------------------------------------

  /** What running a race callback of `p` does to its destination: the first settlement is converted or copied. */
  ghost predicate RaceResult(s: State, t: State, p: Promise, cb: Callback) {
    && Shape(s) && Shape(t) && cb.RaceCb? && p in s.status && cb.dst in s.status && cb.dst in t.status
    && t.status[cb.dst] != Pending
    && (s.status[cb.dst] == Pending ==> t.status[cb.dst] == s.status[p])
    && (s.status[cb.dst] == Pending ==>
         t.payload[cb.dst] == if s.status[p] == Fulfilled then cb.adapt(s.payload[p]) else s.payload[p])
  }

  /** The first `i` callbacks of `p` that are race entries have settled their races, or found them settled. */
  ghost predicate RacesDone(s: State, t: State, p: Promise, i: int) {
    p in s.cbs && forall k :: 0 <= k < i && k < |s.cbs[p]| && s.cbs[p][k].RaceCb? ==> SettledIn(t, s.cbs[p][k].dst)
  }

  ghost predicate SettledIn(t: State, p: Promise) {
    p in t.status && t.status[p] != Pending
  }

  lemma RacesStep(s: State, t: State, u: State, p: Promise, i: nat)
    requires RacesDone(s, t, p, i) && Advance(t, u, {p}) && i < |s.cbs[p]|
    requires s.cbs[p][i].RaceCb? ==> RaceResult(t, u, p, s.cbs[p][i])
    ensures RacesDone(s, u, p, i + 1)
  {
    hide Woken;
  }

  lemma RacesEnd(s: State, t: State, p: Promise, i: nat)
    requires RacesDone(s, t, p, i) && i >= |s.cbs[p]|
    ensures RacesDone(s, WakeEnded(t, p), p, |s.cbs[p]|)
  {
  }

  lemma RaceResultDone(s: State, t: State, u: State, p: Promise, cb: Callback)
    requires Shape(s) && Shape(u) && p in s.cursor && t == Taken(s, p)
    requires cb.RaceCb? && p in s.status && s.status[p] != Pending
    requires Advance(t, u, {}) && cb.dst in t.status && cb.dst in u.status && cb.dst in u.payload
    requires t.status[cb.dst] == Pending ==> (u.status[cb.dst] == s.status[p]
      && u.payload[cb.dst] == if s.status[p] == Fulfilled then cb.adapt(s.payload[p]) else s.payload[p])
    ensures RaceResult(s, u, p, cb)
  {
    hide Woken;
  }

  lemma NoRacesYet(s: State, t: State, p: Promise)
    requires p in s.cbs
    ensures RacesDone(s, t, p, 0)
  {
  }

  /** A pending promise settled, its waiters woke in park order, and its races are settled. */
  ghost predicate Woke(s: State, t: State, p: Promise, st: Status, v: Value) {
    && p in t.status && t.status[p] == st && p in t.payload && t.payload[p] == v
    && p in s.waiters && s.ready + s.waiters[p] <= t.ready && p in s.cbs && RacesDone(s, t, p, |s.cbs[p]|)
  }

  lemma WokeFrom(s: State, t: State, u: State, p: Promise, st: Status, v: Value)
    requires t.waiters == s.waiters && t.ready == s.ready && t.cbs == s.cbs
    requires p in u.status && u.status[p] == st && p in u.payload && u.payload[p] == v
    requires p in t.waiters && t.ready + t.waiters[p] <= u.ready && p in t.cbs && RacesDone(t, u, p, |t.cbs[p]|)
    ensures Woke(s, u, p, st, v)
  {
  }

  lemma WokeSame(s: State, t: State, u: State, p: Promise, st: Status, v: Value)
    requires Woke(s, t, p, st, v) && u.status == t.status && u.payload == t.payload && u.ready == t.ready
    ensures Woke(s, u, p, st, v)
  {
  }
}
