/** Subscribing to promises: a race entry, and the construction of an `all`, whose inputs either report at once or park
    a callback. */
module PromiseBuilding {
  import opened PromiseState

  ghost function Subscribed(s: State, e: Promise, cb: Callback): State
    requires e in s.cbs
  {
    s.(cbs := s.cbs[e := s.cbs[e] + [cb]])
  }

  /** A race entry parks a callback on a pending promise. */
  lemma RaceSubscribedOk(s: State, e: Promise, cb: Callback)
    requires Ok(s) && e in s.status && s.status[e] == Pending
    requires cb.RaceCb? && cb.dst in s.status && !Reserved(s, cb.dst)
    ensures e in s.cbs && Ok(Subscribed(s, e, cb))
  {
    hide FibersOk, AllsOk, QueuesOk, CallbacksOk, Reserved;
    var t := Subscribed(s, e, cb);
    RaceCallbacks(s, e, cb);
    SameFibers(s, t);
    RaceQueues(s, e, cb);
    RaceAlls(s, e, cb);
  }

  lemma RaceAlls(s: State, e: Promise, cb: Callback)
    requires Shape(s) && AllsOk(s, {}) && e in s.status
    ensures Shape(Subscribed(s, e, cb)) && AllsOk(Subscribed(s, e, cb), {})
  {
    hide AllOk;
    SubscribedShape(s, e, cb);
    hide Shape, Subscribed;
    forall a | a in s.slots ensures AllOk(Subscribed(s, e, cb), a, {}) { RaceAll(s, e, cb, a); }
  }

  lemma SubscribedShape(s: State, e: Promise, cb: Callback)
    requires Shape(s) && e in s.status
    ensures e in s.cbs && Shape(Subscribed(s, e, cb))
    ensures Subscribed(s, e, cb).slots == s.slots && Subscribed(s, e, cb).result == s.result
  {
  }

  lemma RaceQueues(s: State, e: Promise, cb: Callback)
    requires Shape(s) && QueuesOk(s) && e in s.status && s.status[e] == Pending
    ensures Shape(Subscribed(s, e, cb)) && QueuesOk(Subscribed(s, e, cb))
  {
  }

  lemma RaceCallbacks(s: State, e: Promise, cb: Callback)
    requires Shape(s) && CallbacksOk(s) && e in s.status && cb.RaceCb? && cb.dst in s.status && !Reserved(s, cb.dst)
    ensures Shape(Subscribed(s, e, cb)) && CallbacksOk(Subscribed(s, e, cb))
  {
    var t := Subscribed(s, e, cb);
    forall p, k | Owed(t, p, k) ensures CallbackOk(t, p, t.cbs[p][k]) {
      SameResults(s, t, t.cbs[p][k].dst);
      if !(p == e && k == |s.cbs[e]|) {
        assert Owed(s, p, k);
        assert CallbackOk(s, p, s.cbs[p][k]);
      }
    }
    forall p, j, k | Owed(t, p, j) && Owed(t, p, k) && j < k ensures !SameInput(t.cbs[p][j], t.cbs[p][k]) {
      assert Owed(s, p, j);
      if !(p == e && k == |s.cbs[e]|) { assert Owed(s, p, k); }
    }
  }

  lemma RaceAll(s: State, e: Promise, cb: Callback, a: AllId)
    requires Shape(s) && e in s.status && a in s.slots && AllOk(s, a, {})
    ensures Shape(Subscribed(s, e, cb)) && AllOk(Subscribed(s, e, cb), a, {})
  {
    hide Missing;
    var t := Subscribed(s, e, cb);
    forall i | 0 <= i < |t.slots[a]| ensures InputOk(t, a, i) {
      assert InputOk(s, a, i);
      if s.slots[a][i] == Waiting { LongerOwed(s, t, s.entries[a][i], a, i); }
    }
    if t.status[t.result[a]] == Rejected {
      var i :| FailedWith(s, a, i, t.payload[t.result[a]]);
      assert FailedWith(t, a, i, t.payload[t.result[a]]);
    }
  }

  lemma LongerOwed(s: State, t: State, e: Promise, a: AllId, i: nat)
    requires Shape(s) && Shape(t) && OwedFor(s, e, a, i)
    requires t.status.Keys == s.status.Keys && t.cursor == s.cursor && s.cbs[e] <= t.cbs[e]
    ensures OwedFor(t, e, a, i)
  {
    var k :| Owed(s, e, k) && s.cbs[e][k].AllCb? && s.cbs[e][k].all == a && s.cbs[e][k].idx == i;
    assert Owed(t, e, k) && t.cbs[e][k] == s.cbs[e][k];
  }

  // One more input of an `all` under construction -----------------------------------------------------------

  /** From `s` to `t` the `all` only reached its input `i`. */
  ghost predicate Reached(s: State, t: State, a: AllId, i: nat) {
    && Shape(s) && Shape(t) && IsUnreached(s, a, i) && i < |s.entries[a]|
    && a in t.slots && |t.slots[a]| == |s.slots[a]| && t.slots[a][i] != Unreached
    && t == s.(slots := s.slots[a := s.slots[a][i := t.slots[a][i]]], values := t.values, remaining := t.remaining,
               cbs := t.cbs)
    && (forall b :: b in s.slots && b != a ==> t.values[b] == s.values[b] && t.remaining[b] == s.remaining[b])
    && (t.slots[a][i] == Waiting ==> Subscribes(s, t, a, i))
    && (t.slots[a][i] != Waiting ==> t.cbs == s.cbs)
  }

  ghost predicate Subscribes(s: State, t: State, a: AllId, i: nat)
    requires Shape(s) && Shape(t) && a in s.slots && i < |s.entries[a]|
  {
    var e := s.entries[a][i];
    e in s.status && s.status[e] == Pending && t.cbs == s.cbs[e := s.cbs[e] + [AllCb(s.result[a], a, i)]]
  }

  lemma ReachedCallbacks(s: State, t: State, a: AllId, i: nat)
    requires Reached(s, t, a, i) && CallbacksOk(s) && s.result[a] in s.status
    ensures CallbacksOk(t)
  {
    var e := s.entries[a][i];
    forall p, k | Owed(t, p, k) ensures CallbackOk(t, p, t.cbs[p][k]) {
      if !IsNew(s, t, a, i, p, k) { ReachedOld(s, t, a, i, p, k); }
    }
    forall p, j, k | Owed(t, p, j) && Owed(t, p, k) && j < k ensures !SameInput(t.cbs[p][j], t.cbs[p][k]) {
      ReachedOld(s, t, a, i, p, j);
      if !IsNew(s, t, a, i, p, k) { ReachedOld(s, t, a, i, p, k); }
    }
  }

  ghost predicate IsNew(s: State, t: State, a: AllId, i: nat, p: Promise, k: int)
    requires Reached(s, t, a, i)
  {
    t.slots[a][i] == Waiting && p == s.entries[a][i] && k == |s.cbs[p]|
  }

  /** Callbacks parked earlier do not mention the input just reached. */
  lemma ReachedOld(s: State, t: State, a: AllId, i: nat, p: Promise, k: int)
    requires Reached(s, t, a, i) && CallbacksOk(s) && Owed(t, p, k) && !IsNew(s, t, a, i, p, k)
    ensures Owed(s, p, k) && t.cbs[p][k] == s.cbs[p][k] && CallbackOk(t, p, t.cbs[p][k])
    ensures t.cbs[p][k].AllCb? ==> !(t.cbs[p][k].all == a && t.cbs[p][k].idx == i)
  {
    assert Owed(s, p, k) && t.cbs[p][k] == s.cbs[p][k];
    assert CallbackOk(s, p, s.cbs[p][k]);
    SameResults(s, t, t.cbs[p][k].dst);
  }

  lemma ReachedInput(s: State, t: State, a: AllId, i: nat, b: AllId, j: nat)
    requires Reached(s, t, a, i) && b in s.slots && j < |s.slots[b]| == |s.entries[b]| == |s.values[b]| == |t.values[b]|
    requires InputOk(s, b, j) && !(b == a && j == i) && t.values[b][j] == s.values[b][j]
    ensures InputOk(t, b, j)
  {
    if s.slots[b][j] == Waiting { LongerOwed(s, t, s.entries[b][j], b, j); }
  }

  lemma ReachedOther(s: State, t: State, a: AllId, i: nat, b: AllId)
    requires Reached(s, t, a, i) && b in s.slots && b != a && AllOk(s, b, {})
    ensures AllOk(t, b, {})
  {
    hide Missing, InputOk;
    forall j | 0 <= j < |t.slots[b]| ensures InputOk(t, b, j) { ReachedInput(s, t, a, i, b, j); }
    if t.status[t.result[b]] == Rejected {
      var j :| FailedWith(s, b, j, t.payload[t.result[b]]);
      assert FailedWith(t, b, j, t.payload[t.result[b]]);
    }
  }

  /** The `all` itself: its new input is as its slot says, and its countdown follows. */
  lemma ReachedThis(s: State, t: State, a: AllId, i: nat)
    requires Reached(s, t, a, i) && AllOk(s, a, {}) && |t.values[a]| == |s.values[a]| && InputOk(t, a, i)
    requires forall j :: 0 <= j < |s.values[a]| && j != i ==> t.values[a][j] == s.values[a][j]
    requires t.remaining[a] == s.remaining[a] - (if t.slots[a][i] == Filled then 1 else 0)
    ensures AllOk(t, a, {s.result[a]})
    ensures s.status[s.result[a]] == Pending && t.remaining[a] > 0 && t.slots[a][i] != Failed ==> AllOk(t, a, {})
    ensures s.status[s.result[a]] != Pending ==> AllOk(t, a, {})
    ensures t.remaining[a] == Missing(t.slots[a])
  {
    MissingUpdate(s.slots[a], i, t.slots[a][i]);
    hide Missing, InputOk;
    forall j | 0 <= j < |t.slots[a]| ensures InputOk(t, a, j) {
      if j != i { ReachedInput(s, t, a, i, a, j); }
    }
    if t.status[t.result[a]] == Rejected {
      var j :| FailedWith(s, a, j, t.payload[t.result[a]]);
      assert FailedWith(t, a, j, t.payload[t.result[a]]);
    }
  }

  lemma ReachedOk(s: State, t: State, a: AllId, i: nat, except: set<Promise>)
    requires Ok(s) && Reached(s, t, a, i) && AllOk(t, a, except)
    ensures OkBut(t, except)
  {
    assert Shape(t) && Shape(s) && s.result[a] in s.status && t.slots.Keys == s.slots.Keys by {
      assert AllOk(s, a, {});
    }
    ReachedQueues(s, t, a, i);
    hide FibersOk, AllOk, QueuesOk, CallbacksOk, Missing;
    SameFibers(s, t);
    ReachedCallbacks(s, t, a, i);
    forall b | b in t.slots ensures AllOk(t, b, except) {
      if b != a {
        ReachedOther(s, t, a, i, b);
        AllOkMore(t, b, except);
      }
    }
  }

  lemma ReachedQueues(s: State, t: State, a: AllId, i: nat)
    requires Shape(s) && QueuesOk(s) && Reached(s, t, a, i)
    ensures QueuesOk(t)
  {
  }

  lemma ReachedRest(s: State, t: State, a: AllId, i: nat)
    requires Reached(s, t, a, i)
    ensures YetToReach(t) == YetToReach(s) - iset{(a, i)}
    ensures t.slots[a][i] != Waiting ==> Advance(s, t, {})
  {
    ReachedFewer(s, t, a, i);
    hide YetToReach;
    if t.slots[a][i] != Waiting { assert Advance(s, t, {}); }
  }

  lemma ReachedFewer(s: State, t: State, a: AllId, i: nat)
    requires Reached(s, t, a, i)
    ensures YetToReach(t) == YetToReach(s) - iset{(a, i)}
  {
    assert t.slots == s.slots[a := s.slots[a][i := t.slots[a][i]]];
    hide Shape, Subscribes;
    forall x: (AllId, nat) ensures x in YetToReach(t) <==> x in YetToReach(s) - iset{(a, i)} {
      if x.0 != a { assert t.slots.Keys == s.slots.Keys; }
    }
  }

  ghost function InlineFilled(s: State, e: Promise, a: AllId, i: nat): State
    requires e in s.payload && a in s.slots && a in s.values
    requires a in s.remaining && i < |s.slots[a]| && i < |s.values[a]|
  {
    s.(slots := s.slots[a := s.slots[a][i := Filled]], values := s.values[a := s.values[a][i := s.payload[e]]],
       remaining := s.remaining[a := s.remaining[a] - 1])
  }

  ghost function InlineFailed(s: State, a: AllId, i: nat): State
    requires a in s.slots && i < |s.slots[a]|
  {
    s.(slots := s.slots[a := s.slots[a][i := Failed]])
  }

  ghost function Subscribing(s: State, e: Promise, a: AllId, i: nat): State
    requires e in s.cbs && a in s.slots && i < |s.slots[a]| && a in s.result
  {
    s.(slots := s.slots[a := s.slots[a][i := Waiting]], cbs := s.cbs[e := s.cbs[e] + [AllCb(s.result[a], a, i)]])
  }

  /** The input of an `all` about to be reached. */
  ghost predicate NextInput(s: State, e: Promise, a: AllId, i: nat) {
    && Ok(s) && IsUnreached(s, a, i) && a in s.entries && i < |s.entries[a]| && s.entries[a][i] == e && e in s.status
  }

  lemma NextInputDomain(s: State, e: Promise, a: AllId, i: nat)
    requires NextInput(s, e, a, i)
    ensures Shape(s) && a in s.slots && i < |s.slots[a]| && a in s.values && i < |s.values[a]| && a in s.remaining
    ensures a in s.result && s.result[a] in s.status && AllOk(s, a, {})
    ensures e in s.payload && e in s.cbs
  {
    hide CallbacksOk, FibersOk, QueuesOk;
    assert AllOk(s, a, {});
  }

  lemma NextInputStatus(s: State, e: Promise, a: AllId, i: nat)
    requires NextInput(s, e, a, i)
    ensures e in s.status && Ok(s)
  {
  }

  lemma AwaitedOk(s: State, e: Promise, a: AllId, i: nat)
    requires NextInput(s, e, a, i) && s.status[e] == Pending
    ensures e in s.cbs && a in s.slots && i < |s.slots[a]| && a in s.result
    ensures Ok(Subscribing(s, e, a, i)) && YetToReach(Subscribing(s, e, a, i)) == YetToReach(s) - iset{(a, i)}
  {
    NextInputDomain(s, e, a, i);
    var t := Subscribing(s, e, a, i);
    AwaitedReached(s, e, a, i);
    hide AllOk, InputOk, OkBut, Reached, YetToReach, NextInput;
    ReachedThis(s, t, a, i);
    AwaitedThis(s, t, a);
    ReachedOk(s, t, a, i, {});
    ReachedRest(s, t, a, i);
  }

  lemma AwaitedReached(s: State, e: Promise, a: AllId, i: nat)
    requires NextInput(s, e, a, i) && s.status[e] == Pending && Shape(s) && a in s.result && AllOk(s, a, {})
    ensures i < |s.slots[a]| && Reached(s, Subscribing(s, e, a, i), a, i)
    ensures |s.values[a]| == |s.slots[a]| && InputOk(Subscribing(s, e, a, i), a, i)
  {
    hide CallbacksOk, FibersOk, AllsOk, Missing, FailedWith;
    var t := Subscribing(s, e, a, i);
    assert Owed(t, e, |s.cbs[e]|);
  }

  /** Nothing is settled by subscribing. */
  lemma AwaitedThis(s: State, t: State, a: AllId)
    requires Shape(s) && Shape(t) && a in s.slots && a in t.slots && AllOk(s, a, {})
    requires s.status[s.result[a]] != Pending ==> AllOk(t, a, {})
    requires s.status[s.result[a]] == Pending && s.remaining[a] > 0 ==> AllOk(t, a, {})
    ensures AllOk(t, a, {})
  {
    hide InputOk, FailedWith;
  }

  lemma InlineFilledOk(s: State, e: Promise, a: AllId, i: nat)
    requires NextInput(s, e, a, i) && s.status[e] == Fulfilled
    ensures e in s.payload && a in s.slots && a in s.values && a in s.remaining && i < |s.slots[a]| && i < |s.values[a]|
    ensures a in s.result && s.result[a] in s.status
    ensures OkBut(InlineFilled(s, e, a, i), {s.result[a]})
    ensures s.status[s.result[a]] != Pending || s.remaining[a] != 1 ==> Ok(InlineFilled(s, e, a, i))
    ensures s.status[s.result[a]] == Pending && s.remaining[a] == 1 ==>
      CanSettle(InlineFilled(s, e, a, i), s.result[a], Fulfilled, Values(a))
    ensures YetToReach(InlineFilled(s, e, a, i)) == YetToReach(s) - iset{(a, i)}
    ensures Advance(s, InlineFilled(s, e, a, i), {})
  {
    hide AllOk, InputOk, OkBut, Reached, YetToReach, NextInput, Advance, CanSettle, Missing, FailedWith, IsUnreached;
    NextInputDomain(s, e, a, i);
    NextInputStatus(s, e, a, i);
    var t := InlineFilled(s, e, a, i);
    InlineFilledReached(s, e, a, i);
    ReachedThis(s, t, a, i);
    ReachedOk(s, t, a, i, {s.result[a]});
    ReachedRest(s, t, a, i);
    if s.status[s.result[a]] != Pending || s.remaining[a] != 1 {
      ReachedOk(s, t, a, i, {});
    } else {
      OkButParts(t, {s.result[a]});
      AllCanSettle(t, a, Fulfilled, Values(a));
    }
  }

  lemma InlineFilledReached(s: State, e: Promise, a: AllId, i: nat)
    requires NextInput(s, e, a, i) && s.status[e] == Fulfilled && Shape(s) && a in s.result && AllOk(s, a, {})
    ensures i < |s.slots[a]| && i < |s.values[a]| && Reached(s, InlineFilled(s, e, a, i), a, i)
    ensures |s.values[a]| == |s.slots[a]| && InputOk(InlineFilled(s, e, a, i), a, i)
    ensures s.remaining[a] > 0
  {
    hide CallbacksOk, FibersOk, AllsOk, FailedWith;
    MissingUpdate(s.slots[a], i, Filled);
  }

  lemma OkButParts(s: State, except: set<Promise>)
    requires OkBut(s, except)
    ensures Shape(s) && AllsOk(s, except)
  {
  }

  lemma InlineFailedOk(s: State, e: Promise, a: AllId, i: nat)
    requires NextInput(s, e, a, i) && s.status[e] == Rejected
    ensures e in s.payload && a in s.slots && i < |s.slots[a]| && a in s.result && s.result[a] in s.status
    ensures OkBut(InlineFailed(s, a, i), {s.result[a]})
    ensures s.status[s.result[a]] != Pending ==> Ok(InlineFailed(s, a, i))
    ensures s.status[s.result[a]] == Pending ==> CanSettle(InlineFailed(s, a, i), s.result[a], Rejected, s.payload[e])
    ensures YetToReach(InlineFailed(s, a, i)) == YetToReach(s) - iset{(a, i)} && Advance(s, InlineFailed(s, a, i), {})
  {
    NextInputDomain(s, e, a, i);
    var t := InlineFailed(s, a, i);
    InlineFailedReached(s, e, a, i);
    hide AllOk, InputOk, OkBut, Reached, YetToReach, NextInput, Advance, CanSettle, Missing, FailedWith;
    ReachedThis(s, t, a, i);
    ReachedOk(s, t, a, i, {s.result[a]});
    ReachedRest(s, t, a, i);
    if s.status[s.result[a]] != Pending {
      ReachedOk(s, t, a, i, {});
    } else {
      OkButParts(t, {s.result[a]});
      AllCanSettle(t, a, Rejected, s.payload[e]);
    }
  }

  lemma InlineFailedReached(s: State, e: Promise, a: AllId, i: nat)
    requires NextInput(s, e, a, i) && s.status[e] == Rejected && Shape(s) && a in s.result && AllOk(s, a, {})
    ensures i < |s.slots[a]| && Reached(s, InlineFailed(s, a, i), a, i) && |s.entries[a]| == |s.slots[a]|
    ensures |s.values[a]| == |s.slots[a]| && InputOk(InlineFailed(s, a, i), a, i)
    ensures FailedWith(InlineFailed(s, a, i), a, i, s.payload[e])
  {
    hide CallbacksOk, FibersOk, AllsOk, Missing;
  }

  // One report to an `all`, owed by a settled input or made while the `all` is built ------------------------

  /** Input `i` of `a` is settled and has not reported. */
  ghost predicate CanReport(s: State, a: AllId, dst: Promise, i: nat, src: Promise, owed: bool) {
    && Ok(s) && a in s.result && dst == s.result[a] && src in s.status && s.status[src] != Pending
    && (owed ==> src in s.active && src in s.cursor && Owed(s, src, s.cursor[src]) && Reports(s, src, a, i))
    && (!owed ==> NextInput(s, src, a, i))
  }

  ghost function Filling(s: State, a: AllId, i: nat, src: Promise, owed: bool): State
    requires src in s.payload && a in s.slots && a in s.values
    requires a in s.remaining && i < |s.slots[a]| && i < |s.values[a]| && src in s.cursor
  {
    if owed then FilledIn(s, src, a, i) else InlineFilled(s, src, a, i)
  }

  ghost function Failing(s: State, a: AllId, i: nat, src: Promise, owed: bool): State
    requires a in s.slots && i < |s.slots[a]| && src in s.cursor
  {
    if owed then FailedAt(s, src, a, i) else InlineFailed(s, a, i)
  }

  lemma CanReportDomain(s: State, a: AllId, dst: Promise, i: nat, src: Promise, owed: bool)
    requires CanReport(s, a, dst, i, src, owed)
    ensures Ok(s) && Shape(s) && a in s.slots && i < |s.slots[a]|
    ensures a in s.values && i < |s.values[a]| && a in s.remaining
    ensures src in s.status && src in s.payload && src in s.cursor && dst in s.status && s.status[src] != Pending
    ensures a in s.result && s.result[a] == dst
  {
    hide CallbacksOk, FibersOk, QueuesOk, AllOk, Owed, InputOk, Missing;
    if owed {
      ReportsTo(s, src, a, i);
      ReportIndex(s, src, a, i);
    } else {
      NextInputDomain(s, src, a, i);
    }
  }

  lemma ReportIndex(s: State, p: Promise, a: AllId, i: nat)
    requires Shape(s) && p in s.cursor && Owed(s, p, s.cursor[p]) && Reports(s, p, a, i)
    requires CallbackOk(s, p, s.cbs[p][s.cursor[p]]) && a in s.slots && AllOk(s, a, {})
    ensures i < |s.slots[a]| && i < |s.values[a]| && s.result[a] in s.status
  {
    hide Missing, InputOk, FailedWith;
  }

  /** What a report leaves to be done, and what it keeps. */
  ghost predicate Reported(s: State, t: State, a: AllId, dst: Promise, i: nat, src: Promise, owed: bool) {
    && Advance(s, t, if owed then {src} else {})
    && YetToReach(t) == YetToReach(s) - (if owed then iset{} else iset{(a, i)})
    && (owed ==> NextCallback(s, t, src)) && SettlesNothing(s, t)
  }

  lemma FillingOk(s: State, a: AllId, dst: Promise, i: nat, src: Promise, owed: bool)
    requires CanReport(s, a, dst, i, src, owed) && src in s.status && s.status[src] == Fulfilled
    ensures src in s.payload && a in s.slots && a in s.values
    ensures a in s.remaining && i < |s.slots[a]| && i < |s.values[a]| && src in s.cursor
    ensures dst in s.status && OkBut(Filling(s, a, i, src, owed), {dst})
    ensures s.status[dst] != Pending || s.remaining[a] != 1 ==> Ok(Filling(s, a, i, src, owed))
    ensures s.status[dst] == Pending && s.remaining[a] == 1 ==>
      CanSettle(Filling(s, a, i, src, owed), dst, Fulfilled, Values(a))
    ensures Reported(s, Filling(s, a, i, src, owed), a, dst, i, src, owed)
  {
    hide OkBut, CanSettle, Advance, YetToReach, NextInput, Owed, Reports, Shape, NextCallback, FilledIn, InlineFilled;
    CanReportDomain(s, a, dst, i, src, owed);
    if owed {
      FilledOk(s, src, a, i);
      FilledNext(s, a, i, src);
    } else {
      InlineFilledOk(s, src, a, i);
      InlineFilledSame(s, a, i, src);
    }
  }

  lemma InlineFilledSame(s: State, a: AllId, i: nat, src: Promise)
    requires src in s.payload && a in s.slots && i < |s.slots[a]|
    requires a in s.values && a in s.remaining && i < |s.values[a]|
    ensures SettlesNothing(s, InlineFilled(s, src, a, i))
  {
  }

  lemma FilledNext(s: State, a: AllId, i: nat, src: Promise)
    requires Shape(s) && src in s.payload && src in s.cursor && src in s.active
    requires a in s.slots && i < |s.slots[a]| && i < |s.values[a]|
    ensures SettlesNothing(s, FilledIn(s, src, a, i))
    ensures NextCallback(s, FilledIn(s, src, a, i), src) && Advance(s, FilledIn(s, src, a, i), {src})
  {
    hide Advance;
    FilledShape(s, a, i, src);
    TakenAdvance(s, FilledIn(s, src, a, i), src);
  }

  lemma FilledShape(s: State, a: AllId, i: nat, src: Promise)
    requires Shape(s) && src in s.payload && src in s.cursor && a in s.slots && i < |s.slots[a]| && i < |s.values[a]|
    ensures Shape(FilledIn(s, src, a, i))
  {
  }

  /** A report by itself settles nothing and wakes nobody. */
  ghost predicate SettlesNothing(s: State, t: State) {
    t.status == s.status && t.payload == s.payload && t.active == s.active && t.ready == s.ready
  }

  lemma FailingOk(s: State, a: AllId, dst: Promise, i: nat, src: Promise, owed: bool)
    requires CanReport(s, a, dst, i, src, owed) && src in s.status && s.status[src] == Rejected
    ensures src in s.payload && a in s.slots && i < |s.slots[a]| && src in s.cursor
    ensures dst in s.status && OkBut(Failing(s, a, i, src, owed), {dst})
    ensures s.status[dst] != Pending ==> Ok(Failing(s, a, i, src, owed))
    ensures s.status[dst] == Pending ==> CanSettle(Failing(s, a, i, src, owed), dst, Rejected, s.payload[src])
    ensures Reported(s, Failing(s, a, i, src, owed), a, dst, i, src, owed)
  {
    hide OkBut, CanSettle, Advance, YetToReach, NextInput, Owed, Reports, Shape, NextCallback, FailedAt, InlineFailed;
    CanReportDomain(s, a, dst, i, src, owed);
    if owed {
      FailedOk(s, src, a, i);
      FailedNext(s, a, i, src);
    } else {
      InlineFailedOk(s, src, a, i);
      InlineFailedSame(s, a, i, src);
    }
  }

  lemma InlineFailedSame(s: State, a: AllId, i: nat, src: Promise)
    requires a in s.slots && i < |s.slots[a]|
    ensures SettlesNothing(s, InlineFailed(s, a, i))
  {
  }

  lemma FailedNext(s: State, a: AllId, i: nat, src: Promise)
    requires Shape(s) && a in s.slots && i < |s.slots[a]| && src in s.cursor && src in s.active
    ensures SettlesNothing(s, FailedAt(s, src, a, i))
    ensures NextCallback(s, FailedAt(s, src, a, i), src) && Advance(s, FailedAt(s, src, a, i), {src})
  {
    hide Advance;
    FailedShape(s, a, i, src);
    TakenAdvance(s, FailedAt(s, src, a, i), src);
  }

  lemma FailedShape(s: State, a: AllId, i: nat, src: Promise)
    requires Shape(s) && a in s.slots && i < |s.slots[a]| && src in s.cursor
    ensures Shape(FailedAt(s, src, a, i))
  {
  }

  lemma ReportedStatus(s: State, t: State, a: AllId, dst: Promise, i: nat, src: Promise, owed: bool)
    requires Reported(s, t, a, dst, i, src, owed)
    ensures Shape(t) && t.status == s.status && PendingSet(t) == PendingSet(s)
  {
  }

  /** A report is over when what it set off is: a rejection has settled a result that was pending. */
  ghost predicate ReportDone(s: State, u: State, a: AllId, dst: Promise, i: nat, src: Promise, owed: bool) {
    && Advance(s, u, if owed then {src} else {}) && (owed ==> NextCallback(s, u, src))
    && YetToReach(u) == YetToReach(s) - (if owed then iset{} else iset{(a, i)})
    && dst in s.status && dst in u.status && dst in u.payload && src in s.status && src in s.payload
    && (s.status[dst] == Pending && s.status[src] == Rejected ==> RejectedWith(u, dst, s.payload[src]))
  }

  ghost predicate RejectedWith(s: State, p: Promise, reason: Value) {
    p in s.status && s.status[p] == Rejected && p in s.payload && s.payload[p] == reason
  }

  /** After the report the result may have settled, with whatever that set off. */
  lemma AfterReport(s: State, t: State, u: State, a: AllId, dst: Promise, i: nat, src: Promise, owed: bool)
    requires Reported(s, t, a, dst, i, src, owed) && Advance(t, u, {}) && YetToReach(u) == YetToReach(t)
    requires dst in s.status && src in s.status && src in s.payload
    requires s.status[dst] == Pending && s.status[src] == Rejected ==> RejectedWith(u, dst, s.payload[src])
    ensures ReportDone(s, u, a, dst, i, src, owed)
  {
    var mine := if owed then {src} else {};
    AdvanceMine(t, u, mine);
    AdvanceTrans(s, t, u, mine);
    if owed { AfterTaken(s, t, u, src); }
  }

  /** An owed callback can be run. */
  lemma OwedDomain(s: State, p: Promise, i: nat)
    requires Ok(s) && p in s.status && p in s.active && s.status[p] != Pending && Owed(s, p, i) && i == s.cursor[p]
    ensures p in s.cbs && i < |s.cbs[p]| && p in s.cursor && p in s.payload
    ensures s.cbs[p][i].AllCb? ==> CanReport(s, s.cbs[p][i].all, s.cbs[p][i].dst, s.cbs[p][i].idx, p, true)
  {
    hide AllsOk, FibersOk, QueuesOk;
    assert CallbackOk(s, p, s.cbs[p][i]);
  }

  // New promises and new `all`s -----------------------------------------------------------------------------

  ghost function Added(s: State, r: Promise): State {
    s.(status := s.status[r := Pending], payload := s.payload[r := Plain(0)], waiters := s.waiters[r := []],
       cbs := s.cbs[r := []], cursor := s.cursor[r := 0])
  }

  /** An `all` over `ps` with a fresh result; no input has been looked at. */
  ghost function AllAdded(s: State, r: Promise, a: AllId, ps: seq<Promise>): State {
    Added(s, r).(remaining := s.remaining[a := |ps|], values := s.values[a := seq(|ps|, _ => Plain(0))],
                 slots := s.slots[a := seq(|ps|, _ => Unreached)], entries := s.entries[a := ps],
                 result := s.result[a := r])
  }

  ghost predicate SameRecord(s: State, t: State, b: AllId)
    requires Shape(s) && Shape(t)
  {
    && b in s.slots && b in t.slots && t.slots[b] == s.slots[b] && t.values[b] == s.values[b]
    && t.remaining[b] == s.remaining[b] && t.entries[b] == s.entries[b] && t.result[b] == s.result[b]
  }

  /** A pending promise `r` is new, and any new `all` has it as its result. */
  ghost predicate Grown(s: State, t: State, r: Promise) {
    && Shape(s) && Shape(t) && r !in s.status
    && t == Added(s, r).(remaining := t.remaining, values := t.values, slots := t.slots, entries := t.entries,
                         result := t.result)
    && (forall b :: b in s.slots ==> SameRecord(s, t, b))
    && (forall b :: b in t.result && b !in s.result ==> t.result[b] == r)
    && (forall b, c :: b in t.result && c in t.result && b !in s.result && c !in s.result ==> b == c)
  }

  lemma GrownCallback(s: State, t: State, r: Promise, p: Promise, k: int)
    requires Grown(s, t, r) && CallbacksOk(s) && Owed(t, p, k)
    ensures CallbackOk(t, p, t.cbs[p][k])
  {
    assert p != r && Owed(s, p, k);
    assert CallbackOk(s, p, s.cbs[p][k]);
    if s.cbs[p][k].RaceCb? {
      GrownResults(s, t, r, s.cbs[p][k].dst);
    } else {
      assert SameRecord(s, t, s.cbs[p][k].all);
    }
  }

  lemma GrownCallbacks(s: State, t: State, r: Promise)
    requires Grown(s, t, r) && CallbacksOk(s)
    ensures CallbacksOk(t)
  {
    forall p, k | Owed(t, p, k) ensures CallbackOk(t, p, t.cbs[p][k]) { GrownCallback(s, t, r, p, k); }
    forall p, j, k | Owed(t, p, j) && Owed(t, p, k) && j < k ensures !SameInput(t.cbs[p][j], t.cbs[p][k]) {
      assert p != r && Owed(s, p, j) && Owed(s, p, k);
    }
  }

  lemma GrownResults(s: State, t: State, r: Promise, p: Promise)
    requires Grown(s, t, r) && p != r && !Reserved(s, p)
    ensures !Reserved(t, p)
  {
    forall b | b in t.result ensures t.result[b] != p {
      if b in s.result { assert b in s.slots && SameRecord(s, t, b); }
    }
  }

  /** The promises of `s` are in `t` as they were. */
  ghost predicate Extends(s: State, t: State) {
    && Shape(s) && Shape(t) && forall e :: e in s.status ==> (e in t.status && t.status[e] == s.status[e]
      && t.payload[e] == s.payload[e] && t.cbs[e] == s.cbs[e] && t.cursor[e] == s.cursor[e])
  }

  lemma GrownExtends(s: State, t: State, r: Promise, b: AllId)
    requires Grown(s, t, r) && b in s.slots
    ensures Extends(s, t) && SameRecord(s, t, b)
  {
    hide SameRecord;
  }

  lemma ExtendedInput(s: State, t: State, b: AllId, i: nat)
    requires Extends(s, t) && SameRecord(s, t, b) && i < |s.slots[b]| == |s.entries[b]| == |s.values[b]|
    requires InputOk(s, b, i)
    ensures InputOk(t, b, i)
  {
    if s.slots[b][i] == Waiting {
      var e := s.entries[b][i];
      var k :| Owed(s, e, k) && s.cbs[e][k].AllCb? && s.cbs[e][k].all == b && s.cbs[e][k].idx == i;
      assert Owed(t, e, k);
    }
  }

  lemma ExtendedFailed(s: State, t: State, b: AllId)
    requires Extends(s, t) && SameRecord(s, t, b) && |s.slots[b]| == |s.entries[b]|
    ensures forall i: nat, v :: FailedWith(s, b, i, v) ==> FailedWith(t, b, i, v)
  {
  }

  lemma ExtendedAll(s: State, t: State, b: AllId)
    requires Extends(s, t) && SameRecord(s, t, b) && AllOk(s, b, {})
    ensures AllOk(t, b, {}) && s.result[b] in s.status
  {
    hide Missing, InputOk;
    forall i | 0 <= i < |t.slots[b]| ensures InputOk(t, b, i) { ExtendedInput(s, t, b, i); }
    ExtendedFailed(s, t, b);
    hide FailedWith;
  }

  lemma GrownAll(s: State, t: State, r: Promise, b: AllId)
    requires Grown(s, t, r) && b in s.slots && AllOk(s, b, {})
    ensures AllOk(t, b, {}) && t.result[b] != r
  {
    hide AllOk, Added;
    GrownExtends(s, t, r, b);
    ExtendedAll(s, t, b);
  }

  lemma GrownAlls(s: State, t: State, r: Promise, except: set<Promise>)
    requires Grown(s, t, r) && AllsOk(s, {}) && forall a :: a in t.slots && a !in s.slots ==> AllOk(t, a, except)
    ensures AllsOk(t, except)
  {
    hide AllOk;
    forall b | b in t.slots ensures AllOk(t, b, except) && (b in s.slots ==> t.result[b] != r) {
      if b in s.slots {
        GrownAll(s, t, r, b);
        AllOkMore(t, b, except);
      }
    }
  }

  lemma GrownQueues(s: State, t: State, r: Promise)
    requires Grown(s, t, r) && QueuesOk(s)
    ensures QueuesOk(t)
  {
    GrownParts(s, t, r);
    hide Grown, Shape;
  }

  lemma GrownParts(s: State, t: State, r: Promise)
    requires Grown(s, t, r)
    ensures Shape(s) && Shape(t) && r !in s.status && r !in s.owned && t.status == s.status[r := Pending]
    ensures t.cursor == s.cursor[r := 0] && t.cbs == s.cbs[r := []] && t.waiters == s.waiters[r := []]
    ensures t.active == s.active && t.owned == s.owned && s.active <= s.status.Keys
    ensures s.cursor.Keys == s.status.Keys && s.cbs.Keys == s.status.Keys && s.waiters.Keys == s.status.Keys
  {
    hide SameRecord;
  }

  lemma GrownApart(s: State, t: State, r: Promise)
    requires Grown(s, t, r) && FibersOk(s)
    ensures WaitersApart(t)
  {
    hide Parked, SameRecord;
  }

  lemma GrownFibers(s: State, t: State, r: Promise)
    requires Grown(s, t, r) && FibersOk(s)
    ensures FibersOk(t)
  {
    hide SameRecord;
    forall f | f in t.fibers ensures f in t.running || f in t.ready || Parked(t, f) {
      if Parked(s, f) {
        var p :| p in s.waiters && f in s.waiters[p];
        assert p in t.waiters && f in t.waiters[p];
      }
    }
    GrownApart(s, t, r);
    hide Parked, WaitersApart;
  }

  lemma GrownOk(s: State, t: State, r: Promise, except: set<Promise>)
    requires Ok(s) && Grown(s, t, r) && forall a :: a in t.slots && a !in s.slots ==> AllOk(t, a, except)
    ensures OkBut(t, except)
  {
    GrownShape(s, t, r);
    hide AllOk, CallbacksOk, AllsOk, QueuesOk, FibersOk, Grown;
    GrownCallbacks(s, t, r);
    GrownAlls(s, t, r, except);
    GrownQueues(s, t, r);
    GrownFibers(s, t, r);
  }

  lemma GrownShape(s: State, t: State, r: Promise)
    requires Grown(s, t, r)
    ensures Shape(s) && Shape(t)
  {
  }

  lemma AddedOk(s: State, r: Promise)
    requires Ok(s) && r !in s.status
    ensures Ok(Added(s, r)) && YetToReach(Added(s, r)) == YetToReach(s)
  {
    hide Grown, CallbacksOk, AllsOk, AllOk, QueuesOk, FibersOk, YetToReach;
    AddedGrown(s, r);
    AddedReach(s, r);
    GrownOk(s, Added(s, r), r, {});
  }

  lemma AddedReach(s: State, r: Promise)
    ensures YetToReach(Added(s, r)) == YetToReach(s)
  {
  }

  lemma AddedGrown(s: State, r: Promise)
    requires Ok(s) && r !in s.status
    ensures Grown(s, Added(s, r), r)
  {
    hide CallbacksOk, AllsOk, QueuesOk, FibersOk;
    AddedShape(s, r);
    hide Shape;
  }

  lemma AddedShape(s: State, r: Promise)
    requires Shape(s)
    ensures Shape(Added(s, r))
  {
  }

  lemma {:induction false} MissingAll(n: nat)
    ensures Missing(seq(n, _ => Unreached)) == n
  {
    if n > 0 {
      assert seq(n, _ => Unreached)[1..] == seq(n - 1, _ => Unreached);
      MissingAll(n - 1);
    }
  }

  /** The inputs of an `all` from `i` on. */
  ghost function From(a: AllId, i: nat, n: nat): iset<(AllId, nat)> {
    iset x: (AllId, nat) | x.0 == a && i <= x.1 < n
  }

  lemma AllAddedOk(s: State, r: Promise, a: AllId, ps: seq<Promise>)
    requires Ok(s) && r !in s.status && a !in s.slots && forall p :: p in ps ==> p in s.status
    ensures OkBut(AllAdded(s, r, a, ps), {r}) && (ps != [] ==> Ok(AllAdded(s, r, a, ps)))
    ensures YetToReach(AllAdded(s, r, a, ps)) == YetToReach(s) + From(a, 0, |ps|)
  {
    var t := AllAdded(s, r, a, ps);
    AllAddedGrown(s, r, a, ps);
    AllAddedNew(s, r, a, ps);
    hide CallbacksOk, AllsOk, QueuesOk, FibersOk, Grown, AllOk;
    forall b | b in t.slots && b !in s.slots ensures AllOk(t, b, {r}) && (ps != [] ==> AllOk(t, b, {})) {
      assert b == a;
    }
    GrownOk(s, t, r, {r});
    if ps != [] { GrownOk(s, t, r, {}); }
    AllAddedInputs(s, r, a, ps);
  }

  lemma AllAddedGrown(s: State, r: Promise, a: AllId, ps: seq<Promise>)
    requires Shape(s) && r !in s.status && a !in s.slots
    ensures Grown(s, AllAdded(s, r, a, ps), r)
  {
    hide SameRecord;
    var t := AllAdded(s, r, a, ps);
    AllAddedShape(s, r, a, ps);
    forall b | b in s.slots ensures SameRecord(s, t, b) { AllAddedRecord(s, r, a, ps, b); }
    hide Shape;
  }

  lemma AllAddedShape(s: State, r: Promise, a: AllId, ps: seq<Promise>)
    requires Shape(s)
    ensures Shape(AllAdded(s, r, a, ps))
  {
  }

  lemma AllAddedRecord(s: State, r: Promise, a: AllId, ps: seq<Promise>, b: AllId)
    requires Shape(s) && Shape(AllAdded(s, r, a, ps)) && a !in s.slots && b in s.slots
    ensures SameRecord(s, AllAdded(s, r, a, ps), b)
  {
  }

  lemma AllAddedInputs(s: State, r: Promise, a: AllId, ps: seq<Promise>)
    requires Shape(s) && a !in s.slots
    ensures YetToReach(AllAdded(s, r, a, ps)) == YetToReach(s) + From(a, 0, |ps|)
  {
  }

  lemma AllAddedNew(s: State, r: Promise, a: AllId, ps: seq<Promise>)
    requires Shape(s) && r !in s.status && a !in s.slots && forall p :: p in ps ==> p in s.status
    ensures Shape(AllAdded(s, r, a, ps)) && AllOk(AllAdded(s, r, a, ps), a, {r})
    ensures ps != [] ==> AllOk(AllAdded(s, r, a, ps), a, {})
  {
    hide AllOk, Shape;
    MissingAll(|ps|);
    AllAddedGrown(s, r, a, ps);
    GrownShape(s, AllAdded(s, r, a, ps), r);
    NewAllOk(AllAdded(s, r, a, ps), r, a, ps);
  }

  lemma NewAllOk(t: State, r: Promise, a: AllId, ps: seq<Promise>)
    requires Shape(t) && a in t.slots && t.entries[a] == ps && t.result[a] == r && |t.values[a]| == |ps|
    requires t.slots[a] == seq(|ps|, _ => Unreached) && t.remaining[a] == |ps| == Missing(t.slots[a])
    requires r in t.status && t.status[r] == Pending && forall p :: p in ps ==> p in t.status
    ensures AllOk(t, a, {r}) && (ps != [] ==> AllOk(t, a, {}))
  {
    hide Missing, FailedWith;
  }

  lemma OkWeaker(s: State, except: set<Promise>)
    requires Ok(s)
    ensures OkBut(s, except)
  {
    hide CallbacksOk, QueuesOk, FibersOk, AllOk;
    forall a | a in s.slots ensures AllOk(s, a, except) { AllOkMore(s, a, except); }
  }

  /** Nothing is missing: the result may be fulfilled with the values. */
  lemma AllDone(s: State, a: AllId, r: Promise)
    requires OkBut(s, {r}) && a in s.result && s.result[a] == r && a in s.remaining && s.remaining[a] == 0
    requires r in s.status && s.status[r] == Pending
    ensures CanSettle(s, r, Fulfilled, Values(a))
  {
    hide CallbacksOk, QueuesOk, FibersOk, InputOk, FailedWith;
    assert AllOk(s, a, {r});
    hide Missing;
    AllCanSettle(s, a, Fulfilled, Values(a));
  }

  /** How an `all` came to be: over `ps`, every input looked at, no settled promise changed, fibers only woken. */
  ghost predicate AllBuilding(s: State, t: State, r: Promise, a: AllId, ps: seq<Promise>, i: nat) {
    && Shape(s) && Shape(t) && a in t.entries && t.entries[a] == ps && a in t.result && t.result[a] == r
    && YetToReach(t) == YetToReach(s) + From(a, i, |ps|) && t.status.Keys == s.status.Keys + {r} && Kept(s, t)
    && s.ready <= t.ready && t.running == s.running && t.fibers == s.fibers && t.active == s.active
    && t.entries == s.entries[a := ps] && t.result == s.result[a := r]
  }

  lemma KeptAdvance(s: State, t: State, u: State)
    requires Shape(s) && Shape(t) && Kept(s, t) && Advance(t, u, {})
    ensures Shape(u) && Kept(s, u) && u.active == t.active && u.entries == t.entries && u.result == t.result
    ensures t.ready <= u.ready && u.running == t.running && u.fibers == t.fibers && u.status.Keys == t.status.Keys
  {
    hide Woken;
    assert t.active - {} == t.active && u.active - {} == u.active;
  }

  /** Settled promises keep their settlement; those still pending keep their waiters, and new callbacks queue up behind
      the ones they have. */
  ghost predicate Kept(s: State, t: State)
    requires Shape(s) && Shape(t)
  {
    forall p :: p in s.status ==> (p in t.status
      && (s.status[p] != Pending ==> (t.status[p] == s.status[p] && t.payload[p] == s.payload[p]))
      && (t.status[p] == Pending ==> (t.waiters[p] == s.waiters[p] && s.cbs[p] <= t.cbs[p])))
  }

  lemma AddedKept(s: State, r: Promise, a: AllId, ps: seq<Promise>)
    requires Shape(s) && r !in s.status && Shape(AllAdded(s, r, a, ps))
    ensures Kept(s, AllAdded(s, r, a, ps))
  {
  }

  /** Setting up an `all` adds its records and its result, and moves no fiber. */
  lemma AllAddedSame(s: State, r: Promise, a: AllId, ps: seq<Promise>)
    requires Shape(s)
    ensures AllAdded(s, r, a, ps).status.Keys == s.status.Keys + {r}
    ensures AllAdded(s, r, a, ps).entries == s.entries[a := ps] && AllAdded(s, r, a, ps).result == s.result[a := r]
    ensures AllAdded(s, r, a, ps).ready == s.ready && AllAdded(s, r, a, ps).running == s.running
    ensures AllAdded(s, r, a, ps).fibers == s.fibers && AllAdded(s, r, a, ps).active == s.active
  {
  }

  lemma BuildBegin(s: State, r: Promise, a: AllId, ps: seq<Promise>)
    requires Shape(s) && r !in s.status && a !in s.slots
    requires YetToReach(AllAdded(s, r, a, ps)) == YetToReach(s) + From(a, 0, |ps|)
    ensures AllBuilding(s, AllAdded(s, r, a, ps), r, a, ps, 0)
  {
    hide YetToReach, From, Shape, Kept;
    AllAddedShape(s, r, a, ps);
    AddedKept(s, r, a, ps);
    AllAddedSame(s, r, a, ps);
    hide AllAdded;
  }

  lemma BuildInput(s: State, t: State, r: Promise, a: AllId, ps: seq<Promise>, i: nat)
    requires Ok(t) && AllBuilding(s, t, r, a, ps, i) && i < |ps|
    requires a !in s.slots && forall p :: p in ps ==> p in s.status
    ensures NextInput(t, ps[i], a, i) && a in t.slots && i < |t.slots[a]| && ps[i] in t.cbs
    ensures t.status[ps[i]] != Pending ==> CanReport(t, a, r, i, ps[i], false)
  {
    hide CallbacksOk, AllsOk, QueuesOk, FibersOk;
    assert (a, i) in From(a, i, |ps|);
    assert (a, i) in YetToReach(t);
  }

  lemma BuildStep(s: State, t: State, u: State, r: Promise, a: AllId, ps: seq<Promise>, i: nat)
    requires AllBuilding(s, t, r, a, ps, i) && i < |ps| && a !in s.slots && Advance(t, u, {})
    requires YetToReach(u) == YetToReach(t) - iset{(a, i)}
    ensures AllBuilding(s, u, r, a, ps, i + 1)
  {
    hide YetToReach, From, Advance, Kept, Shape;
    BuildRest(s, a, i, |ps|);
    KeptAdvance(s, t, u);
  }

  lemma BuildRest(s: State, a: AllId, i: nat, n: nat)
    requires i < n && a !in s.slots
    ensures YetToReach(s) + From(a, i, n) - iset{(a, i)} == YetToReach(s) + From(a, i + 1, n)
  {
  }

  lemma BuildAwait(s: State, t: State, r: Promise, a: AllId, ps: seq<Promise>, i: nat)
    requires AllBuilding(s, t, r, a, ps, i) && i < |ps|
    requires a !in s.slots && ps[i] in t.cbs && a in t.slots && i < |t.slots[a]|
    requires Shape(Subscribing(t, ps[i], a, i))
    requires YetToReach(Subscribing(t, ps[i], a, i)) == YetToReach(t) - iset{(a, i)}
    ensures AllBuilding(s, Subscribing(t, ps[i], a, i), r, a, ps, i + 1)
  {
    BuildRest(s, a, i, |ps|);
    hide YetToReach, From, Shape;
  }

  lemma BuildEnd(s: State, t: State, u: State, r: Promise, a: AllId, ps: seq<Promise>)
    requires AllBuilding(s, t, r, a, ps, |ps|) && Advance(t, u, {}) && YetToReach(u) == YetToReach(t)
    ensures AllBuilding(s, u, r, a, ps, |ps|)
  {
    hide YetToReach, From, Advance, Kept, Shape;
    KeptAdvance(s, t, u);
  }

  lemma BuildDomain(s: State, t: State, r: Promise, a: AllId, ps: seq<Promise>, i: nat)
    requires AllBuilding(s, t, r, a, ps, i) && i < |ps| && NextInput(t, ps[i], a, i)
    ensures ps[i] in t.status && a in t.result && t.result[a] == r
  {
    hide YetToReach, From, Kept, Shape, OkBut;
  }

  lemma BuildResult(s: State, t: State, r: Promise, a: AllId, ps: seq<Promise>)
    requires AllBuilding(s, t, r, a, ps, |ps|)
    ensures a in t.remaining && r in t.status && a in t.result
    ensures t.result[a] == r && a in t.entries && t.entries[a] == ps
  {
    hide YetToReach, From, Kept;
  }

  /** Without inputs nothing is missing, so an `all` left pending has some, and was well formed throughout. */
  lemma BuiltOk(s: State, r: Promise, a: AllId, ps: seq<Promise>)
    requires OkBut(s, {r}) && (ps != [] ==> Ok(s)) && a in s.result
    requires s.result[a] == r && a in s.entries && s.entries[a] == ps
    requires a in s.remaining && r in s.status && !(s.remaining[a] == 0 && s.status[r] == Pending)
    ensures Ok(s)
  {
    hide CallbacksOk, QueuesOk, FibersOk, InputOk, FailedWith;
    if ps == [] {
      assert AllOk(s, a, {r});
      assert s.slots[a] == [];
      forall b | b in s.slots ensures AllOk(s, b, {}) { assert AllOk(s, b, {r}); }
    }
  }

  /** An `all` left with nothing missing and a pending result has no inputs. */
  lemma NoInputsLeft(s: State, a: AllId, r: Promise, ps: seq<Promise>)
    requires OkBut(s, {r}) && (ps != [] ==> Ok(s)) && a in s.result && s.result[a] == r && a in s.entries
    requires s.entries[a] == ps && a in s.remaining && s.remaining[a] == 0 && r in s.status && s.status[r] == Pending
    ensures ps == []
  {
    hide CallbacksOk, QueuesOk, FibersOk, InputOk, FailedWith, Missing;
  }

  /** Between two calls: no promise is being woken, and every `all` has looked at all its inputs. */
  ghost predicate Between(s: State) {
    s.active == {} && YetToReach(s) == iset{}
  }

  lemma BetweenAdvance(s: State, t: State)
    requires Between(s) && Advance(s, t, {}) && YetToReach(t) == YetToReach(s)
    ensures Between(t)
  {
    hide YetToReach, Woken;
    assert s.active - {} == s.active && t.active - {} == t.active;
  }

  lemma BetweenAdded(s: State, r: Promise)
    requires Between(s)
    ensures Between(Added(s, r))
  {
    AddedReach(s, r);
    hide YetToReach;
  }

  lemma BetweenSame(s: State, t: State)
    requires Between(s) && t.active == s.active && t.slots == s.slots
    ensures Between(t)
  {
    assert YetToReach(t) == YetToReach(s);
  }

  lemma BetweenBuilt(s: State, t: State, r: Promise, a: AllId, ps: seq<Promise>)
    requires Between(s) && AllBuilding(s, t, r, a, ps, |ps|)
    ensures Between(t)
  {
    hide YetToReach, Kept;
  }

  // What an `all` comes to ----------------------------------------------------------------------------------

  ghost predicate Quiet(s: State, a: AllId)
    requires Shape(s)
  {
    s.active == {} && a in s.slots && forall i :: !IsUnreached(s, a, i)
  }

  lemma BetweenQuiet(s: State, a: AllId)
    requires Shape(s) && Between(s) && a in s.slots
    ensures Quiet(s, a)
  {
    forall i ensures !IsUnreached(s, a, i) { assert i >= 0 ==> (a, i as nat) !in YetToReach(s); }
  }

  lemma QuietInput(s: State, a: AllId, i: nat)
    requires Ok(s) && Quiet(s, a) && AllOk(s, a, {}) && i < |s.entries[a]|
    ensures s.entries[a][i] in s.status && s.slots[a][i] != Unreached
    ensures s.slots[a][i] == Filled <==> s.status[s.entries[a][i]] == Fulfilled
    ensures s.slots[a][i] == Failed <==> s.status[s.entries[a][i]] == Rejected
    ensures s.slots[a][i] == Filled ==> s.values[a][i] == s.payload[s.entries[a][i]]
  {
    hide CallbacksOk, AllsOk, FibersOk, Missing;
    assert InputOk(s, a, i) && !IsUnreached(s, a, i);
  }

  /** Between settlements, an `all` is fulfilled exactly when every input is, with input `i`'s value at index `i`
      whatever order they settled in; it is rejected exactly when some input is, with the reason of one that is. */
  lemma AllOutcome(s: State, a: AllId)
    requires Ok(s) && Between(s) && a in s.slots
    ensures a in s.result && s.result[a] in s.status && |s.values[a]| == |s.entries[a]|
    ensures forall i :: 0 <= i < |s.entries[a]| ==> s.entries[a][i] in s.status
    ensures s.status[s.result[a]] == Fulfilled <==>
      forall i :: 0 <= i < |s.entries[a]| ==> s.status[s.entries[a][i]] == Fulfilled
    ensures s.status[s.result[a]] == Rejected <==>
      exists i :: 0 <= i < |s.entries[a]| && s.status[s.entries[a][i]] == Rejected
    ensures s.status[s.result[a]] == Fulfilled ==> (s.payload[s.result[a]] == Values(a)
      && forall i :: 0 <= i < |s.entries[a]| ==> s.values[a][i] == s.payload[s.entries[a][i]])
    ensures s.status[s.result[a]] == Rejected ==>
      exists i :: 0 <= i < |s.entries[a]| && s.status[s.entries[a][i]] == Rejected
                  && s.payload[s.entries[a][i]] == s.payload[s.result[a]]
  {
    hide CallbacksOk, QueuesOk, FibersOk, Missing, InputOk, FailedWith, IsUnreached;
    assert AllOk(s, a, {});
    BetweenQuiet(s, a);
    QuietInputs(s, a);
    hide Ok, AllOk;
    AllFacts(s, a);
    MissingNone(s.slots[a]);
    if s.status[s.result[a]] == Rejected {
      var i :| FailedWith(s, a, i, s.payload[s.result[a]]);
      FailedEntry(s, a, i, s.payload[s.result[a]]);
    }
  }

  lemma FailedEntry(s: State, a: AllId, i: nat, v: Value)
    requires Shape(s) && a in s.slots && |s.slots[a]| == |s.entries[a]| && FailedWith(s, a, i, v)
    ensures i < |s.entries[a]| && s.entries[a][i] in s.status
    ensures s.status[s.entries[a][i]] == Rejected && s.payload[s.entries[a][i]] == v
  {
  }

  lemma QuietInputs(s: State, a: AllId)
    requires Shape(s) && a in s.slots && Ok(s) && Quiet(s, a) && AllOk(s, a, {})
    ensures forall i :: 0 <= i < |s.entries[a]| ==>
      s.entries[a][i] in s.status && i < |s.slots[a]| && s.slots[a][i] != Unreached
    ensures forall i :: 0 <= i < |s.entries[a]| ==>
      (s.slots[a][i] == Filled <==> s.status[s.entries[a][i]] == Fulfilled)
    ensures forall i :: 0 <= i < |s.entries[a]| ==> (s.slots[a][i] == Failed <==> s.status[s.entries[a][i]] == Rejected)
    ensures |s.values[a]| == |s.entries[a]|
    ensures forall i :: 0 <= i < |s.entries[a]| && s.slots[a][i] == Filled ==>
      s.values[a][i] == s.payload[s.entries[a][i]]
  {
    hide Ok, Quiet, Missing, InputOk, FailedWith;
    forall i | 0 <= i < |s.entries[a]|
      ensures s.entries[a][i] in s.status && s.slots[a][i] != Unreached
      ensures s.slots[a][i] == Filled <==> s.status[s.entries[a][i]] == Fulfilled
      ensures s.slots[a][i] == Failed <==> s.status[s.entries[a][i]] == Rejected
      ensures s.slots[a][i] == Filled ==> s.values[a][i] == s.payload[s.entries[a][i]]
    {
      QuietInput(s, a, i);
    }
  }

  lemma AllFacts(s: State, a: AllId)
    requires Shape(s) && a in s.slots && AllOk(s, a, {})
    ensures |s.slots[a]| == |s.entries[a]| && |s.values[a]| == |s.entries[a]| && s.result[a] in s.status
    ensures s.status[s.result[a]] == Fulfilled ==> s.payload[s.result[a]] == Values(a) && Missing(s.slots[a]) == 0
    ensures s.status[s.result[a]] == Rejected ==> exists i :: FailedWith(s, a, i, s.payload[s.result[a]])
    ensures s.status[s.result[a]] == Pending ==>
      Missing(s.slots[a]) > 0 && forall i :: 0 <= i < |s.slots[a]| ==> s.slots[a][i] != Failed
  {
    hide Missing, InputOk, FailedWith;
  }

  /** The countdown is the number of inputs that have not fulfilled. */
  ghost function Unfulfilled(s: State, ps: seq<Promise>): nat
    requires forall p :: p in ps ==> p in s.status
  {
    if ps == [] then 0 else (if s.status[ps[0]] == Fulfilled then 0 else 1) + Unfulfilled(s, ps[1..])
  }

  lemma {:induction false} MissingIsUnfulfilled(s: State, ps: seq<Promise>, t: seq<Slot>)
    requires |ps| == |t| && forall p :: p in ps ==> p in s.status
    requires forall i :: 0 <= i < |ps| ==> (t[i] == Filled <==> s.status[ps[i]] == Fulfilled)
    ensures Missing(t) == Unfulfilled(s, ps)
  {
    if ps != [] {
      assert ps[0] in s.status && (t[0] == Filled <==> s.status[ps[0]] == Fulfilled);
      assert forall i :: 0 <= i < |ps[1..]| ==> ps[1..][i] == ps[i + 1] && t[1..][i] == t[i + 1];
      MissingIsUnfulfilled(s, ps[1..], t[1..]);
    }
  }

  lemma RemainingCounts(s: State, a: AllId)
    requires Ok(s) && Between(s) && a in s.slots
    ensures a in s.entries && (forall p :: p in s.entries[a] ==> p in s.status)
    ensures s.remaining[a] == Unfulfilled(s, s.entries[a])
  {
    hide CallbacksOk, QueuesOk, FibersOk, Missing, InputOk, FailedWith, IsUnreached;
    assert AllOk(s, a, {});
    BetweenQuiet(s, a);
    QuietInputs(s, a);
    hide Ok;
    MissingIsUnfulfilled(s, s.entries[a], s.slots[a]);
  }
}
