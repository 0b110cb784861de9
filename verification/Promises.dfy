/** Settling promises: the waiters wake in park order, the combinator callbacks run, and each may settle another
    promise in turn. */
module Promises {
  import opened PromiseState
  import opened PromiseBuilding
  import opened PromiseFibers
  import opened PromiseHistory
  import opened ReadyQueue

  class Scheduler {
    var status: map<Promise, Status>
    var payload: map<Promise, Value>
    var waiters: map<Promise, seq<Fiber>>
    var cbs: map<Promise, seq<Callback>>
    const ready: Queue
    var running: seq<Fiber>
    var remaining: map<AllId, int>
    var values: map<AllId, seq<Value>>
    ghost var cursor: map<Promise, nat>
    ghost var slots: map<AllId, seq<Slot>>
    ghost var entries: map<AllId, seq<Promise>>
    ghost var result: map<AllId, Promise>
    ghost var fibers: set<Fiber>
    ghost var active: set<Promise>
    /** The promise each fiber settles when it finishes, and the one it is waiting for. */
    var owner: map<Fiber, Promise>
    var awaiting: map<Fiber, Promise>
    /** Every attempt made to settle a promise. */
    ghost var history: seq<Attempt>
    /** Every `await`, and every fiber that was resumed, in order. */
    ghost var awaits: seq<AwaitOf>
    ghost var resumed: seq<Fiber>

    ghost function Now(): State
      reads this, ready, ready.slots
      requires ready.Valid()
    {
      State(status, payload, waiters, cbs, cursor, ready.Contents(), running, fibers, remaining, values, slots, entries,
            result, active, owner.Values)
    }

    /** The settlements are those the history says. */
    ghost predicate Lawful()
      reads this
    {
      Law(Book(status, payload, entries, result), history)
    }

    ghost predicate Valid()
      reads this, ready, ready.slots
    {
      ready.Valid() && AtRest(Now(), owner, awaiting) && Lawful() && InAwaitOrder(Now(), awaits)
    }

    /** No fiber was started, finished or suspended, and the ready queue is still this scheduler's. */
    twostate predicate Undisturbed()
      reads this, ready, ready.slots
    {
      && ready.Valid() && (ready.slots == old(ready.slots) || fresh(ready.slots))
      && owner == old(owner) && awaiting == old(awaiting) && awaits == old(awaits) && resumed == old(resumed)
      && old(history) <= history
    }

    constructor ()
      ensures Valid() && status == map[] && ready.Contents() == [] && running == [] && history == []
      ensures fresh(ready) && fresh(ready.slots)
    {
      hide AtRest, Law, InAwaitOrder;
      ready := new Queue();
      status, payload, waiters, cbs, cursor := map[], map[], map[], map[], map[];
      running, fibers, active := [], {}, {};
      remaining, values, slots, entries, result := map[], map[], map[], map[], map[];
      owner, awaiting, history, awaits, resumed := map[], map[], [], [], [];
      new;
      EmptyOk(Now());
      OrderEmpty(Now());
      LawNothing(BookOf(Now()));
    }

    /** Records a settlement and wakes: terminates through any network of callbacks, because every settlement it
        causes is of a promise that was still pending. */
    method Settle(p: Promise, st: Status, v: Value, ghost via: Source)
      requires ready.Valid() && Lawful()
      requires OkBut(Now(), {p}) && CanSettle(Now(), p, st, v) && Justified(BookOf(Now()), Attempt(p, st, v, via))
      modifies this, ready, ready.slots
      ensures Undisturbed()
      ensures Ok(Now()) && Advance(old(Now()), Now(), {}) && YetToReach(Now()) == old(YetToReach(Now()))
      ensures p in status && status[p] == st && p in payload && payload[p] == v
      ensures p in old(waiters) && old(ready.Contents()) + old(waiters[p]) <= ready.Contents()
      ensures p in old(cbs) && RacesDone(old(Now()), Now(), p, |old(cbs[p])|)
      ensures Lawful() && old(history) + [Attempt(p, st, v, via)] <= history
      ensures InTurn(old(cbs[p]), p, st, v, history, |old(history)| + 1)
      decreases PendingSet(Now()), 0
    {
      hide Ok, OkBut, Shape, CanSettle, Advance, YetToReach, PendingSet, RacesDone, Law, Truthful, Proper, InTurn;
      ghost var s := Now();
      SettleDomain(s, p, st, v);
      SettledOk(s, p, st, v);
      LawSettled(BookOf(s), history, Attempt(p, st, v, via));
      history := history + [Attempt(p, st, v, via)];
      status, payload := status[p := st], payload[p := v];
      active := active + {p};
      SettleWake(p, s, st, v);
    }

    /** Wakes the waiters of a promise just settled, then runs its callbacks. */
    method SettleWake(p: Promise, ghost s: State, ghost st: Status, ghost v: Value)
      requires ready.Valid()
      requires p in s.status && Now() == Settled(s, p, st, v)
      requires OkBut(s, {p}) && CanSettle(s, p, st, v) && Ok(Now()) && Lawful()
      modifies this, ready, ready.slots
      ensures Undisturbed() && Lawful()
      ensures Ok(Now()) && Settles(s, Now(), p, st, v) && p in s.cbs && RacesDone(s, Now(), p, |s.cbs[p]|)
      ensures InTurn(s.cbs[p], p, st, v, history, |old(history)|)
      decreases PendingSet(Now()), 7
    {
      hide Ok, OkBut, Shape, CanSettle, PendingSet, Waking, Settles, RacesDone, Law, InTurn;
      BeginWake(p, s, st, v);
      ghost var from := |history|;
      NoTurnYet(s.cbs[p], p, st, v, history);
      var i := 0;
      while i < |cbs[p]|
        invariant Undisturbed() && Lawful() && p in cbs && cbs[p] == s.cbs[p] && Ok(Now())
        invariant Waking(s, Now(), p, i, st, v) && RacesDone(s, Now(), p, i)
        invariant i <= |s.cbs[p]| && InTurn(s.cbs[p][..i], p, st, v, history, from)
      {
        WakingFewer(s, Now(), p, i, st, v);
        NextOne(p, i, s, st, v, from);
        i := i + 1;
      }
      assert s.cbs[p][..i] == s.cbs[p];
      WakingDone(s, Now(), p, i, st, v);
      RacesEnd(s, Now(), p, i);
      DropCallbacks(p);
    }

    /** The waiters of a promise just settled go to the ready queue. */
    method BeginWake(p: Promise, ghost s: State, ghost st: Status, ghost v: Value)
      requires ready.Valid()
      requires p in s.status && Now() == Settled(s, p, st, v)
      requires OkBut(s, {p}) && CanSettle(s, p, st, v) && Ok(Now())
      modifies this`waiters, ready, ready.slots
      ensures Undisturbed()
      ensures Ok(Now()) && Waking(s, Now(), p, 0, st, v) && RacesDone(s, Now(), p, 0)
      ensures p in cbs && p in s.cbs && cbs[p] == s.cbs[p]
    {
      hide Ok, OkBut, Shape, CanSettle, Advance, PendingSet, Waking, RacesDone;
      SettleDomain(s, p, st, v);
      BeginAdvance(s, p, st, v);
      WakeWaiters(p);
      WokenUpOk(Settled(s, p, st, v), p);
      AfterBegin(s, p, st, v);
      NoRacesYet(s, Now(), p);
    }

    /** Runs the next callback of a promise being woken. */
    method NextOne(p: Promise, i: nat, ghost s: State, ghost st: Status, ghost v: Value, ghost from: nat)
      requires ready.Valid() && Lawful() && p in cbs && i < |cbs[p]| && Ok(Now())
      requires p in s.cbs && cbs[p] == s.cbs[p] && p in s.status
      requires Waking(s, Now(), p, i, st, v) && RacesDone(s, Now(), p, i)
      requires InTurn(s.cbs[p][..i], p, st, v, history, from)
      modifies this, ready, ready.slots
      ensures Undisturbed() && Lawful() && p in cbs && cbs[p] == s.cbs[p] && Ok(Now())
      ensures Waking(s, Now(), p, i + 1, st, v) && RacesDone(s, Now(), p, i + 1)
      ensures InTurn(s.cbs[p][..i + 1], p, st, v, history, from)
      decreases PendingSet(Now()), 6
    {
      hide Ok, Shape, Advance, YetToReach, PendingSet, Waking, NextCallback, Owed, RacesDone, RaceResult, Law;
      hide CallbackLogged, InTurn;
      ghost var t, was := Now(), history;
      WakingNext(s, t, p, i, st, v);
      WakingStatus(s, t, p, i, st, v);
      RunCallback(p, i);
      InTurnNext(t, p, i, s.cbs[p], st, v, was, history, from);
      WakingStep(s, t, Now(), p, i, st, v);
      RacesStep(s, t, Now(), p, i);
    }

    method DropCallbacks(p: Promise)
      requires ready.Valid()
      modifies this`cbs, this`cursor, this`active
      ensures ready.Valid()
      ensures Now() == WakeEnded(old(Now()), p)
    {
      cbs := cbs[p := []];
      cursor, active := cursor[p := 0], active - {p};
    }

    /** Pushes the waiters onto the ready queue and empties the list. */
    method WakeWaiters(p: Promise)
      requires p in waiters && ready.Valid()
      modifies this`waiters, ready, ready.slots
      ensures Undisturbed()
      ensures ready.Contents() == old(ready.Contents()) + old(waiters[p]) && waiters == old(waiters)[p := []]
    {
      var i := 0;
      assert waiters[p][..0] == [] && ready.Contents() + [] == ready.Contents();
      while i < |waiters[p]|
        modifies ready, ready.slots
        invariant 0 <= i <= |waiters[p]| && Undisturbed() && waiters == old(waiters)
        invariant ready.Contents() == old(ready.Contents()) + waiters[p][..i]
      {
        assert old(ready.Contents()) + (waiters[p][..i] + [waiters[p][i]]) == ready.Contents() + [waiters[p][i]];
        assert waiters[p][..i + 1] == waiters[p][..i] + [waiters[p][i]];
        ready.Push(waiters[p][i]);
        i := i + 1;
      }
      assert waiters[p][..i] == waiters[p];
      waiters := waiters[p := []];
    }

    /** Runs callback `i` of a settled promise: an `all` entry reports, a race entry adapts a fulfilment or copies a
        rejection. */
    method RunCallback(p: Promise, i: nat)
      requires ready.Valid() && Lawful()
      requires Ok(Now()) && p in status && p in active && status[p] != Pending && Owed(Now(), p, i) && i == cursor[p]
      modifies this, ready, ready.slots
      ensures Undisturbed()
      ensures Ok(Now()) && Advance(old(Now()), Now(), {p}) && YetToReach(Now()) == old(YetToReach(Now()))
      ensures NextCallback(old(Now()), Now(), p)
      ensures p in old(cbs) && i < |old(cbs[p])|
      ensures old(cbs[p])[i].RaceCb? ==> RaceResult(old(Now()), Now(), p, old(cbs[p])[i])
      ensures Lawful() && CallbackLogged(old(Now()), p, i, old(history), history)
      decreases PendingSet(Now()), 5
    {
      hide RaceResult, Ok, OkBut, Shape, CanSettle, Advance, YetToReach, PendingSet, Waking, NextCallback, Owed;
      hide CanReport, Reported, Reserved, Law;
      ghost var s := Now();
      OkShape(s);
      OwedDomain(s, p, i);
      match cbs[p][i]
      case AllCb(dst, a, idx) =>
        AllSettle(a, dst, idx, p, true);
      case RaceCb(dst, adapt) =>
        RunRace(p, i, dst, adapt);
    }

    /** A race entry settled: the race settles so too, if it is still pending. */
    method RunRace(p: Promise, i: nat, dst: Promise, adapt: Value -> Value)
      requires ready.Valid() && Lawful() && p in cbs && i < |cbs[p]| && cbs[p][i] == RaceCb(dst, adapt) && p in payload
      requires Ok(Now()) && p in status && p in active && status[p] != Pending && Owed(Now(), p, i)
      requires p in cursor && i == cursor[p]
      modifies this, ready, ready.slots
      ensures Undisturbed() && Lawful() && old(history) + [EntryAttempt(old(Now()), dst, p, adapt)] <= history
      ensures Ok(Now()) && Advance(old(Now()), Now(), {p}) && YetToReach(Now()) == old(YetToReach(Now()))
      ensures NextCallback(old(Now()), Now(), p) && RaceResult(old(Now()), Now(), p, RaceCb(dst, adapt))
      decreases PendingSet(Now()), 3
    {
      hide RaceResult, Ok, OkBut, Shape, Advance, YetToReach, PendingSet, NextCallback, Owed, Reserved, Law;
      ghost var s := Now();
      OkShape(s);
      TakenRaceOk(s, p);
      Take(p);
      OkShape(Now());
      SamePending(s, Now());
      SettleFrom(dst, p, if status[p] == Fulfilled then adapt(payload[p]) else payload[p], adapt);
      RaceDone(s, Now(), p);
      OkShape(Now());
      RaceResultDone(s, Taken(s, p), Now(), p, s.cbs[p][i]);
    }

    /** Input `i` of an `all` reports: a fulfilment stores its value at the input's index and the last one missing
        fulfils the result; a rejection is copied to the result if that is still pending. */
    method AllSettle(a: AllId, dst: Promise, i: nat, src: Promise, ghost owed: bool)
      requires ready.Valid() && Lawful()
      requires CanReport(Now(), a, dst, i, src, owed)
      modifies this, ready, ready.slots
      ensures Undisturbed() && Lawful()
      ensures Ok(Now()) && ReportDone(old(Now()), Now(), a, dst, i, src, owed)
      ensures src in old(status) && src in old(payload)
      ensures old(status[src]) == Rejected ==> old(history) + [InputAttempt(old(Now()), a, dst, i, src)] <= history
      decreases PendingSet(Now()), 4
    {
      hide Ok, CanReport, ReportDone, PendingSet, Law;
      CanReportDomain(Now(), a, dst, i, src, owed);
      if status[src] == Fulfilled {
        AllFulfilled(a, dst, i, src, owed);
      } else {
        AllRejected(a, dst, i, src, owed);
      }
    }

    method AllFulfilled(a: AllId, dst: Promise, i: nat, src: Promise, ghost owed: bool)
      requires ready.Valid() && Lawful()
      requires CanReport(Now(), a, dst, i, src, owed) && src in status && status[src] == Fulfilled
      modifies this, ready, ready.slots
      ensures Undisturbed() && Lawful()
      ensures Ok(Now()) && ReportDone(old(Now()), Now(), a, dst, i, src, owed)
      decreases PendingSet(Now()), 3
    {
      hide Ok, OkBut, Shape, CanSettle, Advance, YetToReach, PendingSet, NextCallback, Owed, CanReport, Reported;
      hide Reserved, Filling, Failing, RacesDone, ReportDone, Law, Justified, Queue.Valid, Queue.Contents;
      ghost var s := Now();
      CanReportDomain(s, a, dst, i, src, owed);
      RecordFilled(a, dst, i, src, owed);
      ghost var t := Now();
      assert Undisturbed() && Lawful();
      ReportedStatus(s, t, a, dst, i, src, owed);
      OfferIfFull(a, dst, Input(a, i, src));
      AfterReport(s, t, Now(), a, dst, i, src, owed);
    }

    method RecordFilled(a: AllId, dst: Promise, i: nat, src: Promise, ghost owed: bool)
      requires ready.Valid()
      requires CanReport(Now(), a, dst, i, src, owed) && src in status && status[src] == Fulfilled
      modifies this`values, this`remaining, this`slots, this`cursor
      ensures ready.Valid() && a in remaining && dst in status && Reported(old(Now()), Now(), a, dst, i, src, owed)
      ensures Justified(BookOf(Now()), Attempt(dst, Fulfilled, Values(a), Input(a, i, src)))
      ensures if remaining[a] == 0 && status[dst] == Pending
              then OkBut(Now(), {dst}) && Shape(Now()) && CanSettle(Now(), dst, Fulfilled, Values(a))
              else Ok(Now())
    {
      hide Ok, OkBut, Shape, CanSettle, CanReport, Reported, Filling, Justified;
      ghost var s := Now();
      CanReportDomain(s, a, dst, i, src, owed);
      InputJustified(s, a, dst, i, src, owed);
      FillingOk(s, a, dst, i, src, owed);
      ReportedStatus(s, Filling(s, a, i, src, owed), a, dst, i, src, owed);
      Store(a, i, src, owed);
    }

    method OfferIfFull(a: AllId, dst: Promise, ghost via: Source)
      requires ready.Valid() && Lawful() && a in remaining && dst in status
      requires remaining[a] == 0 ==> Justified(BookOf(Now()), Attempt(dst, Fulfilled, Values(a), via))
      requires if remaining[a] == 0 && status[dst] == Pending
               then OkBut(Now(), {dst}) && Shape(Now()) && CanSettle(Now(), dst, Fulfilled, Values(a))
               else Ok(Now())
      modifies this, ready, ready.slots
      ensures Undisturbed() && Lawful() && Ok(Now()) && Advance(old(Now()), Now(), {})
      ensures YetToReach(Now()) == old(YetToReach(Now()))
      decreases PendingSet(Now()), 2
    {
      hide Ok, OkBut, Shape, CanSettle, Advance, YetToReach, PendingSet, Law, Justified;
      if remaining[a] == 0 {
        Offer(dst, Fulfilled, Values(a), via);
      } else {
        OkShape(Now());
        AdvanceRefl(Now(), {});
      }
    }

    method AllRejected(a: AllId, dst: Promise, i: nat, src: Promise, ghost owed: bool)
      requires ready.Valid() && Lawful()
      requires CanReport(Now(), a, dst, i, src, owed) && src in status && status[src] == Rejected
      modifies this, ready, ready.slots
      ensures Undisturbed() && Lawful()
      ensures Ok(Now()) && ReportDone(old(Now()), Now(), a, dst, i, src, owed)
      ensures src in old(status) && src in old(payload)
      ensures old(history) + [InputAttempt(old(Now()), a, dst, i, src)] <= history
      decreases PendingSet(Now()), 2
    {
      hide Ok, OkBut, Shape, CanSettle, Advance, YetToReach, PendingSet, NextCallback, Owed, CanReport, Reported;
      hide Reserved, Filling, Failing, RacesDone, ReportDone, Law, Justified;
      ghost var s := Now();
      CanReportDomain(s, a, dst, i, src, owed);
      InputJustified(s, a, dst, i, src, owed);
      FailingOk(s, a, dst, i, src, owed);
      Note(a, i, src, owed);
      ghost var t := Now();
      ReportedStatus(s, t, a, dst, i, src, owed);
      Offer(dst, Rejected, payload[src], Input(a, i, src));
      AfterReport(s, t, Now(), a, dst, i, src, owed);
    }

    /** Stores a fulfilment and counts it. */
    method Store(a: AllId, i: nat, src: Promise, ghost owed: bool)
      requires ready.Valid() && src in payload && src in cursor
      requires a in slots && a in values && a in remaining && i < |slots[a]| && i < |values[a]|
      modifies this`values, this`remaining, this`slots, this`cursor
      ensures ready.Valid()
      ensures Now() == Filling(old(Now()), a, i, src, owed)
      ensures a in remaining && remaining[a] == old(remaining[a]) - 1
    {
      Fill(a, i, src);
      if owed { Take(src); }
    }

    method Fill(a: AllId, i: nat, src: Promise)
      requires ready.Valid() && src in payload
      requires a in slots && a in values && a in remaining && i < |slots[a]| && i < |values[a]|
      modifies this`values, this`remaining, this`slots
      ensures ready.Valid()
      ensures Now() == InlineFilled(old(Now()), src, a, i)
    {
      values, remaining := values[a := values[a][i := payload[src]]], remaining[a := remaining[a] - 1];
      slots := slots[a := slots[a][i := Filled]];
    }

    /** One more callback of `p` has run. */
    ghost method Take(p: Promise)
      requires ready.Valid() && p in cursor
      modifies this`cursor
      ensures ready.Valid()
      ensures Now() == Taken(old(Now()), p)
    {
      cursor := cursor[p := cursor[p] + 1];
    }

    ghost method Note(a: AllId, i: nat, src: Promise, owed: bool)
      requires ready.Valid() && a in slots && i < |slots[a]| && src in cursor
      modifies this`slots, this`cursor
      ensures ready.Valid()
      ensures Now() == Failing(old(Now()), a, i, src, owed)
    {
      slots := slots[a := slots[a][i := Failed]];
      if owed { Take(src); }
    }

    /** Settles a promise that is still pending. */
    method Offer(p: Promise, st: Status, v: Value, ghost via: Source)
      requires ready.Valid() && Lawful() && p in status && Justified(BookOf(Now()), Attempt(p, st, v, via))
      requires if status[p] == Pending then OkBut(Now(), {p}) && Shape(Now()) && CanSettle(Now(), p, st, v)
               else Ok(Now())
      modifies this, ready, ready.slots
      ensures Undisturbed() && Lawful() && old(history) + [Attempt(p, st, v, via)] <= history
      ensures Ok(Now()) && Advance(old(Now()), Now(), {}) && YetToReach(Now()) == old(YetToReach(Now()))
      ensures p in status && p in payload && (old(status[p]) == Pending ==> status[p] == st && payload[p] == v)
      decreases PendingSet(Now()), 1
    {
      hide Ok, OkBut, Shape, CanSettle, Advance, YetToReach, PendingSet, RacesDone, Law, Justified;
      if status[p] == Pending {
        Settle(p, st, v, via);
      } else {
        OkShape(Now());
        ShapeDomain(Now(), p);
        AdvanceRefl(Now(), {});
        Repeat(Attempt(p, st, v, via));
      }
    }

    /** An attempt on a promise already settled. */
    ghost method Repeat(a: Attempt)
      requires Lawful() && Justified(Book(status, payload, entries, result), a)
      requires a.dst in status && status[a.dst] != Pending
      modifies this`history
      ensures Lawful() && history == old(history) + [a]
    {
      hide Law, Truthful, Proper;
      LawRepeated(Book(status, payload, entries, result), history, a);
      history := history + [a];
    }

    /** Copies a settlement to a destination that is still pending, as `adapt` converts it. */
    method SettleFrom(dst: Promise, src: Promise, v: Value, ghost adapt: Value -> Value)
      requires ready.Valid() && Lawful() && src in payload
      requires Ok(Now()) && dst in status && src in status && status[src] != Pending && !Reserved(Now(), dst)
      requires v == EntryAttempt(Now(), dst, src, adapt).v
      modifies this, ready, ready.slots
      ensures Undisturbed() && Lawful() && old(history) + [EntryAttempt(old(Now()), dst, src, adapt)] <= history
      ensures Ok(Now()) && Advance(old(Now()), Now(), {}) && YetToReach(Now()) == old(YetToReach(Now()))
      ensures dst in status && dst in payload
      ensures old(status[dst]) == Pending ==> status[dst] == old(status[src]) && payload[dst] == v
      decreases PendingSet(Now()), 2
    {
      hide Ok, OkBut, Shape, CanSettle, Advance, YetToReach, PendingSet, Waking, NextCallback, Owed, CanReport;
      hide Reported, Reserved, Law, Justified;
      OkShape(Now());
      EntryJustified(Now(), dst, src, adapt);
      if status[dst] == Pending { OrdinaryCanSettle(Now(), dst, status[src], v); }
      Offer(dst, status[src], v, Entry(src, adapt));
    }

    method NewPromise(p: Promise)
      requires Valid() && p !in status
      modifies this, ready, ready.slots
      ensures Undisturbed() && Valid()
      ensures Now() == Added(old(Now()), p) && history == old(history)
    {
      hide Ok, Shape, Grown, Law, Awaits, Between, InAwaitOrder;
      ghost var s := Now();
      OkShape(s);
      AddedOk(s, p);
      AddedGrown(s, p);
      LawOpened(BookOf(s), BookOf(Added(s, p)), history, p) by { OpenedOne(s, p); }
      Enrol(p);
      AwaitsGrown(s, Now(), p, owner, awaiting);
      OrderGrown(s, Now(), p, awaits);
      BetweenAdded(s, p);
    }

    method Enrol(p: Promise)
      requires ready.Valid()
      modifies this`status, this`payload, this`waiters, this`cbs, this`cursor
      ensures ready.Valid()
      ensures Now() == Added(old(Now()), p)
    {
      ghost var s := Now();
      status, payload := status[p := Pending], payload[p := Plain(0)];
      ghost var t := Now();
      assert t == s.(status := s.status[p := Pending], payload := s.payload[p := Plain(0)]);
      waiters, cbs, cursor := waiters[p := []], cbs[p := []], cursor[p := 0];
      assert Now() == t.(waiters := t.waiters[p := []], cbs := t.cbs[p := []], cursor := t.cursor[p := 0]);
    }

    /** First settlement wins: a promise already settled is left as it is. */
    method Fulfill(p: Promise, v: Value)
      requires Valid() && p in status && !Reserved(Now(), p)
      modifies this, ready, ready.slots
      ensures Undisturbed() && Valid()
      ensures Advance(old(Now()), Now(), {}) && old(history) + [Attempt(p, Fulfilled, v, Direct)] <= history
      ensures p in old(cbs)
      ensures if old(status[p]) == Pending
              then Woke(old(Now()), Now(), p, Fulfilled, v)
                   && old(ready.Contents()) + Awaiters(awaits, p) <= ready.Contents()
                   && InTurn(old(cbs[p]), p, Fulfilled, v, history, |old(history)| + 1)
              else Now() == old(Now())
    {
      SettleDirect(p, Fulfilled, v);
    }

    method Reject(p: Promise, reason: Value)
      requires Valid() && p in status && !Reserved(Now(), p)
      modifies this, ready, ready.slots
      ensures Undisturbed() && Valid()
      ensures Advance(old(Now()), Now(), {}) && old(history) + [Attempt(p, Rejected, reason, Direct)] <= history
      ensures p in old(cbs)
      ensures if old(status[p]) == Pending
              then Woke(old(Now()), Now(), p, Rejected, reason)
                   && old(ready.Contents()) + Awaiters(awaits, p) <= ready.Contents()
                   && InTurn(old(cbs[p]), p, Rejected, reason, history, |old(history)| + 1)
              else Now() == old(Now())
    {
      SettleDirect(p, Rejected, reason);
    }

    method SettleDirect(p: Promise, st: Status, v: Value)
      requires Valid() && p in status && !Reserved(Now(), p) && st != Pending
      modifies this, ready, ready.slots
      ensures Undisturbed() && Valid()
      ensures Advance(old(Now()), Now(), {}) && old(history) + [Attempt(p, st, v, Direct)] <= history
      ensures p in old(cbs)
      ensures if old(status[p]) == Pending
              then Woke(old(Now()), Now(), p, st, v)
                   && old(ready.Contents()) + Awaiters(awaits, p) <= ready.Contents()
                   && InTurn(old(cbs[p]), p, st, v, history, |old(history)| + 1)
              else Now() == old(Now())
    {
      hide Ok, OkBut, Shape, CanSettle, Advance, YetToReach, PendingSet, Reserved, Awaits, Between, Law, Justified;
      hide InAwaitOrder;
      hide RacesDone, InTurn;
      ghost var s := Now();
      OkShape(Now());
      ShapeDomain(Now(), p);
      DirectJustified(Now(), p, st, v);
      if status[p] != Pending {
        AdvanceRefl(Now(), {});
        Repeat(Attempt(p, st, v, Direct));
        return;
      }
      OrdinaryCanSettle(Now(), p, st, v);
      WaitersAre(s, awaits, p);
      Settle(p, st, v, Direct);
      AwaitsAdvance(s, Now(), owner, awaiting);
      OrderAdvance(s, Now(), awaits);
      BetweenAdvance(s, Now());
    }

    /** One entry of a race: a settled entry settles the result at once unless an earlier one did, a pending one parks
        a callback. */
    method RaceAdd(race: Promise, e: Promise, adapt: Value -> Value)
      requires Valid() && race in status && e in status && !Reserved(Now(), race)
      modifies this, ready, ready.slots
      ensures Undisturbed() && Valid()
      ensures e in old(cbs) && race in payload && race in status && e in old(payload)
      ensures old(status[e]) == Pending ==> (Now() == Subscribed(old(Now()), e, RaceCb(race, adapt))
        && e in cbs && cbs[e] == old(cbs[e]) + [RaceCb(race, adapt)])
      ensures old(status[e]) != Pending ==> Advance(old(Now()), Now(), {})
      ensures old(status[e]) != Pending ==>
        old(history) + [EntryAttempt(old(Now()), race, e, adapt)] <= history
      ensures old(status[e]) != Pending && old(status[race]) == Pending ==> (status[race] == old(status[e])
        && payload[race] == if old(status[e]) == Fulfilled then adapt(old(payload[e])) else old(payload[e]))
    {
      hide Ok, OkBut, Shape, CanSettle, Advance, YetToReach, PendingSet, Reserved, Awaits, Between;
      hide Law, InAwaitOrder;
      ghost var s := Now();
      OkShape(Now());
      ShapeDomain(Now(), e);
      ShapeDomain(Now(), race);
      if status[e] != Pending {
        SettleFrom(race, e, if status[e] == Fulfilled then adapt(payload[e]) else payload[e], adapt);
        AwaitsAdvance(s, Now(), owner, awaiting);
        OrderAdvance(s, Now(), awaits);
        BetweenAdvance(s, Now());
      } else {
        RaceSubscribedOk(Now(), e, RaceCb(race, adapt));
        cbs := cbs[e := cbs[e] + [RaceCb(race, adapt)]];
        AwaitsSame(s, Now(), owner, awaiting);
        OrderSame(s, Now(), awaits);
        BetweenSame(s, Now());
      }
    }

    /** `Promise.all`: settled inputs report at once, pending ones park a callback; with no inputs the result is
        fulfilled at the end. */
    method All(r: Promise, a: AllId, ps: seq<Promise>)
      requires Valid() && r !in status && a !in remaining && a !in slots && forall p :: p in ps ==> p in status
      modifies this, ready, ready.slots
      ensures Undisturbed() && Valid()
      ensures AllBuilding(old(Now()), Now(), r, a, ps, |ps|)
    {
      hide Ok, OkBut, Shape, CanSettle, Advance, YetToReach, PendingSet, Reserved, From, Kept, AllBuilding, AllAdded;
      hide Awaits, Grown, Between, Law, Justified, InAwaitOrder;
      ghost var s := Now();
      OkShape(s);
      AllAddedOk(s, r, a, ps);
      AllAddedGrown(s, r, a, ps);
      LawOpened(BookOf(s), BookOf(AllAdded(s, r, a, ps)), history, r) by { OpenedAll(s, r, a, ps); }
      Register(r, a, ps);
      AwaitsGrown(s, Now(), r, owner, awaiting);
      OrderGrown(s, Now(), r, awaits);
      BuildBegin(s, r, a, ps);
      var i := 0;
      while i < |ps|
        invariant i <= |ps| && Undisturbed() && OkBut(Now(), {r}) && (ps != [] ==> Ok(Now()))
        invariant AllBuilding(s, Now(), r, a, ps, i)
        invariant Awaits(Now(), owner, awaiting) && InAwaitOrder(Now(), awaits) && Lawful()
      {
        Reach(s, r, a, ps, i);
        OkWeaker(Now(), {r});
        i := i + 1;
      }
      Conclude(s, r, a, ps);
      BetweenBuilt(s, Now(), r, a, ps);
    }

    /** All inputs were looked at: an `all` that misses nothing, because it has none, is fulfilled. */
    method Conclude(ghost s: State, r: Promise, a: AllId, ghost ps: seq<Promise>)
      requires ready.Valid() && Lawful() && OkBut(Now(), {r}) && (ps != [] ==> Ok(Now()))
      requires AllBuilding(s, Now(), r, a, ps, |ps|) && Awaits(Now(), owner, awaiting) && InAwaitOrder(Now(), awaits)
      modifies this, ready, ready.slots
      ensures Undisturbed() && Lawful() && Ok(Now()) && Awaits(Now(), owner, awaiting) && InAwaitOrder(Now(), awaits)
      ensures AllBuilding(s, Now(), r, a, ps, |ps|)
    {
      hide Ok, OkBut, Shape, CanSettle, Advance, YetToReach, PendingSet, From, Kept, AllBuilding, Awaits, Law;
      hide Justified, RacesDone, InAwaitOrder;
      BuildResult(s, Now(), r, a, ps);
      if remaining[a] == 0 && status[r] == Pending {
        ghost var t := Now();
        AllDone(t, a, r);
        NoInputsLeft(t, a, r, ps);
        NoInputsJustified(t, r, a);
        Settle(r, Fulfilled, Values(a), NoInputs(a));
        BuildEnd(s, t, Now(), r, a, ps);
        AwaitsWeaklyAdvance(t, Now(), {r}, owner, awaiting);
        OrderAdvance(t, Now(), awaits);
      } else {
        BuiltOk(Now(), r, a, ps);
      }
    }

    /** Input `i` reports if it is settled, and parks the countdown callback otherwise. */
    method Reach(ghost s: State, r: Promise, a: AllId, ps: seq<Promise>, i: nat)
      requires ready.Valid() && Lawful()
      requires i < |ps| && a !in s.slots && (forall p :: p in ps ==> p in s.status)
      requires Ok(Now()) && AllBuilding(s, Now(), r, a, ps, i)
      requires Awaits(Now(), owner, awaiting) && InAwaitOrder(Now(), awaits)
      modifies this, ready, ready.slots
      ensures Undisturbed() && Lawful()
      ensures Ok(Now()) && AllBuilding(s, Now(), r, a, ps, i + 1)
      ensures Awaits(Now(), owner, awaiting) && InAwaitOrder(Now(), awaits)
    {
      hide Ok, AllBuilding, Awaits, Law, NextInput, CanReport, InAwaitOrder;
      BuildInput(s, Now(), r, a, ps, i);
      BuildDomain(s, Now(), r, a, ps, i);
      if status[ps[i]] != Pending {
        ReachSettled(s, r, a, ps, i);
      } else {
        ReachPending(s, r, a, ps, i);
      }
    }

    method ReachSettled(ghost s: State, r: Promise, a: AllId, ps: seq<Promise>, i: nat)
      requires ready.Valid() && Lawful()
      requires i < |ps| && a !in s.slots && (forall p :: p in ps ==> p in s.status)
      requires Ok(Now()) && AllBuilding(s, Now(), r, a, ps, i)
      requires Awaits(Now(), owner, awaiting) && InAwaitOrder(Now(), awaits)
      requires ps[i] in status && status[ps[i]] != Pending
      modifies this, ready, ready.slots
      ensures Undisturbed() && Lawful()
      ensures Ok(Now()) && AllBuilding(s, Now(), r, a, ps, i + 1)
      ensures Awaits(Now(), owner, awaiting) && InAwaitOrder(Now(), awaits)
    {
      hide Ok, OkBut, Shape, CanSettle, Advance, YetToReach, PendingSet, Reserved, From, Kept, NextInput, CanReport;
      hide AllBuilding, Subscribing, Awaits, Law, InAwaitOrder;
      ghost var t := Now();
      BuildInput(s, t, r, a, ps, i);
      BuildDomain(s, t, r, a, ps, i);
      AllSettle(a, r, i, ps[i], false);
      BuildStep(s, t, Now(), r, a, ps, i);
      AwaitsAdvance(t, Now(), owner, awaiting);
      OrderAdvance(t, Now(), awaits);
    }

    method ReachPending(ghost s: State, r: Promise, a: AllId, ps: seq<Promise>, i: nat)
      requires ready.Valid() && Lawful()
      requires i < |ps| && a !in s.slots && (forall p :: p in ps ==> p in s.status)
      requires Ok(Now()) && AllBuilding(s, Now(), r, a, ps, i)
      requires Awaits(Now(), owner, awaiting) && InAwaitOrder(Now(), awaits)
      requires ps[i] in status && status[ps[i]] == Pending
      modifies this`cbs, this`slots
      ensures Undisturbed() && Lawful()
      ensures Ok(Now()) && AllBuilding(s, Now(), r, a, ps, i + 1)
      ensures Awaits(Now(), owner, awaiting) && InAwaitOrder(Now(), awaits)
    {
      hide Ok, OkBut, Shape, CanSettle, Advance, YetToReach, PendingSet, Reserved, From, Kept, NextInput, CanReport;
      hide AllBuilding, Subscribing, Awaits, Law, InAwaitOrder;
      ghost var t := Now();
      BuildInput(s, t, r, a, ps, i);
      BuildDomain(s, t, r, a, ps, i);
      AwaitedOk(t, ps[i], a, i);
      OkShape(Subscribing(t, ps[i], a, i));
      BuildAwait(s, t, r, a, ps, i);
      Subscribe(r, a, i, ps[i]);
      AwaitedSame(t, ps[i], a, i);
      AwaitsSame(t, Now(), owner, awaiting);
      OrderSame(t, Now(), awaits);
    }

    /** The records of a new `all`. */
    method Register(r: Promise, a: AllId, ps: seq<Promise>)
      requires ready.Valid()
      modifies this`status, this`payload, this`waiters, this`cbs, this`cursor
      modifies this`remaining, this`values, this`slots, this`entries, this`result
      ensures ready.Valid()
      ensures Now() == AllAdded(old(Now()), r, a, ps)
    {
      hide Added;
      Enrol(r);
      ghost var s := Now();
      remaining, values := remaining[a := |ps|], values[a := seq(|ps|, _ => Plain(0))];
      ghost var t := Now();
      assert t == s.(remaining := s.remaining[a := |ps|], values := s.values[a := seq(|ps|, _ => Plain(0))]);
      slots, entries, result := slots[a := seq(|ps|, _ => Unreached)], entries[a := ps], result[a := r];
      assert Now() == t.(slots := t.slots[a := seq(|ps|, _ => Unreached)], entries := t.entries[a := ps],
                         result := t.result[a := r]);
    }

    /** Parks the countdown callback of input `i` on a pending promise. */
    method Subscribe(r: Promise, a: AllId, i: nat, e: Promise)
      requires ready.Valid()
      requires e in cbs && a in slots && i < |slots[a]| && a in result && result[a] == r
      modifies this`cbs, this`slots
      ensures ready.Valid()
      ensures Now() == Subscribing(old(Now()), e, a, i)
    {
      cbs := cbs[e := cbs[e] + [AllCb(r, a, i)]];
      slots := slots[a := slots[a][i := Waiting]];
    }

    // Fibers ------------------------------------------------------------------------------------------------

    /** An `await` begins: on a settled promise one hop through the ready queue, on a pending one the fiber parks at the
        end of its waiters. */
    method Await(p: Promise)
      requires Valid() && running != [] && p in status && running[|running| - 1] !in awaiting
      modifies this, ready, ready.slots
      ensures Valid() && (ready.slots == old(ready.slots) || fresh(ready.slots)) && p in old(waiters)
      ensures Now() == if old(status[p]) == Pending then ParkedOn(old(Now()), p) else Yielded(old(Now()))
      ensures old(status[p]) == Pending ==>
        p in waiters && waiters[p] == old(waiters[p]) + [old(running)[|old(running)| - 1]]
      ensures old(status[p]) != Pending ==>
        ready.Contents() == old(ready.Contents()) + [old(running)[|old(running)| - 1]]
      ensures awaits == old(awaits) + [AwaitOf(old(running)[|old(running)| - 1], p)] && resumed == old(resumed)
      ensures owner == old(owner) && history == old(history)
      ensures awaiting == old(awaiting)[old(running)[|old(running)| - 1] := p]
    {
      hide AtRest, Shape, Law, InAwaitOrder;
      RestShape(Now(), owner, awaiting);
      ShapeDomain(Now(), p);
      if status[p] != Pending {
        AwaitHop(p);
      } else {
        AwaitPending(p);
      }
    }

    method AwaitHop(p: Promise)
      requires Valid() && running != [] && p in status && status[p] != Pending && running[|running| - 1] !in awaiting
      modifies this`awaiting, this`awaits, this`running, ready, ready.slots
      ensures Valid() && (ready.slots == old(ready.slots) || fresh(ready.slots))
      ensures Now() == Yielded(old(Now()))
      ensures ready.Contents() == old(ready.Contents()) + [old(running)[|old(running)| - 1]]
      ensures awaiting == old(awaiting)[old(running)[|old(running)| - 1] := p]
      ensures awaits == old(awaits) + [AwaitOf(old(running)[|old(running)| - 1], p)]
    {
      hide Ok, Shape, Awaits, Between, Law, InAwaitOrder, Queue.Valid, Queue.Contents;
      ghost var s := Now();
      RestShape(s, owner, awaiting);
      ShapeDomain(s, p);
      AwaitsHop(s, p, owner, awaiting);
      NoteAwait(p);
      Yield();
      assert Now() == Yielded(s);
      OrderAwaited(s, Now(), old(awaits), s.running[|s.running| - 1], p);
      BetweenSame(s, Now());
    }

    /** The running fiber waits for `p` from now on. */
    method NoteAwait(p: Promise)
      requires running != []
      modifies this`awaiting, this`awaits
      ensures awaiting == old(awaiting)[running[|running| - 1] := p]
      ensures awaits == old(awaits) + [AwaitOf(running[|running| - 1], p)]
    {
      awaiting := awaiting[running[|running| - 1] := p];
      awaits := awaits + [AwaitOf(running[|running| - 1], p)];
    }

    method AwaitPending(p: Promise)
      requires Valid() && running != [] && p in status && status[p] == Pending && running[|running| - 1] !in awaiting
      requires p in waiters
      modifies this`awaiting, this`awaits, this`running, this`waiters
      ensures Valid() && Now() == ParkedOn(old(Now()), p)
      ensures p in waiters && waiters[p] == old(waiters[p]) + [old(running)[|old(running)| - 1]]
      ensures awaiting == old(awaiting)[old(running)[|old(running)| - 1] := p]
      ensures awaits == old(awaits) + [AwaitOf(old(running)[|old(running)| - 1], p)]
    {
      hide Ok, Shape, Awaits, Between, Law, InAwaitOrder;
      ghost var s := Now();
      AwaitsParked(s, p, owner, awaiting);
      NoteAwait(p);
      Park(p);
      OrderAwaited(s, Now(), old(awaits), s.running[|s.running| - 1], p);
      BetweenSame(s, Now());
    }

    /** The resumed fiber looks at its promise again. It is settled, so the fiber does not park a second time, and its
        value or reason is the outcome of the `await`. */
    method Awaited() returns (p: Promise, outcome: Status, v: Value)
      requires Valid() && running != [] && running[|running| - 1] in awaiting
      modifies this`awaiting
      ensures Valid() && Delivered(p, outcome, v)
    {
      hide Ok, Awaits, Between, Law, InAwaitOrder;
      AwaitOver(Now(), owner, awaiting);
      p := awaiting[running[|running| - 1]];
      outcome, v := status[p], payload[p];
      awaiting := awaiting - {running[|running| - 1]};
    }

    /** The running fiber awaits `p` no longer, whose outcome and value are these. */
    twostate predicate Delivered(p: Promise, outcome: Status, v: Value)
      reads this
    {
      && running != [] && running[|running| - 1] in old(awaiting) && p == old(awaiting)[running[|running| - 1]]
      && awaiting == old(awaiting) - {running[|running| - 1]}
      && p in status && p in payload && outcome == status[p] != Pending && v == payload[p]
    }

    method Park(p: Promise)
      requires ready.Valid() && Ok(Now()) && running != [] && p in status && p in waiters && status[p] == Pending
      modifies this`waiters, this`running
      ensures Ok(Now()) && Now() == ParkedOn(old(Now()), p)
      ensures waiters == old(waiters)[p := old(waiters[p]) + [old(running)[|old(running)| - 1]]]
    {
      hide Ok, Shape;
      ParkedOnOk(Now(), p);
      waiters := waiters[p := waiters[p] + [running[|running| - 1]]];
      running := running[..|running| - 1];
    }

    method Yield()
      requires ready.Valid() && Ok(Now()) && running != []
      modifies this`running, ready, ready.slots
      ensures Undisturbed()
      ensures Ok(Now()) && Now() == Yielded(old(Now()))
      ensures ready.Contents() == old(ready.Contents()) + [old(running)[|old(running)| - 1]]
    {
      hide Ok, Shape;
      YieldedOk(Now());
      ready.Push(running[|running| - 1]);
      running := running[..|running| - 1];
    }

    /** The loop resumes the oldest ready fiber; what it was awaiting, if anything, has settled. */
    method Resume() returns (f: Fiber)
      requires Valid() && ready.len > 0 && running == []
      modifies this`running, this`resumed, ready
      ensures Valid() && owner == old(owner) && awaiting == old(awaiting) && awaits == old(awaits)
      ensures resumed == old(resumed) + [f] && resumed + ready.Contents() == old(resumed + ready.Contents())
      ensures Now() == Resumed(old(Now())) && history == old(history) && f == old(ready.Contents()[0]) && running == [f]
    {
      hide Ok, Shape, Awaits, Between, Law, InAwaitOrder, Queue.Valid, Queue.Contents;
      ghost var s := Now();
      ResumedOk(s);
      f := ready.Pop();
      assert s.ready == [f] + ready.Contents();
      running, resumed := running + [f], resumed + [f];
      assert Now() == Resumed(s);
      AwaitsSame(s, Now(), owner, awaiting);
      OrderSame(s, Now(), awaits);
      BetweenSame(s, Now());
    }

    /** Starts an async body at once, on top of its spawner, with a promise of its own. */
    method Spawn(f: Fiber, p: Promise)
      requires Valid() && f !in fibers && p !in status
      modifies this, ready, ready.slots
      ensures Valid() && (ready.slots == old(ready.slots) || fresh(ready.slots))
      ensures awaiting == old(awaiting) && history == old(history) && awaits == old(awaits) && resumed == old(resumed)
      ensures Now() == Spawned(Added(old(Now()), p), f, p) && owner == old(owner)[f := p]
      ensures running == old(running) + [f] && ready.Contents() == old(ready.Contents())
      ensures p in status && status[p] == Pending && p in waiters && waiters[p] == []
    {
      hide Ok, Shape, Awaits, Between, Law, Reserved, Untargeted, InAwaitOrder;
      ghost var s := Now();
      AddedOrdinary(s, p);
      NewPromise(p);
      JoinChain(f, p);
    }

    method JoinChain(f: Fiber, p: Promise)
      requires Valid() && f !in fibers && p in status && status[p] == Pending
      requires !Reserved(Now(), p) && Shape(Now()) && Untargeted(Now(), p)
      modifies this`running, this`fibers, this`owner
      ensures Valid() && Now() == Spawned(old(Now()), f, p) && owner == old(owner)[f := p]
    {
      hide Ok, Shape, Awaits, Between, Law, Untargeted, InAwaitOrder;
      ghost var s := Now();
      SpawnedOk(s, f, p);
      AwaitsSpawned(s, f, p, owner, awaiting);
      assert owner[f := p].Values == s.owned + {p} by { OwnsValues(s, f, p, owner, awaiting); }
      running, fibers, owner := running + [f], fibers + {f}, owner[f := p];
      BetweenSame(s, Now());
      OrderSame(s, Now(), awaits);
    }

    /** The running body returned or threw: its promise, which nobody else can have settled, settles with the outcome,
        and it leaves the chain. */
    method Finish(outcome: Status, v: Value)
      requires Valid() && running != [] && outcome != Pending && running[|running| - 1] !in awaiting
      modifies this, ready, ready.slots
      ensures Valid() && (ready.slots == old(ready.slots) || fresh(ready.slots)) && awaiting == old(awaiting)
      ensures var f := old(running)[|old(running)| - 1]; f in old(owner) && Ended(f, old(owner)[f], outcome, v)
    {
      hide Ok, Owns, Waits, Between, Law, Advance, Woke, InAwaitOrder, InTurn;
      ghost var s, f, owners := Now(), running[|running| - 1], owner;
      OwnerOfRunner(s, owner, awaiting);
      var p := owner[running[|running| - 1]];
      SettleOwn(p, outcome, v);
      ghost var u := Now();
      LeaveChain();
      OwnsFinished(s, Now(), f, owners);
      BetweenSame(u, Now());
      OrderSame(u, Now(), awaits);
      WokeSame(s, u, Now(), p, outcome, v);
      assert Unfinished() == u;
    }

    /** The running fiber's promise settles. */
    method SettleOwn(p: Promise, outcome: Status, v: Value)
      requires Valid() && outcome != Pending && running != [] && running[|running| - 1] in owner
      requires p == owner[running[|running| - 1]] && p in Now().owned
      modifies this, ready, ready.slots
      ensures ready.Valid() && (ready.slots == old(ready.slots) || fresh(ready.slots)) && awaiting == old(awaiting)
      ensures running == old(running) && fibers == old(fibers) && owner == old(owner) - {running[|running| - 1]}
      ensures Ok(Now()) && Waits(Now(), awaiting) && Between(Now()) && Lawful() && Now().owned == old(Now().owned) - {p}
      ensures InAwaitOrder(Now(), awaits) && awaits == old(awaits) && resumed == old(resumed)
      ensures p in old(cbs) && InTurn(old(cbs[p]), p, outcome, v, history, |old(history)| + 1)
      ensures p in old(status) && old(status[p]) == Pending && Woke(old(Now()), Now(), p, outcome, v)
      ensures old(ready.Contents()) + Awaiters(awaits, p) <= ready.Contents()
      ensures Advance(Disowned(old(Now()), p), Now(), {}) && old(history) + [Attempt(p, outcome, v, Direct)] <= history
    {
      hide Ok, OkBut, Shape, CanSettle, Advance, YetToReach, PendingSet, Reserved, Owns, Waits, Between, Law, Justified;
      hide InAwaitOrder;
      hide RacesDone, Woke, InTurn;
      ghost var s := Now();
      Disown(running[|running| - 1], p);
      ghost var t := Now();
      DirectJustified(t, p, outcome, v);
      OrdinaryCanSettle(t, p, outcome, v);
      assert p in t.status && t.status[p] == Pending && t.waiters == s.waiters && t.status == s.status;
      WaitersAre(s, awaits, p);
      Settle(p, outcome, v, Direct);
      WaitsSettled(s, t, Now(), p, awaiting);
      BetweenSame(s, t);
      BetweenAdvance(t, Now());
      OrderSame(s, t, awaits);
      OrderAdvance(t, Now(), awaits);
      WokeFrom(s, t, Now(), p, outcome, v);
    }

    /** The promise of a fiber about to end may settle now. */
    method Disown(f: Fiber, p: Promise)
      requires ready.Valid() && Ok(Now()) && Awaits(Now(), owner, awaiting)
      requires f in owner && owner[f] == p && p in Now().owned
      modifies this`owner
      ensures ready.Valid() && owner == old(owner) - {f} && Ok(Now()) && FreeToSettle(Now(), p)
      ensures Now() == Disowned(old(Now()), p)
    {
      hide Ok, Shape, Waits, FreeToSettle;
      ghost var s := Now();
      OwnsDisowned(s, f, owner);
      DisownedOk(s, p);
      owner := owner - {f};
    }

    method LeaveChain()
      requires ready.Valid() && Ok(Now()) && Waits(Now(), awaiting)
      requires running != [] && running[|running| - 1] !in awaiting
      modifies this`running, this`fibers
      ensures ready.Valid() && Ok(Now()) && Waits(Now(), awaiting) && Now() == Finished(old(Now()))
    {
      hide Ok, Waits;
      FinishedOk(Now());
      WaitsFinished(Now(), awaiting);
      fibers := fibers - {running[|running| - 1]};
      running := running[..|running| - 1];
    }

    /** `f` is gone, its promise `p`, which was pending, is settled, and nothing happened but what that set off. */
    twostate predicate Ended(f: Fiber, p: Promise, outcome: Status, v: Value)
      reads this, ready, ready.slots
    {
      && old(ready.Valid()) && ready.Valid() && p in old(status) && old(status[p]) == Pending
      && old(running) != [] && running == old(running)[..|old(running)| - 1]
      && fibers == old(fibers) - {f} && owner == old(owner) - {f}
      && Advance(Disowned(old(Now()), p), Unfinished(), {}) && Woke(old(Now()), Now(), p, outcome, v)
      && old(history) + [Attempt(p, outcome, v, Direct)] <= history && awaits == old(awaits) && resumed == old(resumed)
      && p in old(cbs) && InTurn(old(cbs[p]), p, outcome, v, history, |old(history)| + 1)
      && old(ready.Contents()) + Awaiters(awaits, p) <= ready.Contents()
    }

    /** The state as if the fiber that just ended had not. */
    twostate function Unfinished(): State
      reads this, ready, ready.slots
      requires ready.Valid()
    {
      Now().(running := old(running), fibers := old(fibers))
    }
  }
}
