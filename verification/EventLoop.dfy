/** The event loop, one step at a time, with callbacks that do anything to its queues. */
module EventLoop {
  import opened ArrayIndex
  import opened TimerOrder
  import opened TimerHeap
  import opened Immediates
  import opened LoopLog

  /** What a callback may do; `at` is the clock when it does it. */
  datatype Action =
    | Wake(fiber: nat)
    | NextTick(cb: int)
    | SetTimeout(cb: int, ms: Num, at: real)
    | SetTimeoutHandle(cb: int, ms: Num, at: real)
    | SetInterval(cb: int, ms: Num, at: real)
    | ClearTimer(handle: nat)
    | RefTimer(handle: nat, on: bool)
    | RefreshTimer(handle: nat, at: real)
    | SetImmediate(cb: int)
    | ClearImmediate(handle: nat)
    | RefImmediate(handle: nat, on: bool)

  /** The clock never reads before `now`. */
  ghost predicate Clocked(a: Action, now: real) {
    match a
    case SetTimeout(_, _, at) => at >= now
    case SetTimeoutHandle(_, _, at) => at >= now
    case SetInterval(_, _, at) => at >= now
    case RefreshTimer(_, at) => at >= now
    case _ => true
  }

  datatype Phase = Ticks | Jobs | DueTimers | Check | CheckJobs | Exited

  ghost function StageOf(p: Phase): Stage {
    match p
    case DueTimers => Timing
    case Check => Checking
    case CheckJobs => Checking
    case _ => Checkpoint
  }

  /** The log is an orderly one, and the loop stands where it says: its clock, its last handle and its queue. */
  ghost predicate LogOk(log: seq<Event>, armed: multiset<Timer>, gone: set<nat>, stage: Stage, now: real, last: nat,
                        end: nat, q: seq<Immediate>, head: nat) {
    && Orderly(log) && After(log).stage == stage && After(log).now == now && After(log).last == last
    && After(log).armed == armed && After(log).gone == gone
    && Stands(stage == Checking, end, q, head, After(log).due, After(log).later)
  }

  lemma LogRan(log: seq<Event>, armed: multiset<Timer>, gone: set<nat>, stage: Stage, now: real, last: nat, end: nat,
               q: seq<Immediate>, head: nat, e: Event)
    requires LogOk(log, armed, gone, stage, now, last, end, q, head)
    requires match e
      case TickRan(_) => stage == Checkpoint
      case JobRan(_) => stage != Timing
      case TickSet(_) => true
      case FiberWoken(_) => true
      case _ => false
    ensures LogOk(log + [e], armed, gone, stage, now, last, end, q, head)
  {
    hide Stands, Orderly, After;
    Extended(log, e);
  }

  /** The sleep ends as the law says: the heap's root is the first timer due. */
  lemma LogSlept(log: seq<Event>, gone: set<nat>, now: real, last: nat, end: nat, q: seq<Immediate>, head: nat,
                 pending: nat, reffed: nat, h: seq<Timer>, clock: real)
    requires LogOk(log, Bag(h), gone, Checkpoint, now, last, end, q, head) && clock >= now && Heap(h)
    requires QueueOk(q, head, last, pending, reffed)
    ensures LogOk(log + [Slept(clock, Woken(h, pending, clock))], Bag(h), gone, Timing, Woken(h, pending, clock), last,
                  end, q, head)
  {
    SomeLive(q, head, last, pending, reffed);
    assert After(log).later == LiveIds(q[head..]);
    WokenAsLogged(After(log), h, pending, clock);
    hide Stands, Orderly, After, LiveIds, QueueOk, WakesAt, Woken, Bag, Heap;
    Extended(log, Slept(clock, Woken(h, pending, clock)));
  }

  lemma WokenAsLogged(t: Turn, h: seq<Timer>, pending: nat, clock: real)
    requires t.armed == Bag(h) && Heap(h) && (pending > 0 <==> t.later != [])
    ensures WakesAt(t, clock, Woken(h, pending, clock))
  {
    forall i | 0 <= i < |h| ensures h[i].deadline >= h[0].deadline { RootLeast(h, i); }
    if h != [] { assert h[0] in Bag(h); }
  }

  lemma LogFired(log: seq<Event>, armed: multiset<Timer>, gone: set<nat>, now: real, last: nat, end: nat,
                 q: seq<Immediate>, head: nat, t: Timer)
    requires LogOk(log, armed, gone, Timing, now, last, end, q, head)
    requires t in armed && t.deadline <= now && armed[t] == 1
    requires forall u :: u in armed - multiset{t} ==>
      t.deadline < u.deadline || (t.deadline == u.deadline && t.seqno < u.seqno)
    ensures LogOk(log + [TimerFired(t, 0)], armed - multiset{t}, gone, Timing, now, last, end, q, head)
  {
    hide Stands, Orderly, After;
    forall u | u in armed && u != t ensures u in armed - multiset{t} {}
    Extended(log, TimerFired(t, 0));
  }

  lemma LogArmed(log: seq<Event>, armed: multiset<Timer>, gone: set<nat>, stage: Stage, now: real, last: nat, end: nat,
                 q: seq<Immediate>, head: nat, t: Timer)
    requires LogOk(log, armed, gone, stage, now, last, end, q, head) && (t.id == 0 || t.id !in gone)
    ensures LogOk(log + [TimerArmed(t)], armed + multiset{t}, gone, stage, now, last, end, q, head)
  {
    hide Stands, Orderly, After;
    Extended(log, TimerArmed(t));
  }

  lemma LogMoved(log: seq<Event>, armed: multiset<Timer>, gone: set<nat>, stage: Stage, now: real, last: nat, end: nat,
                 q: seq<Immediate>, head: nat, t: Timer, u: Timer)
    requires LogOk(log, armed, gone, stage, now, last, end, q, head) && t in armed && u.id == t.id
    ensures LogOk(log + [TimerMoved(t, u)], armed - multiset{t} + multiset{u}, gone, stage, now, last, end, q, head)
  {
    hide Stands, Orderly, After;
    Extended(log, TimerMoved(t, u));
  }

  lemma LogDropped(log: seq<Event>, armed: multiset<Timer>, gone: set<nat>, stage: Stage, now: real, last: nat,
                   end: nat,
                   q: seq<Immediate>, head: nat, t: Timer)
    requires LogOk(log, armed, gone, stage, now, last, end, q, head) && t in armed && t.id != 0
    requires Unused(armed - multiset{t}, t.id)
    ensures LogOk(log + [TimerDropped(t)], armed - multiset{t}, gone + {t.id}, stage, now, last, end, q, head)
  {
    hide Stands, Orderly, After;
    Extended(log, TimerDropped(t));
  }

  lemma LogFiringCleared(log: seq<Event>, armed: multiset<Timer>, gone: set<nat>, stage: Stage, now: real, last: nat,
                         end: nat, q: seq<Immediate>, head: nat, id: nat)
    requires LogOk(log, armed, gone, stage, now, last, end, q, head) && id != 0 && Unused(armed, id)
    ensures LogOk(log + [FiringCleared(id)], armed, gone + {id}, stage, now, last, end, q, head)
  {
    hide Stands, Orderly, After;
    Extended(log, FiringCleared(id));
  }

  lemma LogCheckBegan(log: seq<Event>, armed: multiset<Timer>, gone: set<nat>, now: real, last: nat, end: nat,
                      q: seq<Immediate>, head: nat, pending: nat, reffed: nat)
    requires LogOk(log, armed, gone, Timing, now, last, end, q, head)
    requires QueueOk(q, head, last, pending, reffed) && pending > 0
    requires forall u :: u in armed ==> u.deadline > now
    ensures LogOk(log + [CheckBegan(0)], armed, gone, Checking, now, last, |q|, q, head)
  {
    SomeLive(q, head, last, pending, reffed);
    CheckBegins(end, q, head, After(log).due, After(log).later);
    assert After(log).later == LiveIds(q[head..]);
    hide Stands, Orderly, After, LiveIds, QueueOk, Next, Allowed;
    BeganNext(After(log));
    Extended(log, CheckBegan(0));
  }

  lemma BeganNext(t: Turn)
    requires t.stage == Timing && t.later != [] && forall u :: u in t.armed ==> u.deadline > t.now
    ensures Allowed(t, CheckBegan(0)) && Next(t, CheckBegan(0)) == t.(stage := Checking, due := t.later, later := [])
  {
  }

  lemma LogCheckSkipped(log: seq<Event>, armed: multiset<Timer>, gone: set<nat>, now: real, last: nat, end: nat,
                        q: seq<Immediate>, head: nat, pending: nat, reffed: nat, waiting: nat)
    requires LogOk(log, armed, gone, Timing, now, last, end, q, head) && QueueOk(q, head, last, pending, reffed)
    requires waiting > 0 || (pending == 0 && forall u :: u in armed ==> u.deadline > now)
    ensures LogOk(log + [CheckSkipped(waiting)], armed, gone, Checkpoint, now, last, end, q, head)
  {
    SomeLive(q, head, last, pending, reffed);
    assert After(log).later == LiveIds(q[head..]);
    hide Stands, Orderly, After, LiveIds, QueueOk, Next, Allowed;
    SkippedNext(After(log), waiting);
    Extended(log, CheckSkipped(waiting));
  }

  lemma SkippedNext(t: Turn, waiting: nat)
    requires t.stage == Timing
    requires waiting > 0 || (t.later == [] && forall u :: u in t.armed ==> u.deadline > t.now)
    ensures Allowed(t, CheckSkipped(waiting)) && Next(t, CheckSkipped(waiting)) == t.(stage := Checkpoint)
  {
  }

  lemma LogCheckEnded(log: seq<Event>, armed: multiset<Timer>, gone: set<nat>, now: real, last: nat, end: nat,
                      q: seq<Immediate>, head: nat)
    requires LogOk(log, armed, gone, Checking, now, last, end, q, head) && head >= end
    ensures LogOk(log + [CheckEnded], armed, gone, Checkpoint, now, last, end, q, head)
    ensures head == |q| ==> LogOk(log + [CheckEnded], armed, gone, Checkpoint, now, last, end, [], 0)
  {
    CheckEnds(end, q, head, After(log).due, After(log).later);
    hide Stands, Orderly, After;
    Extended(log, CheckEnded);
  }

  lemma LogSet(log: seq<Event>, armed: multiset<Timer>, gone: set<nat>, stage: Stage, now: real, last: nat, end: nat,
               q: seq<Immediate>, head: nat,
               m: Immediate)
    requires LogOk(log, armed, gone, stage, now, last, end, q, head) && m.live && m.id == last + 1
    ensures LogOk(log + [ImmediateSet(m.id)], armed, gone, stage, now, m.id, end, q + [m], head)
  {
    CheckPush(stage == Checking, end, q, head, After(log).due, After(log).later, m);
    hide Stands, Orderly, After, Next, Allowed;
    SetNext(After(log), m.id);
    Extended(log, ImmediateSet(m.id));
  }

  lemma SetNext(t: Turn, id: nat)
    requires id == t.last + 1
    ensures Allowed(t, ImmediateSet(id)) && Next(t, ImmediateSet(id)) == t.(last := id, later := t.later + [id])
  {
  }

  lemma LogCleared(log: seq<Event>, armed: multiset<Timer>, gone: set<nat>, stage: Stage, now: real, last: nat,
                   end: nat, q: seq<Immediate>, head: nat, i: nat)
    requires LogOk(log, armed, gone, stage, now, last, end, q, head) && head <= i < |q| && q[i].live && DistinctIds(q)
    ensures LogOk(log + [ImmediateCleared(q[i].id)], armed, gone, stage, now, last, end,
                  q[i := q[i].(live := false, reffed := false)], head)
  {
    CheckCleared(stage == Checking, end, q, head, After(log).due, After(log).later, i);
    hide Stands, Orderly, After, Without;
    Extended(log, ImmediateCleared(q[i].id));
  }

  lemma LogReffed(log: seq<Event>, armed: multiset<Timer>, gone: set<nat>, stage: Stage, now: real, last: nat, end: nat,
                  q: seq<Immediate>, head: nat, i: nat,
                  on: bool)
    requires LogOk(log, armed, gone, stage, now, last, end, q, head) && i < |q|
    ensures LogOk(log, armed, gone, stage, now, last, end, q[i := q[i].(reffed := on)], head)
  {
    CheckReffed(stage == Checking, end, q, head, After(log).due, After(log).later, i, on);
    hide Stands, Orderly, After;
  }

  /** The cursor of a check phase passes a slot. */
  lemma LogPasses(log: seq<Event>, armed: multiset<Timer>, gone: set<nat>, now: real, last: nat, end: nat,
                  q: seq<Immediate>, head: nat)
    requires LogOk(log, armed, gone, Checking, now, last, end, q, head) && head < end
    ensures head < |q|
    ensures LogOk(log + if q[head].live then [ImmediateFired(q[head].id, 0)] else [], armed, gone, Checking, now, last,
                  end,
                  q[head := q[head].(live := false, reffed := false)], head + 1)
  {
    CheckAdvances(end, q, head, After(log).due, After(log).later);
    assert head < |q|;
    hide Stands, Orderly, After, Next, Allowed;
    if q[head].live {
      FiredNext(After(log), q[head].id);
      Extended(log, ImmediateFired(q[head].id, 0));
    } else {
      assert log + [] == log;
    }
  }

  lemma FiredNext(t: Turn, id: nat)
    requires t.stage == Checking && t.due != [] && t.due[0] == id
    ensures Allowed(t, ImmediateFired(id, 0)) && Next(t, ImmediateFired(id, 0)) == t.(due := t.due[1..])
  {
  }

  /** What passing a slot does to the counters. */
  lemma QueuePasses(q: seq<Immediate>, head: nat, last: nat, pending: nat, reffed: nat)
    requires QueueOk(q, head, last, pending, reffed) && head < |q|
    ensures q[head].live ==> pending > 0 && (q[head].reffed ==> reffed > 0)
    ensures QueueOk(q[head := q[head].(live := false, reffed := false)], head + 1, last,
                    pending - (if q[head].live then 1 else 0),
                    reffed - (if q[head].live && q[head].reffed then 1 else 0))
  {
    CountUpdate(q, head, q[head].(live := false, reffed := false));
    Positive(q, head);
    hide LiveCount, ReffedCount;
  }

  lemma QueueRestarts(q: seq<Immediate>, head: nat, last: nat, pending: nat, reffed: nat)
    requires QueueOk(q, head, last, pending, reffed)
    ensures head == |q| ==> QueueOk([], 0, last, pending, reffed)
  {
    if head == |q| { Spent(q); }
  }

  /** Handles of armed timers were given out, delays and periods are at least 1, and the firing timer is out of the
      heap. */
  ghost predicate TimersOk(b: multiset<Timer>, nextHandle: nat, firing: nat) {
    && (forall t :: t in b ==> TimerOk(t, nextHandle)) && Unused(b, firing) && firing < nextHandle
  }

  ghost predicate TimerOk(t: Timer, nextHandle: nat) {
    t.id < nextHandle && t.delay >= 1.0 && (t.repeat == 0.0 || t.repeat >= 1.0)
  }

  /** Cleared handles were given out, and no timer that waits has one; the timer that is firing has one exactly when it
      was cleared since it fired. */
  ghost predicate GoneOk(gone: set<nat>, b: multiset<Timer>, nextHandle: nat, firing: nat, firingCleared: bool) {
    && (forall h :: h in gone ==> 0 < h < nextHandle) && (forall t :: t in b ==> t.id !in gone)
    && (firing != 0 ==> (firingCleared <==> firing in gone))
  }

  lemma GoneMore(gone: set<nat>, b: multiset<Timer>, t: Timer, nextHandle: nat, firing: nat, firingCleared: bool)
    requires GoneOk(gone, b, nextHandle, firing, firingCleared) && t.id !in gone
    ensures GoneOk(gone, b + multiset{t}, nextHandle, firing, firingCleared)
  {
  }

  lemma GoneLess(gone: set<nat>, b: multiset<Timer>, t: Timer, nextHandle: nat, firing: nat, firingCleared: bool)
    requires GoneOk(gone, b, nextHandle, firing, firingCleared)
    ensures GoneOk(gone, b - multiset{t}, nextHandle, firing, firingCleared)
  {
    forall u | u in b - multiset{t} ensures u in b {}
  }

  lemma GoneMoved(gone: set<nat>, b: multiset<Timer>, t: Timer, u: Timer, nextHandle: nat, firing: nat,
                  firingCleared: bool)
    requires GoneOk(gone, b, nextHandle, firing, firingCleared) && t in b && u.id == t.id
    ensures GoneOk(gone, b - multiset{t} + multiset{u}, nextHandle, firing, firingCleared)
  {
    GoneLess(gone, b, t, nextHandle, firing, firingCleared);
    GoneMore(gone, b - multiset{t}, u, nextHandle, firing, firingCleared);
  }

  lemma GoneDropped(gone: set<nat>, b: multiset<Timer>, t: Timer, nextHandle: nat, firing: nat, firingCleared: bool)
    requires GoneOk(gone, b, nextHandle, firing, firingCleared) && TimersOk(b, nextHandle, firing)
    requires t in b && t.id != 0 && Unused(b - multiset{t}, t.id)
    ensures GoneOk(gone + {t.id}, b - multiset{t}, nextHandle, firing, firingCleared)
  {
    GoneLess(gone, b, t, nextHandle, firing, firingCleared);
  }

  lemma GoneFiring(gone: set<nat>, b: multiset<Timer>, nextHandle: nat, firing: nat, firingCleared: bool)
    requires GoneOk(gone, b, nextHandle, firing, firingCleared) && TimersOk(b, nextHandle, firing) && firing != 0
    ensures Unused(b, firing) && GoneOk(gone + {firing}, b, nextHandle, firing, true)
  {
  }

  lemma GoneTaken(gone: set<nat>, b: multiset<Timer>, t: Timer, nextHandle: nat, was: bool)
    requires GoneOk(gone, b, nextHandle, 0, was) && t in b
    ensures GoneOk(gone, b - multiset{t}, nextHandle, t.id, if t.id == 0 then was else false)
  {
    GoneLess(gone, b, t, nextHandle, 0, was);
  }

  lemma GoneRest(gone: set<nat>, b: multiset<Timer>, nextHandle: nat, firing: nat, firingCleared: bool)
    requires GoneOk(gone, b, nextHandle, firing, firingCleared)
    ensures GoneOk(gone, b, nextHandle, 0, firingCleared) && GoneOk(gone, b, nextHandle + 1, firing, firingCleared)
    ensures nextHandle !in gone && 0 !in gone && (firing != 0 && !firingCleared ==> firing !in gone)
  {
  }

  lemma OneMore(b: multiset<Timer>, t: Timer, nextHandle: nat, firing: nat, now: real)
    requires TimersOk(b, nextHandle, firing) && TimerOk(t, nextHandle)
    requires (firing == 0 || t.id != firing) && t.deadline > now
    ensures TimersOk(b + multiset{t}, nextHandle, firing) && Due(b + multiset{t}, now) <= Due(b, now)
  {
  }

  lemma ZeroUnused(b: multiset<Timer>)
    ensures Unused(b, 0)
  {
  }

  lemma ArmedOk(b: multiset<Timer>, cb: int, ms: Num, repeats: bool, h: nat, at: real, n: nat, nextHandle: nat,
                firing: nat)
    requires TimersOk(b, nextHandle, firing) && (h == 0 || h < nextHandle)
    ensures TimerOk(Armed(cb, ms, repeats, h, at, n), nextHandle)
  {
  }

  lemma OneLess(b: multiset<Timer>, t: Timer, nextHandle: nat, firing: nat, now: real)
    requires TimersOk(b, nextHandle, firing)
    ensures TimersOk(b - multiset{t}, nextHandle, firing) && Due(b - multiset{t}, now) <= Due(b, now)
  {
    forall u | u in b - multiset{t} ensures u in b {}
  }

  lemma NewHandle(b: multiset<Timer>, nextHandle: nat, firing: nat)
    requires TimersOk(b, nextHandle, firing)
    ensures TimersOk(b, nextHandle + 1, firing) && Unused(b, nextHandle) && nextHandle != 0 && nextHandle != firing
  {
  }

  lemma ClearedOk(b: multiset<Timer>, c: multiset<Timer>, id: nat, nextHandle: nat, firing: nat, now: real)
    requires TimersOk(b, nextHandle, firing) && Cleared(b, c, id)
    ensures TimersOk(c, nextHandle, firing) && Due(c, now) <= Due(b, now)
  {
    if !Unused(b, id) {
      var t :| t in b && t.id == id && c == b - multiset{t};
      OneLess(b, t, nextHandle, firing, now);
    }
  }

  /** Ref'ing or unref'ing changes no deadline. */
  lemma SwitchedOk(b: multiset<Timer>, c: multiset<Timer>, id: nat, on: bool, nextHandle: nat, firing: nat, now: real)
    requires TimersOk(b, nextHandle, firing) && Switched(b, c, id, on)
    ensures TimersOk(c, nextHandle, firing) && Due(c, now) <= Due(b, now)
  {
    if !Unused(b, id) {
      var t :| t in b && t.id == id && c == b - multiset{t} + multiset{t.(reffed := on)};
      OneLess(b, t, nextHandle, firing, now);
      OneSwitched(b - multiset{t}, t, on, nextHandle, firing);
      DueSwitched(b, t, on, now);
    }
  }

  lemma OneSwitched(b: multiset<Timer>, t: Timer, on: bool, nextHandle: nat, firing: nat)
    requires TimersOk(b, nextHandle, firing) && TimerOk(t, nextHandle) && (firing == 0 || t.id != firing)
    ensures TimersOk(b + multiset{t.(reffed := on)}, nextHandle, firing)
  {
  }

  lemma DueSwitched(b: multiset<Timer>, t: Timer, on: bool, now: real)
    requires t in b
    ensures Due(b - multiset{t} + multiset{t.(reffed := on)}, now) <= Due(b, now)
  {
    forall u | u in b - multiset{t} + multiset{t.(reffed := on)} ensures u in b || u == t.(reffed := on) {}
  }

  lemma RefreshedOk(b: multiset<Timer>, c: multiset<Timer>, id: nat, at: real, n: nat, nextHandle: nat, firing: nat,
                    now: real)
    requires TimersOk(b, nextHandle, firing) && Refreshed(b, c, id, at, n) && at >= now
    ensures TimersOk(c, nextHandle, firing) && Due(c, now) <= Due(b, now)
  {
    if !Unused(b, id) {
      var t :| t in b && t.id == id && c == b - multiset{t} + multiset{t.(deadline := at + t.delay, seqno := n)};
      assert TimerOk(t, nextHandle);
      OneLess(b, t, nextHandle, firing, now);
      OneMore(b - multiset{t}, t.(deadline := at + t.delay, seqno := n), nextHandle, firing, now);
    }
  }

  lemma ClearedThat(b: multiset<Timer>, c: multiset<Timer>, id: nat) returns (t: Timer)
    requires Cleared(b, c, id) && !Unused(b, id)
    ensures t in b && t.id == id && c == b - multiset{t}
  {
    t :| t in b && t.id == id && c == b - multiset{t};
  }

  lemma SwitchedThat(b: multiset<Timer>, c: multiset<Timer>, id: nat, on: bool) returns (t: Timer)
    requires Switched(b, c, id, on) && !Unused(b, id)
    ensures t in b && t.id == id && c == b - multiset{t} + multiset{Reffed(t, on)}
  {
    t :| t in b && t.id == id && c == b - multiset{t} + multiset{t.(reffed := on)};
  }

  lemma RefreshedThat(b: multiset<Timer>, c: multiset<Timer>, id: nat, at: real, n: nat) returns (t: Timer)
    requires Refreshed(b, c, id, at, n) && !Unused(b, id)
    ensures t in b && t.id == id && c == b - multiset{t} + multiset{Restarted(t, at, n)}
  {
    t :| t in b && t.id == id && c == b - multiset{t} + multiset{t.(deadline := at + t.delay, seqno := n)};
  }

  /** A timer not waiting is not cleared, switched or refreshed. */
  lemma NothingChanged(b: multiset<Timer>, c: multiset<Timer>, id: nat, on: bool, at: real, n: nat)
    requires Unused(b, id)
    ensures Cleared(b, c, id) || Switched(b, c, id, on) || Refreshed(b, c, id, at, n) ==> c == b
  {
  }

  /** A due timer taken out of the heap to fire. */
  lemma FiringOk(b: multiset<Timer>, t: Timer, nextHandle: nat, n: nat, now: real)
    requires TimersOk(b, nextHandle, 0) && Stamped(b, n) && t in b && t.deadline <= now
    ensures TimerOk(t, nextHandle) && TimersOk(b - multiset{t}, nextHandle, t.id)
    ensures Due(b - multiset{t}, now) < Due(b, now)
  {
    DueLess(b, n, now, t);
    StampedSub(b, n, t);
    forall u | u in b - multiset{t} ensures TimerOk(u, nextHandle) && (t.id == 0 || u.id != t.id) {
      assert u in b && u != t;
    }
  }

  lemma OnceStamped(b: multiset<Timer>, n: nat, t: Timer)
    requires Stamped(b, n)
    ensures t in b ==> b[t] == 1
  {
  }

  lemma RearmOk(b: multiset<Timer>, t: Timer, nextHandle: nat, firing: nat, now: real)
    requires TimersOk(b, nextHandle, firing) && TimerOk(t, nextHandle) && t.id == firing && t.deadline > now
    ensures TimersOk(b + multiset{t}, nextHandle, 0) && Due(b + multiset{t}, now) <= Due(b, now) && Unused(b, t.id)
  {
  }

  lemma RearmDelay(t: Timer, before: nat, nextHandle: nat)
    requires TimerOk(t, before) && before <= nextHandle
    ensures t.delay >= 1.0 && (t.repeat > 0.0 ==> t.repeat >= 1.0)
    ensures forall d, n, r, p :: p == t.repeat || p == 0.0 ==>
      TimerOk(Timer(d, n, t.cb, p, t.id, r, t.delay), nextHandle)
  {
  }

  lemma NotFiring(b: multiset<Timer>, nextHandle: nat, firing: nat)
    requires TimersOk(b, nextHandle, firing) || TimersOk(b, nextHandle, 0)
    ensures TimersOk(b, nextHandle, 0)
  {
  }

  // What callbacks see and change --------------------------------------------------------------------------

  datatype View = View(bag: multiset<Timer>, next: nat, nextHandle: nat, firing: nat, firingCleared: bool,
                       firingReffed: bool, firingRefresh: bool, ready: seq<nat>, ticks: seq<int>,
                       imms: seq<Immediate>, head: nat, lastImm: nat, log: seq<Event>)

  /** A timer is armed, taken out, or replaced. */
  ghost function Arming(s: View, t: Timer): View {
    s.(bag := s.bag + multiset{t}, next := s.next + 1, log := s.log + [TimerArmed(t)])
  }

  ghost function Dropping(s: View, t: Timer): View {
    s.(bag := s.bag - multiset{t}, log := s.log + [TimerDropped(t)])
  }

  ghost function Moving(s: View, t: Timer, u: Timer): View {
    s.(bag := s.bag - multiset{t} + multiset{u}, log := s.log + [TimerMoved(t, u)])
  }

  /** The timer with handle `h`, if one waits, is taken out, or is ref'd or not, or is due its delay from `at`. */
  ghost predicate Drops(s: View, h: nat, t: View) {
    if Unused(s.bag, h) then t == s else exists u :: u in s.bag && u.id == h && t == Dropping(s, u)
  }

  ghost predicate Switches(s: View, h: nat, on: bool, t: View) {
    if Unused(s.bag, h) then t == s
    else exists u :: u in s.bag && u.id == h && t == Switching(s, u, on)
  }

  ghost predicate Refreshes(s: View, h: nat, at: real, t: View) {
    if Unused(s.bag, h) then t == s else exists u :: u in s.bag && u.id == h && t == Restarting(s, u, at)
  }

  ghost function Restarting(s: View, u: Timer, at: real): View {
    Moving(s, u, Restarted(u, at, s.next)).(next := s.next + 1)
  }

  ghost function Restarted(u: Timer, at: real, n: nat): (t: Timer)
    ensures t.id == u.id
  {
    u.(deadline := at + u.delay, seqno := n)
  }

  ghost function Switching(s: View, u: Timer, on: bool): View {
    Moving(s, u, Reffed(u, on))
  }

  ghost function Reffed(u: Timer, on: bool): (t: Timer)
    ensures t.id == u.id
  {
    u.(reffed := on)
  }

  lemma SwitchingMoves(s: View, u: Timer, on: bool)
    ensures Switching(s, u, on) == Moving(s, u, Reffed(u, on)).(next := s.next)
  {
  }

  lemma RestartingMoves(s: View, u: Timer, at: real)
    ensures Restarting(s, u, at) == Moving(s, u, Restarted(u, at, s.next)).(next := s.next + 1)
  {
  }

  lemma EffectOfTimer(s: View, u: Timer, on: bool, at: real)
    requires u in s.bag && u.id != 0
    ensures Drops(s, u.id, Dropping(s, u)) && Switches(s, u.id, on, Switching(s, u, on))
    ensures Refreshes(s, u.id, at, Restarting(s, u, at))
  {
  }

  lemma EffectOfNoTimer(s: View, h: nat, on: bool, at: real)
    requires Unused(s.bag, h)
    ensures Drops(s, h, s) && Switches(s, h, on, s) && Refreshes(s, h, at, s)
  {
  }

  ghost predicate LiveAt(q: seq<Immediate>, head: nat, k: int, h: nat) {
    head <= k < |q| && q[k].live && q[k].id == h
  }

  ghost predicate Queued(q: seq<Immediate>, head: nat, h: nat) {
    exists k :: LiveAt(q, head, k, h)
  }

  /** The live slot with handle `h`, if there is one, has these flags now. */
  ghost predicate Flagged(q: seq<Immediate>, head: nat, r: seq<Immediate>, h: nat, live: bool, reffed: bool) {
    if Queued(q, head, h) then
      exists k :: LiveAt(q, head, k, h) && r == q[k := q[k].(live := live, reffed := reffed)]
    else r == q
  }

  lemma FoundFlag(q: seq<Immediate>, head: nat, i: nat, h: nat, live: bool, reffed: bool)
    requires head <= i <= |q| && (i < |q| ==> q[i].live && q[i].id == h)
    requires i == |q| ==> forall k :: head <= k < |q| ==> !(q[k].live && q[k].id == h)
    ensures i < |q| ==> Flagged(q, head, q[i := q[i].(live := live, reffed := reffed)], h, live, reffed)
    ensures i < |q| && live && q[i].reffed == reffed ==> Flagged(q, head, q, h, live, reffed)
    ensures i == |q| ==> Flagged(q, head, q, h, live, reffed)
    ensures Queued(q, head, h) <==> i < |q|
  {
    if i < |q| {
      assert LiveAt(q, head, i, h);
      if live && q[i].reffed == reffed { assert q == q[i := q[i].(live := live, reffed := reffed)]; }
    }
  }

  /** What one action does. The handle of the timer that is firing refers to that firing, any other to the heap. */
  ghost predicate Effect(s: View, a: Action, t: View) {
    match a
    case Wake(f) => t == s.(ready := s.ready + [f], log := s.log + [FiberWoken(f)])
    case NextTick(cb) => t == s.(ticks := s.ticks + [cb], log := s.log + [TickSet(cb)])
    case SetTimeout(cb, ms, at) =>
      t == Arming(s, Armed(cb, ms, false, 0, at, s.next))
    case SetTimeoutHandle(cb, ms, at) =>
      t == Arming(s, Armed(cb, ms, false, s.nextHandle, at, s.next)).(nextHandle := s.nextHandle + 1)
    case SetInterval(cb, ms, at) =>
      t == Arming(s, Armed(cb, ms, true, s.nextHandle, at, s.next)).(nextHandle := s.nextHandle + 1)
    case ClearTimer(h) =>
      if h == 0 then t == s
      else if h == s.firing then t == s.(firingCleared := true, log := s.log + [FiringCleared(h)])
      else Drops(s, h, t)
    case RefTimer(h, on) =>
      if h == 0 then t == s
      else if h == s.firing then t == s.(firingReffed := on)
      else Switches(s, h, on, t)
    case RefreshTimer(h, at) =>
      if h == 0 then t == s
      else if h == s.firing then t == s.(firingRefresh := true)
      else Refreshes(s, h, at, t)
    case SetImmediate(cb) =>
      t == s.(imms := s.imms + [Immediate(s.lastImm + 1, cb, true, true)], lastImm := s.lastImm + 1,
              log := s.log + [ImmediateSet(s.lastImm + 1)])
    case ClearImmediate(h) =>
      t == s.(imms := t.imms, log := s.log + if Queued(s.imms, s.head, h) then [ImmediateCleared(h)] else [])
      && Flagged(s.imms, s.head, t.imms, h, false, false)
    case RefImmediate(h, on) => t == s.(imms := t.imms) && Flagged(s.imms, s.head, t.imms, h, true, on)
  }

  lemma EffectOfWake(s: View, f: nat)
    ensures Effect(s, Wake(f), s.(ready := s.ready + [f], log := s.log + [FiberWoken(f)]))
  {
  }

  lemma EffectOfTick(s: View, cb: int)
    ensures Effect(s, NextTick(cb), s.(ticks := s.ticks + [cb], log := s.log + [TickSet(cb)]))
  {
  }

  lemma EffectOfImmediate(s: View, cb: int)
    ensures Effect(s, SetImmediate(cb), s.(imms := s.imms + [Immediate(s.lastImm + 1, cb, true, true)],
                                           lastImm := s.lastImm + 1, log := s.log + [ImmediateSet(s.lastImm + 1)]))
  {
  }

  lemma EffectOfFlag(s: View, imms: seq<Immediate>, h: nat, on: bool)
    ensures Flagged(s.imms, s.head, imms, h, false, false) ==>
      Effect(s, ClearImmediate(h),
             s.(imms := imms, log := s.log + if Queued(s.imms, s.head, h) then [ImmediateCleared(h)] else []))
    ensures Flagged(s.imms, s.head, imms, h, true, on) ==> Effect(s, RefImmediate(h, on), s.(imms := imms))
  {
  }

  /** The views of a callback as it goes through its actions. */
  ghost predicate Played(views: seq<View>, actions: seq<Action>) {
    |views| == |actions| + 1 && forall i :: 0 <= i < |actions| ==> Effect(views[i], actions[i], views[i + 1])
  }

  /** The first timer taken out to fire. */
  ghost function Taken(s: View, t: Timer): View {
    var u := s.(bag := s.bag - multiset{t}, log := s.log + [TimerFired(t, 0)]);
    if t.id == 0 then u
    else u.(firing := t.id, firingCleared := false, firingReffed := t.reffed, firingRefresh := false)
  }

  /** After a timer's callback at `clock`: an interval, or a timer refreshed by its own callback, is armed again as
      it was ref'd then, unless it was cleared. */
  ghost function Concluded(s: View, t: Timer, clock: real): View {
    var u := s.(firing := 0);
    if t.id != 0 && t.repeat > 0.0 && !s.firingCleared then
      Arming(u, t.(deadline := clock + t.repeat, seqno := s.next, reffed := s.firingReffed))
    else if t.id != 0 && s.firingRefresh && !s.firingCleared then
      Arming(u, t.(deadline := clock + t.delay, seqno := s.next, repeat := 0.0, reffed := s.firingReffed))
    else u
  }

  lemma IdsIncrease(q: seq<Immediate>, head: nat, last: nat, pending: nat, reffed: nat)
    requires QueueOk(q, head, last, pending, reffed)
    ensures DistinctIds(q)
  {
  }

  /** A callback that began at `s` did these actions and left `t`. */
  ghost predicate Ran(s: View, actions: seq<Action>, views: seq<View>, t: View) {
    Played(views, actions) && views[0] == s && views[|actions|] == t
  }

  ghost predicate Fired(s: View, t: Timer, actions: seq<Action>, clock: real, views: seq<View>, u: View) {
    Played(views, actions) && views[0] == Taken(s, t) && u == Concluded(views[|actions|], t, clock)
  }

  /** The check phase's next slot is spent. */
  ghost function Passed(s: View): View {
    if s.head < |s.imms| then
      s.(imms := s.imms[s.head := s.imms[s.head].(live := false, reffed := false)], head := s.head + 1,
         log := s.log + if s.imms[s.head].live then [ImmediateFired(s.imms[s.head].id, 0)] else [])
    else s
  }

  /** When the loop's sleep ends: at the first deadline, or after a second without timers, but at once with immediates
      pending or a deadline already past. */
  ghost function Woken(h: seq<Timer>, pendingImms: nat, clock: real): real {
    var due := if pendingImms > 0 then clock else if h != [] then h[0].deadline else clock + 1000.0;
    if due > clock then due else clock
  }

  /** The check phase is over; a queue fully drained starts over. */
  ghost function Closed(s: View): View {
    var u := s.(log := s.log + [CheckEnded]);
    if s.head == |s.imms| then u.(imms := [], head := 0) else u
  }

  ghost function Rearmed(s: View, u: Timer): View {
    Arming(s.(firing := 0), u)
  }

  ghost function TickTaken(s: View): View {
    if s.ticks == [] then s else s.(ticks := s.ticks[1..], log := s.log + [TickRan(s.ticks[0])])
  }

  /** The oldest ready fiber taken out to run. */
  ghost function JobTaken(s: View): View {
    if s.ready == [] then s else s.(ready := s.ready[1..], log := s.log + [JobRan(s.ready[0])])
  }

  /** With no job left the loop goes to its ticks, ends, or sleeps. */
  ghost function OutOfWork(s: View, phase: Phase, clock: real, now: real): View {
    if phase == DueTimers then s.(log := s.log + [Slept(clock, now)]) else s
  }

  /** The timer phase is over. */
  ghost function TimersDone(s: View, phase: Phase): View {
    s.(log := s.log + [if phase == Check then CheckBegan(0) else CheckSkipped(|s.ready|)])
  }

  /** A sleep that lasts ends with the least deadline of all timers; one that is over at once had a timer due. */
  ghost predicate SleptToFirst(b: multiset<Timer>, clock: real, now: real) {
    && now >= clock && (exists u :: u in b && u.deadline <= now)
    && (now > clock ==> forall u :: u in b ==> u.deadline >= now)
  }

  lemma SleepsToFirst(h: seq<Timer>, clock: real)
    requires Heap(h)
    ensures h != [] ==> SleptToFirst(Bag(h), clock, Woken(h, 0, clock))
  {
    forall i | 0 <= i < |h| ensures h[i].deadline >= h[0].deadline { RootLeast(h, i); }
    if h != [] { assert h[0] in Bag(h); }
  }

  /** What becomes of a timer after its callback. */
  lemma AfterFiring(s: View, t: Timer, clock: real)
    ensures t.id == 0 || s.firingCleared ==> Concluded(s, t, clock).bag == s.bag
    ensures t.id != 0 && !s.firingCleared && t.repeat > 0.0 ==>
      Concluded(s, t, clock).bag
      == s.bag + multiset{Timer(clock + t.repeat, s.next, t.cb, t.repeat, t.id, s.firingReffed, t.delay)}
    ensures t.id != 0 && !s.firingCleared && t.repeat <= 0.0 && s.firingRefresh ==>
      Concluded(s, t, clock).bag
      == s.bag + multiset{Timer(clock + t.delay, s.next, t.cb, 0.0, t.id, s.firingReffed, t.delay)}
    ensures t.repeat <= 0.0 && !s.firingRefresh ==> Concluded(s, t, clock).bag == s.bag
  {
  }

  /** If the root of the heap is not due, nothing is. */
  lemma NoTimerDue(h: seq<Timer>, now: real)
    requires Heap(h) && (h != [] ==> h[0].deadline > now)
    ensures forall u :: u in Bag(h) ==> u.deadline > now
  {
    forall i | 0 <= i < |h| ensures h[i].deadline > now { RootLeast(h, i); }
  }

  /** No timer that waits, and no immediate, keeps the loop alive. */
  ghost predicate NothingKeeps(b: multiset<Timer>, q: seq<Immediate>) {
    (forall t :: t in b ==> !t.reffed) && forall i :: 0 <= i < |q| ==> !q[i].reffed
  }

  lemma CountsKeep(h: seq<Timer>, q: seq<Immediate>)
    ensures NothingKeeps(Bag(h), q) <==> RefCount(h) == 0 && ReffedCount(q) == 0
  {
    TimerOrder.NoneReffed(h);
    Immediates.NoneReffed(q);
    assert forall i :: 0 <= i < |h| ==> h[i] in Bag(h);
  }

  lemma PlayedLength(views: seq<View>, actions: seq<Action>)
    requires Played(views, actions)
    ensures |views| == |actions| + 1
  {
  }

  class Loop {
    const heap: Heaped
    var phase: Phase
    var first: bool
    var now: real
    var ticks: seq<int>
    var ready: seq<nat>
    var nextHandle: nat
    var firing: nat
    var firingCleared: bool
    var firingReffed: bool
    var firingRefresh: bool
    var imms: seq<Immediate>
    var head: nat
    var lastImm: nat
    var pendingImms: nat
    var reffedImms: nat
    var end: nat
    ghost var log: seq<Event>
    ghost var gone: set<nat>
    /** Whether the checkpoint is at its ticks. */
    ghost var ticking: bool

    ghost function AtLine(): Line
      reads this
    {
      Line(ticks, ready, ticking, phase == Check || phase == CheckJobs)
    }

    ghost function Seen(): View
      reads this, heap, heap.data
      requires heap.Bounded()
    {
      View(Bag(heap.H()), heap.next, nextHandle, firing, firingCleared, firingReffed, firingRefresh, ready, ticks, imms,
           head, lastImm, log)
    }

    ghost predicate FirstDue()
      reads this, heap, heap.data
    {
      heap.Bounded() && heap.count > 0 && heap.H()[0].deadline <= now
    }

    /** What holds at every moment, callbacks included. */
    ghost predicate Steady()
      reads this, heap, heap.data
    {
      && heap.Valid() && TimersOk(Bag(heap.H()), nextHandle, firing)
      && QueueOk(imms, head, lastImm, pendingImms, reffedImms)
      && GoneOk(gone, Bag(heap.H()), nextHandle, firing, firingCleared)
      && LogOk(log, Bag(heap.H()), gone, StageOf(phase), now, lastImm, end, imms, head)
      && LineOk(log, AtLine())
    }

    /** What holds between steps. */
    ghost predicate Valid()
      reads this, heap, heap.data
    {
      && Steady() && firing == 0 && (phase == DueTimers || phase == Check || phase == Exited ==> ready == [])
      && (phase == Exited ==> Idle()) && (first ==> !ticking && (phase == Ticks || phase == Jobs))
      && (phase == Ticks && !first ==> ticking || ready == []) && (phase == Jobs ==> !ticking || ticks == [])
    }

    /** Nothing is left that keeps the loop going. */
    ghost predicate Idle()
      reads this, heap, heap.data
    {
      heap.Bounded() && ready == [] && ticks == [] && RefCount(heap.H()) == 0 && ReffedCount(imms) == 0
    }

    constructor ()
      ensures Valid() && phase == Ticks && log == [] && fresh(heap) && fresh(heap.data)
    {
      heap := new Heaped();
      phase, first, now, ticks, ready, nextHandle := Ticks, true, 0.0, [], [], 1;
      firing, firingCleared, firingReffed, firingRefresh := 0, false, true, false;
      imms, head, lastImm, pendingImms, reffedImms, end := [], 0, 0, 0, 0, 0;
      log, gone, ticking := [], {}, false;
    }

    /** A callback's actions happened: the phase and the clock stayed, and nothing became due. */
    twostate predicate Acted()
      reads this, heap, heap.data
    {
      && phase == old(phase) && now == old(now) && firing == old(firing) && first == old(first)
      && ticking == old(ticking)
      && end == old(end) && head == old(head) && old(log) <= log && nextHandle >= old(nextHandle)
      && (heap.data == old(heap.data) || fresh(heap.data))
      && old(heap.Bounded()) && heap.Bounded() && Due(Bag(heap.H()), now) <= old(Due(Bag(heap.H()), now))
    }

    /** A callback runs: any number of actions, in order. */
    method Perform(actions: seq<Action>) returns (ghost views: seq<View>)
      requires Steady() && forall a :: a in actions ==> Clocked(a, now)
      modifies this, heap, heap.data
      ensures Steady() && Acted() && Played(views, actions) && views[0] == old(Seen()) && views[|actions|] == Seen()
    {
      hide Steady, Due, Bag, Clocked, Effect, LogOk, LineOk;
      var i := 0;
      SteadyBounded();
      views := [Seen()];
      while i < |actions|
        invariant Steady() && Acted() && i <= |actions|
        invariant |views| == i + 1 && views[0] == old(Seen()) && views[i] == Seen()
        invariant forall k :: 0 <= k < i ==> Effect(views[k], actions[k], views[k + 1])
      {
        assert Clocked(actions[i], now);
        Act(actions[i]);
        views := views + [Seen()];
        i := i + 1;
      }
    }

    lemma SteadyBounded()
      requires Steady()
      ensures heap.Bounded()
    {
    }

    /** One action of a callback. */
    method Act(a: Action)
      requires Steady() && Clocked(a, now)
      modifies this, heap, heap.data
      ensures Steady() && Acted() && Effect(old(Seen()), a, Seen())
    {
      hide Steady, Acted, Effect;
      match a
      case Wake(f) => Enqueue(f);
      case NextTick(cb) => Defer(cb);
      case SetTimeout(cb, ms, at) => SetTimeout(cb, ms, at);
      case SetTimeoutHandle(cb, ms, at) =>
        var _ := SetTimeoutHandle(cb, ms, at);
      case SetInterval(cb, ms, at) =>
        var _ := SetInterval(cb, ms, at);
      case ClearTimer(h) => ClearTimer(h);
      case RefTimer(h, on) => RefTimer(h, on);
      case RefreshTimer(h, at) => RefreshTimer(h, at);
      case SetImmediate(cb) => SetImmediate(cb);
      case ClearImmediate(h) => ClearImmediate(h);
      case RefImmediate(h, on) => RefImmediate(h, on);
    }

    /** `scr_set_timeout`: no handle. */
    method SetTimeout(cb: int, ms: Num, at: real)
      requires Steady() && at >= now
      modifies this`log, heap, heap.data
      ensures Steady() && Acted() && Effect(old(Seen()), Action.SetTimeout(cb, ms, at), Seen())
    {
      hide Steady, Due, Bag, Unused, LogOk, LineOk;
      SteadyBounded();
      ArmTimer(cb, ms, false, 0, at);
    }

    method SetTimeoutHandle(cb: int, ms: Num, at: real) returns (h: nat)
      requires Steady() && at >= now
      modifies this`nextHandle, this`log, heap, heap.data
      ensures Steady() && Acted()
      ensures Effect(old(Seen()), Action.SetTimeoutHandle(cb, ms, at), Seen()) && h == old(nextHandle)
    {
      hide Steady, Due, Bag, Unused, LogOk, LineOk;
      SteadyBounded();
      h := NewTimerHandle();
      ArmTimer(cb, ms, false, h, at);
    }

    method SetInterval(cb: int, ms: Num, at: real) returns (h: nat)
      requires Steady() && at >= now
      modifies this`nextHandle, this`log, heap, heap.data
      ensures Steady() && Acted() && Effect(old(Seen()), Action.SetInterval(cb, ms, at), Seen()) && h == old(nextHandle)
    {
      hide Steady, Due, Bag, Unused, LogOk, LineOk;
      SteadyBounded();
      h := NewTimerHandle();
      ArmTimer(cb, ms, true, h, at);
    }

    method Enqueue(f: nat)
      requires Steady()
      modifies this`ready, this`log
      ensures Steady() && Acted() && Effect(old(Seen()), Wake(f), Seen())
    {
      hide TimersOk, GoneOk, QueueOk, LogOk, LineOk, Effect, Due, Bag, Heap, Stamped, RefCount;
      EffectOfWake(Seen(), f);
      LogRan(log, Bag(heap.H()), gone, StageOf(phase), now, lastImm, end, imms, head, FiberWoken(f));
      LineNext(log, AtLine(), FiberWoken(f));
      ready, log := ready + [f], log + [FiberWoken(f)];
    }

    method Defer(cb: int)
      requires Steady()
      modifies this`ticks, this`log
      ensures Steady() && Acted() && Effect(old(Seen()), NextTick(cb), Seen())
    {
      hide TimersOk, GoneOk, QueueOk, LogOk, LineOk, Effect, Due, Bag, Heap, Stamped, RefCount;
      EffectOfTick(Seen(), cb);
      LogRan(log, Bag(heap.H()), gone, StageOf(phase), now, lastImm, end, imms, head, TickSet(cb));
      LineNext(log, AtLine(), TickSet(cb));
      ticks, log := ticks + [cb], log + [TickSet(cb)];
    }

    method NewTimerHandle() returns (h: nat)
      requires Steady()
      modifies this`nextHandle
      ensures Steady() && h == old(nextHandle) && nextHandle == h + 1
      ensures h != firing && h != 0 && h !in gone && Unused(Bag(heap.H()), h)
      ensures heap.Bounded() && Seen() == old(Seen()).(nextHandle := h + 1)
    {
      hide Bag, QueueOk, LogOk, LineOk, Heap, Stamped, RefCount, TimersOk, GoneOk;
      NewHandle(Bag(heap.H()), nextHandle, firing);
      GoneRest(gone, Bag(heap.H()), nextHandle, firing, firingCleared);
      h := nextHandle;
      nextHandle := nextHandle + 1;
    }

    method ArmTimer(cb: int, ms: Num, repeats: bool, h: nat, at: real)
      requires Steady() && at >= now
      requires h != 0 ==> h < nextHandle && h != firing && h !in gone && Unused(Bag(heap.H()), h)
      modifies this`log, heap, heap.data
      ensures Steady() && (heap.data == old(heap.data) || fresh(heap.data)) && heap.Bounded()
      ensures Due(Bag(heap.H()), now) <= old(Due(Bag(heap.H()), now))
      ensures Seen() == Arming(old(Seen()), Armed(cb, ms, repeats, h, at, old(heap.next)))
    {
      hide Bag, QueueOk, Due, TimersOk, GoneOk, Heap, Stamped, RefCount, LogOk, LineOk;
      if h == 0 { ZeroUnused(Bag(heap.H())); }
      ghost var t := Armed(cb, ms, repeats, h, at, heap.next);
      ArmedOk(Bag(heap.H()), cb, ms, repeats, h, at, heap.next, nextHandle, firing);
      OneMore(Bag(heap.H()), t, nextHandle, firing, now);
      GoneRest(gone, Bag(heap.H()), nextHandle, firing, firingCleared);
      GoneMore(gone, Bag(heap.H()), t, nextHandle, firing, firingCleared);
      LogArmed(log, Bag(heap.H()), gone, StageOf(phase), now, lastImm, end, imms, head, t);
      LineNext(log, AtLine(), TimerArmed(t));
      heap.Arm(cb, ms, repeats, h, at);
      log := log + [TimerArmed(t)];
    }

    method ClearTimer(h: nat)
      requires Steady()
      modifies this`firingCleared, this`log, this`gone, heap, heap.data
      ensures Steady() && Acted() && Effect(old(Seen()), Action.ClearTimer(h), Seen())
    {
      hide Bag, QueueOk, Due, TimersOk, GoneOk, Heap, Stamped, RefCount, Unused, LogOk, LineOk;
      if h == 0 { return; }
      if h == firing {
        ClearFiring();
      } else {
        DropTimer(h);
      }
    }

    /** A callback clears its own timer: it is not armed again. */
    method ClearFiring()
      requires Steady() && firing != 0
      modifies this`firingCleared, this`log, this`gone
      ensures Steady() && heap.Bounded()
      ensures Seen() == old(Seen()).(firingCleared := true, log := old(log) + [FiringCleared(firing)])
    {
      hide Bag, QueueOk, TimersOk, GoneOk, Heap, Stamped, RefCount, LogOk, LineOk;
      GoneFiring(gone, Bag(heap.H()), nextHandle, firing, firingCleared);
      LogFiringCleared(log, Bag(heap.H()), gone, StageOf(phase), now, lastImm, end, imms, head, firing);
      LineNext(log, AtLine(), FiringCleared(firing));
      firingCleared := true;
      log, gone := log + [FiringCleared(firing)], gone + {firing};
    }

    method DropTimer(h: nat)
      requires Steady() && h != 0 && h != firing
      modifies this`log, this`gone, heap, heap.data
      ensures Steady() && Acted() && Drops(old(Seen()), h, Seen())
    {
      hide Bag, QueueOk, Due, TimersOk, GoneOk, Heap, Stamped, RefCount, Unused, LogOk, LineOk, Drops, Cleared;
      ghost var s := Seen();
      heap.Clear(h);
      ClearedOk(s.bag, Bag(heap.H()), h, nextHandle, firing, now);
      LogDrop(s, h);
    }

    /** The log of a timer that was taken out of the heap, if there was one. */
    ghost method LogDrop(s: View, h: nat)
      requires heap.Bounded() && h != 0 && Cleared(s.bag, Bag(heap.H()), h) && Unused(Bag(heap.H()), h)
      requires TimersOk(s.bag, nextHandle, firing)
      requires heap.Valid() && TimersOk(Bag(heap.H()), nextHandle, firing) && Seen() == s.(bag := Bag(heap.H()))
      requires QueueOk(imms, head, lastImm, pendingImms, reffedImms)
      requires GoneOk(gone, s.bag, nextHandle, firing, firingCleared)
      requires LogOk(log, s.bag, gone, StageOf(phase), now, lastImm, end, imms, head) && LineOk(log, AtLine())
      modifies this`log, this`gone
      ensures Steady() && Drops(s, h, Seen()) && old(log) <= log
    {
      hide Bag, QueueOk, TimersOk, GoneOk, Heap, Stamped, RefCount, Unused, LogOk, LineOk, Drops, Cleared, Dropping;
      if Unused(s.bag, h) {
        NothingChanged(s.bag, Bag(heap.H()), h, false, 0.0, 0);
        EffectOfNoTimer(s, h, false, 0.0);
      } else {
        var t := ClearedThat(s.bag, Bag(heap.H()), h);
        EffectOfTimer(s, t, false, 0.0);
        LogGone(s, t);
      }
    }

    ghost method LogGone(s: View, t: Timer)
      requires heap.Bounded() && t in s.bag && t.id != 0 && Bag(heap.H()) == s.bag - multiset{t}
      requires Unused(Bag(heap.H()), t.id) && TimersOk(s.bag, nextHandle, firing)
      requires heap.Valid() && TimersOk(Bag(heap.H()), nextHandle, firing) && Seen() == s.(bag := Bag(heap.H()))
      requires QueueOk(imms, head, lastImm, pendingImms, reffedImms)
      requires GoneOk(gone, s.bag, nextHandle, firing, firingCleared)
      requires LogOk(log, s.bag, gone, StageOf(phase), now, lastImm, end, imms, head) && LineOk(log, AtLine())
      modifies this`log, this`gone
      ensures Steady() && old(log) <= log && Seen() == Dropping(s, t)
    {
      hide Bag, QueueOk, TimersOk, GoneOk, Heap, Stamped, RefCount, Unused, LogOk, LineOk;
      GoneDropped(gone, s.bag, t, nextHandle, firing, firingCleared);
      LogDropped(log, s.bag, gone, StageOf(phase), now, lastImm, end, imms, head, t);
      LineNext(log, AtLine(), TimerDropped(t));
      log, gone := log + [TimerDropped(t)], gone + {t.id};
    }

    method RefTimer(h: nat, on: bool)
      requires Steady()
      modifies this`firingReffed, this`log, heap, heap.data
      ensures Steady() && Acted() && Effect(old(Seen()), Action.RefTimer(h, on), Seen())
    {
      hide Bag, QueueOk, Due, TimersOk, GoneOk, Heap, Stamped, RefCount, Unused, LogOk, LineOk, Switches;
      if h == 0 { return; }
      if h == firing {
        firingReffed := on;
      } else {
        SwitchTimer(h, on);
      }
    }

    method SwitchTimer(h: nat, on: bool)
      requires Steady() && h != 0 && h != firing
      modifies this`log, heap, heap.data
      ensures Steady() && Acted() && Switches(old(Seen()), h, on, Seen())
    {
      hide Bag, QueueOk, Due, TimersOk, GoneOk, Heap, Stamped, RefCount, Unused, LogOk, LineOk, Switches, Switched;
      ghost var s := Seen();
      heap.SetRef(h, on);
      SwitchedOk(s.bag, Bag(heap.H()), h, on, nextHandle, firing, now);
      LogSwitch(s, h, on);
    }

    ghost method LogSwitch(s: View, h: nat, on: bool)
      requires heap.Bounded() && h != 0 && Switched(s.bag, Bag(heap.H()), h, on)
      requires heap.Valid() && TimersOk(Bag(heap.H()), nextHandle, firing) && heap.next == s.next
      requires Seen() == s.(bag := Bag(heap.H()), next := heap.next)
      requires QueueOk(imms, head, lastImm, pendingImms, reffedImms)
      requires GoneOk(gone, s.bag, nextHandle, firing, firingCleared)
      requires LogOk(log, s.bag, gone, StageOf(phase), now, lastImm, end, imms, head) && LineOk(log, AtLine())
      modifies this`log
      ensures Steady() && Switches(s, h, on, Seen()) && old(log) <= log
    {
      hide Bag, QueueOk, TimersOk, GoneOk, Heap, Stamped, RefCount, Unused, LogOk, LineOk, Switches, Switched;
      hide Switching, Moving, Reffed;
      if Unused(s.bag, h) {
        NothingChanged(s.bag, Bag(heap.H()), h, on, 0.0, 0);
        EffectOfNoTimer(s, h, on, 0.0);
        assert Seen() == s;
      } else {
        var t := SwitchedThat(s.bag, Bag(heap.H()), h, on);
        EffectOfTimer(s, t, on, 0.0);
        LogSwitching(s, t, on);
      }
    }

    ghost method LogSwitching(s: View, t: Timer, on: bool)
      requires heap.Bounded() && t in s.bag && Bag(heap.H()) == s.bag - multiset{t} + multiset{Reffed(t, on)}
      requires heap.Valid() && TimersOk(Bag(heap.H()), nextHandle, firing) && heap.next == s.next
      requires Seen() == s.(bag := Bag(heap.H()), next := heap.next)
      requires QueueOk(imms, head, lastImm, pendingImms, reffedImms)
      requires GoneOk(gone, s.bag, nextHandle, firing, firingCleared)
      requires LogOk(log, s.bag, gone, StageOf(phase), now, lastImm, end, imms, head) && LineOk(log, AtLine())
      modifies this`log
      ensures Steady() && Seen() == Switching(s, t, on) && old(log) <= log
    {
      hide Bag, QueueOk, TimersOk, GoneOk, Heap, Stamped, RefCount, LogOk, LineOk, Switching, Moving, Reffed;
      SwitchingMoves(s, t, on);
      LogMove(s, t, Reffed(t, on));
    }

    /** A timer was replaced in the heap: the log says so. */
    ghost method LogMove(s: View, t: Timer, u: Timer)
      requires t in s.bag && u.id == t.id && heap.Bounded() && Bag(heap.H()) == s.bag - multiset{t} + multiset{u}
      requires heap.Valid() && TimersOk(Bag(heap.H()), nextHandle, firing)
      requires QueueOk(imms, head, lastImm, pendingImms, reffedImms)
      requires GoneOk(gone, s.bag, nextHandle, firing, firingCleared)
      requires LogOk(log, s.bag, gone, StageOf(phase), now, lastImm, end, imms, head) && LineOk(log, AtLine())
      modifies this`log
      ensures Steady() && log == old(log) + [TimerMoved(t, u)]
      ensures old(Seen()) == s.(bag := Bag(heap.H()), next := heap.next) ==>
        Seen() == Moving(s, t, u).(next := heap.next)
    {
      hide Bag, QueueOk, TimersOk, GoneOk, Heap, Stamped, RefCount, LogOk, LineOk;
      GoneMoved(gone, s.bag, t, u, nextHandle, firing, firingCleared);
      LogMoved(log, s.bag, gone, StageOf(phase), now, lastImm, end, imms, head, t, u);
      LineNext(log, AtLine(), TimerMoved(t, u));
      log := log + [TimerMoved(t, u)];
    }

    method RefreshTimer(h: nat, at: real)
      requires Steady() && at >= now
      modifies this`firingRefresh, this`log, heap, heap.data
      ensures Steady() && Acted() && Effect(old(Seen()), Action.RefreshTimer(h, at), Seen())
    {
      hide Bag, QueueOk, Due, TimersOk, GoneOk, Heap, Stamped, RefCount, Unused, LogOk, LineOk;
      if h == 0 { return; }
      if h == firing {
        firingRefresh := true;
      } else {
        MoveTimer(h, at);
      }
    }

    method MoveTimer(h: nat, at: real)
      requires Steady() && h != 0 && h != firing && at >= now
      modifies this`log, heap, heap.data
      ensures Steady() && Acted() && Refreshes(old(Seen()), h, at, Seen())
    {
      hide Bag, QueueOk, Due, TimersOk, GoneOk, Heap, Stamped, RefCount, Unused, LogOk, LineOk, Refreshes, Refreshed;
      ghost var s := Seen();
      heap.Refresh(h, at);
      RefreshedOk(s.bag, Bag(heap.H()), h, at, s.next, nextHandle, firing, now);
      LogRefresh(s, h, at);
    }

    ghost method LogRefresh(s: View, h: nat, at: real)
      requires heap.Bounded() && h != 0 && Refreshed(s.bag, Bag(heap.H()), h, at, s.next)
      requires heap.next == s.next + if Unused(s.bag, h) then 0 else 1
      requires heap.Valid() && TimersOk(Bag(heap.H()), nextHandle, firing)
      requires Seen() == s.(bag := Bag(heap.H()), next := heap.next)
      requires QueueOk(imms, head, lastImm, pendingImms, reffedImms)
      requires GoneOk(gone, s.bag, nextHandle, firing, firingCleared)
      requires LogOk(log, s.bag, gone, StageOf(phase), now, lastImm, end, imms, head) && LineOk(log, AtLine())
      modifies this`log
      ensures Steady() && Refreshes(s, h, at, Seen()) && old(log) <= log
    {
      hide Bag, QueueOk, TimersOk, GoneOk, Heap, Stamped, RefCount, Unused, LogOk, LineOk, Refreshes, Refreshed;
      hide Restarting, Restarted, Moving;
      if Unused(s.bag, h) {
        NothingChanged(s.bag, Bag(heap.H()), h, false, at, s.next);
        EffectOfNoTimer(s, h, false, at);
        assert Seen() == s;
      } else {
        var t := RefreshedThat(s.bag, Bag(heap.H()), h, at, s.next);
        EffectOfTimer(s, t, false, at);
        RestartingMoves(s, t, at);
        LogMove(s, t, Restarted(t, at, s.next));
        assert Seen() == Restarting(s, t, at);
      }
    }

    method SetImmediate(cb: int)
      requires Steady()
      modifies this`imms, this`lastImm, this`pendingImms, this`reffedImms, this`log
      ensures Steady() && Acted() && Effect(old(Seen()), Action.SetImmediate(cb), Seen())
    {
      hide Bag, TimersOk, GoneOk, QueueOk, LogOk, LineOk, Due, Effect, Heap, Stamped, RefCount;
      QueuePush(imms, head, lastImm, pendingImms, reffedImms, cb);
      LogSet(log, Bag(heap.H()), gone, StageOf(phase), now, lastImm, end, imms, head,
             Immediate(lastImm + 1, cb, true, true));
      EffectOfImmediate(Seen(), cb);
      LineNext(log, AtLine(), ImmediateSet(lastImm + 1));
      AppendImmediate(cb);
    }

    method AppendImmediate(cb: int)
      modifies this`imms, this`lastImm, this`pendingImms, this`reffedImms, this`log
      ensures log == old(log) + [ImmediateSet(lastImm)] && lastImm == old(lastImm) + 1
      ensures imms == old(imms) + [Immediate(lastImm, cb, true, true)]
      ensures pendingImms == old(pendingImms) + 1 && reffedImms == old(reffedImms) + 1
    {
      log := log + [ImmediateSet(lastImm + 1)];
      lastImm := lastImm + 1;
      imms := imms + [Immediate(lastImm, cb, true, true)];
      pendingImms, reffedImms := pendingImms + 1, reffedImms + 1;
    }

    /** The live slot with handle `h`, or the end of the queue. */
    method FindImmediate(h: nat) returns (i: nat)
      requires head <= |imms|
      ensures head <= i <= |imms| && (i < |imms| ==> imms[i].live && imms[i].id == h)
      ensures i == |imms| ==> forall k :: head <= k < |imms| ==> !(imms[k].live && imms[k].id == h)
    {
      i := head;
      while i < |imms| && !(imms[i].id == h && imms[i].live)
        invariant head <= i <= |imms| && forall k :: head <= k < i ==> !(imms[k].live && imms[k].id == h)
      {
        i := i + 1;
      }
    }

    method ClearImmediate(h: nat)
      requires Steady()
      modifies this`imms, this`pendingImms, this`reffedImms, this`log
      ensures Steady() && Acted() && Effect(old(Seen()), Action.ClearImmediate(h), Seen())
    {
      hide Bag, TimersOk, GoneOk, QueueOk, LogOk, LineOk, Due, Effect, Flagged, Heap, Stamped, RefCount;
      HeadInside();
      var i := FindImmediate(h);
      FoundFlag(imms, head, i, h, false, false);
      if i == |imms| {
        assert log + [] == log;
        EffectOfFlag(Seen(), imms, h, false);
        return;
      }
      EffectOfFlag(Seen(), imms[i := imms[i].(live := false, reffed := false)], h, false);
      DropLive(i);
    }

    method DropLive(i: nat)
      requires Steady() && head <= i < |imms| && imms[i].live
      modifies this`imms, this`pendingImms, this`reffedImms, this`log
      ensures Steady() && imms == old(imms)[i := old(imms)[i].(live := false, reffed := false)]
      ensures log == old(log) + [ImmediateCleared(old(imms)[i].id)]
    {
      hide Bag, TimersOk, GoneOk, QueueOk, LogOk, LineOk, Heap, Stamped, RefCount;
      QueueFlag(imms, head, lastImm, pendingImms, reffedImms, i, false, false);
      IdsIncrease(imms, head, lastImm, pendingImms, reffedImms);
      LogCleared(log, Bag(heap.H()), gone, StageOf(phase), now, lastImm, end, imms, head, i);
      LineNext(log, AtLine(), ImmediateCleared(imms[i].id));
      DropSlot(i);
    }

    method DropSlot(i: nat)
      requires i < |imms|
      modifies this`imms, this`pendingImms, this`reffedImms, this`log
      ensures imms == old(imms)[i := old(imms)[i].(live := false, reffed := false)]
      ensures log == old(log) + [ImmediateCleared(old(imms)[i].id)]
      ensures pendingImms == if old(pendingImms) > 0 then old(pendingImms) - 1 else 0
      ensures reffedImms == if old(imms)[i].reffed && old(reffedImms) > 0 then old(reffedImms) - 1 else old(reffedImms)
    {
      log := log + [ImmediateCleared(imms[i].id)];
      if pendingImms > 0 { pendingImms := pendingImms - 1; }
      if imms[i].reffed && reffedImms > 0 { reffedImms := reffedImms - 1; }
      imms := imms[i := imms[i].(live := false, reffed := false)];
    }

    method RefImmediate(h: nat, on: bool)
      requires Steady()
      modifies this`imms, this`reffedImms
      ensures Steady() && Acted() && Effect(old(Seen()), Action.RefImmediate(h, on), Seen())
    {
      hide Bag, TimersOk, GoneOk, QueueOk, LogOk, LineOk, Due, Effect, Flagged, Heap, Stamped, RefCount;
      HeadInside();
      var i := FindImmediate(h);
      FoundFlag(imms, head, i, h, true, on);
      if i == |imms| || imms[i].reffed == on {
        EffectOfFlag(Seen(), imms, h, on);
        return;
      }
      EffectOfFlag(Seen(), imms[i := imms[i].(live := true, reffed := on)], h, on);
      SwitchLive(i, on);
    }

    method SwitchLive(i: nat, on: bool)
      requires Steady() && head <= i < |imms| && imms[i].live && imms[i].reffed != on
      modifies this`imms, this`reffedImms
      ensures Steady() && imms == old(imms)[i := old(imms)[i].(live := true, reffed := on)]
    {
      hide Bag, TimersOk, GoneOk, QueueOk, LogOk, LineOk, Heap, Stamped, RefCount;
      QueueFlag(imms, head, lastImm, pendingImms, reffedImms, i, true, on);
      LogReffed(log, Bag(heap.H()), gone, StageOf(phase), now, lastImm, end, imms, head, i, on);
      if on {
        reffedImms := reffedImms + 1;
      } else if reffedImms > 0 {
        reffedImms := reffedImms - 1;
      }
      assert imms[i].(reffed := on) == imms[i].(live := true, reffed := on);
      imms := imms[i := imms[i].(reffed := on)];
    }

    // Steps -------------------------------------------------------------------------------------------------

    /** The tick queue runs dry before the promise jobs, except at the first checkpoint. */
    method StepTicks(actions: seq<Action>) returns (ghost views: seq<View>)
      requires Valid() && phase == Ticks && forall a :: a in actions ==> Clocked(a, now)
      modifies this, heap, heap.data
      ensures Valid() && old(log) <= log && (heap.data == old(heap.data) || fresh(heap.data)) && now == old(now)
      ensures old(heap.Bounded()) && heap.Bounded()
      ensures old(first) || old(ticks) == [] ==> phase == Jobs && Seen() == old(Seen())
      ensures !old(first) && old(ticks) != [] ==> phase == Ticks && Ran(TickTaken(old(Seen())), actions, views, Seen())
    {
      hide Bag, Due, TimersOk, GoneOk, QueueOk, Heap, Stamped, RefCount, Clocked, LogOk, LineOk;
      views := [];
      if !first && ticks != [] {
        LogRan(log, Bag(heap.H()), gone, Checkpoint, now, lastImm, end, imms, head, TickRan(ticks[0]));
        LineNext(log, AtLine(), TickRan(ticks[0]));
        log, ticking := log + [TickRan(ticks[0])], true;
        ticks := ticks[1..];
        views := Perform(actions);
      } else {
        phase := Jobs;
      }
    }

    /** Resumes the oldest ready fiber. */
    method RunJob(actions: seq<Action>) returns (ghost views: seq<View>)
      requires Steady() && ready != [] && (phase == CheckJobs || (phase == Jobs && (!ticking || ticks == [])))
      requires forall a :: a in actions ==> Clocked(a, now)
      modifies this, heap, heap.data
      ensures Steady() && phase == old(phase) && firing == old(firing) && first == old(first) && now == old(now)
      ensures end == old(end) && old(log) <= log && (heap.data == old(heap.data) || fresh(heap.data))
      ensures old(heap.Bounded()) && heap.Bounded() && ticking == (old(ticking) && phase == CheckJobs)
      ensures Ran(JobTaken(old(Seen())), actions, views, Seen())
    {
      hide Bag, Due, TimersOk, GoneOk, QueueOk, Heap, Stamped, RefCount, Clocked, Played, LogOk, LineOk;
      LogRan(log, Bag(heap.H()), gone, StageOf(phase), now, lastImm, end, imms, head, JobRan(ready[0]));
      LineNext(log, AtLine(), JobRan(ready[0]));
      log, ticking := log + [JobRan(ready[0])], ticking && phase == CheckJobs;
      ready := ready[1..];
      views := Perform(actions);
    }

    /** Promise jobs run dry; then, unless ticks came up or nothing keeps the loop alive, it sleeps until the first
        timer is due. */
    method StepJobs(actions: seq<Action>, clock: real) returns (ghost views: seq<View>)
      requires Valid() && phase == Jobs && clock >= now && forall a :: a in actions ==> Clocked(a, now)
      modifies this, heap, heap.data
      ensures Valid() && old(log) <= log && (heap.data == old(heap.data) || fresh(heap.data)) && now >= old(now)
      ensures old(heap.Bounded()) && heap.Bounded()
      ensures old(ready) != [] ==> phase == Jobs && Ran(JobTaken(old(Seen())), actions, views, Seen())
      ensures old(ready) == [] ==> !first && Seen() == OutOfWork(old(Seen()), phase, clock, now)
      ensures old(ready) == [] && old(ticks) != [] ==> phase == Ticks
      ensures phase == DueTimers ==> now == Woken(old(heap.H()), old(pendingImms), clock)
      ensures old(ready) == [] && old(ticks) == [] ==> phase == Exited || phase == DueTimers
      ensures old(ready) == [] && old(ticks) == [] ==>
        (phase == Exited <==> NothingKeeps(old(Bag(heap.H())), old(imms)))
    {
      hide Bag, Due, TimersOk, GoneOk, Heap, Stamped, Clocked, Ran, Woken, LogOk, LineOk, NothingKeeps;
      CountsKeep(heap.H(), imms);
      views := [];
      if ready != [] {
        views := RunJob(actions);
        return;
      }
      OutOfJobs(clock);
    }

    /** With no job waiting, the next phase: ticks, the end, or sleep. */
    method OutOfJobs(clock: real)
      requires Valid() && phase == Jobs && ready == [] && clock >= now
      modifies this`first, this`phase, this`now, this`log
      ensures Valid() && now >= old(now) && !first && heap.Bounded()
      ensures Seen() == OutOfWork(old(Seen()), phase, clock, now)
      ensures phase == DueTimers ==> now == Woken(old(heap.H()), old(pendingImms), clock)
      ensures old(ticks) != [] ==> phase == Ticks
      ensures old(ticks) == [] ==> phase == Exited || phase == DueTimers
      ensures old(ticks) == [] ==>
        (phase == Exited <==> old(RefCount(heap.H())) == 0 && old(ReffedCount(imms)) == 0)
    {
      hide Bag, Due, TimersOk, GoneOk, Heap, Stamped, Woken, LogOk, LineOk;
      first := false;
      if ticks != [] {
        phase := Ticks;
      } else if heap.reffed == 0 && reffedImms == 0 {
        phase := Exited;
      } else {
        Sleep(clock);
      }
    }

    /** Sleeps to the earliest deadline. */
    method Sleep(clock: real)
      requires Valid() && phase == Jobs && ready == [] && ticks == [] && !first && clock >= now
      modifies this`now, this`phase, this`log
      ensures Valid() && phase == DueTimers && now >= old(now)
      ensures heap.Bounded() && now == Woken(heap.H(), pendingImms, clock)
      ensures pendingImms > 0 ==> now == clock
      ensures pendingImms == 0 && heap.count == 0 ==> now == clock + 1000.0
      ensures pendingImms == 0 && heap.count > 0 ==> SleptToFirst(Bag(heap.H()), clock, now)
      ensures Seen() == old(Seen()).(log := old(log) + [Slept(clock, now)])
    {
      hide Bag, Due, TimersOk, GoneOk, QueueOk, Heap, Stamped, RefCount, LogOk, LineOk;
      var due := if heap.count > 0 then heap.data[0].deadline else clock + 1000.0;
      if pendingImms > 0 { due := clock; }
      SleepsToFirst(heap.H(), clock);
      LogSlept(log, gone, now, lastImm, end, imms, head, pendingImms, reffedImms, heap.H(), clock);
      now := if due > clock then due else clock;
      LineNext(log, AtLine(), Slept(clock, now));
      log := log + [Slept(clock, now)];
      phase := DueTimers;
    }

    /** Fires the first timer if it is due. An interval, or a timer refreshed by its own callback, is armed again unless
        it was cleared. Once no timer is due, or a callback woke a fiber, the phase ends: immediates are next if nothing
        is ready. */
    method StepTimers(actions: seq<Action>, clock: real) returns (ghost views: seq<View>, ghost fired: View)
      requires Valid() && phase == DueTimers && clock >= now && forall a :: a in actions ==> Clocked(a, now)
      modifies this, heap, heap.data
      ensures Valid() && old(log) <= log && (heap.data == old(heap.data) || fresh(heap.data)) && now == old(now)
      ensures phase == DueTimers ==> Due(Bag(heap.H()), now) < old(Due(Bag(heap.H()), now))
      ensures old(heap.Bounded()) && heap.Bounded()
      ensures if old(FirstDue()) then Fired(old(Seen()), old(heap.H()[0]), actions, clock, views, fired)
              else fired == old(Seen())
      ensures phase == if old(FirstDue()) && ready == [] then DueTimers
                       else if ready == [] && pendingImms > 0 then Check
                       else Ticks
      ensures Seen() == if phase == DueTimers then fired else TimersDone(fired, phase)
      ensures phase == Check ==> end == |imms|
    {
      hide Bag, Due, TimersOk, GoneOk, QueueOk, Heap, Stamped, RefCount, Clocked, LiveCount, ReffedCount, LogOk, LineOk;
      hide Fired;
      views := [];
      fired := Seen();
      if heap.count > 0 && heap.data[0].deadline <= now {
        views := FireTimer(actions, clock);
        fired := Seen();
        if ready == [] { return; }
      }
      EndTimers();
    }

    /** The immediates queued so far are this turn's check phase; there is none if a fiber was woken. */
    method EndTimers()
      requires Steady() && phase == DueTimers && firing == 0 && !first && (ready == [] ==> !FirstDue())
      modifies this`phase, this`end, this`log, this`ticking
      ensures Valid() && phase == if ready == [] && pendingImms > 0 then Check else Ticks
      ensures heap.Bounded() && Seen() == TimersDone(old(Seen()), phase) && (phase == Check ==> end == |imms|)
    {
      hide Bag, Due, TimersOk, GoneOk, QueueOk, Heap, Stamped, RefCount, LogOk, LineOk;
      if ready == [] { NoTimerDue(heap.H(), now); }
      if ready == [] && pendingImms > 0 {
        BeginCheck();
      } else {
        SkipCheck();
      }
    }

    method BeginCheck()
      requires Steady() && phase == DueTimers && firing == 0 && !first && ready == [] && pendingImms > 0
      requires forall u :: u in Bag(heap.H()) ==> u.deadline > now
      modifies this`phase, this`end, this`log
      ensures Valid() && phase == Check && end == |imms|
      ensures heap.Bounded() && Seen() == old(Seen()).(log := old(log) + [CheckBegan(0)])
    {
      hide Bag, TimersOk, GoneOk, QueueOk, Heap, Stamped, RefCount, LogOk, LineOk;
      LogCheckBegan(log, Bag(heap.H()), gone, now, lastImm, end, imms, head, pendingImms, reffedImms);
      LineNext(log, AtLine(), CheckBegan(0));
      end, phase := |imms|, Check;
      log := log + [CheckBegan(0)];
    }

    method SkipCheck()
      requires Steady() && phase == DueTimers && firing == 0 && !first
      requires ready != [] || (pendingImms == 0 && forall u :: u in Bag(heap.H()) ==> u.deadline > now)
      modifies this`phase, this`log, this`ticking
      ensures Valid() && phase == Ticks && end == old(end)
      ensures heap.Bounded() && Seen() == old(Seen()).(log := old(log) + [CheckSkipped(|ready|)])
    {
      hide Bag, TimersOk, GoneOk, QueueOk, Heap, Stamped, RefCount, LogOk, LineOk;
      LogCheckSkipped(log, Bag(heap.H()), gone, now, lastImm, end, imms, head, pendingImms, reffedImms, |ready|);
      LineNext(log, AtLine(), CheckSkipped(|ready|));
      phase := Ticks;
      log, ticking := log + [CheckSkipped(|ready|)], true;
    }

    lemma HeadInside()
      requires Steady()
      ensures head <= |imms|
    {
    }

    method FireTimer(actions: seq<Action>, clock: real) returns (ghost views: seq<View>)
      requires Valid() && phase == DueTimers && clock >= now && forall a :: a in actions ==> Clocked(a, now)
      requires heap.count > 0 && heap.H()[0].deadline <= now
      modifies this, heap, heap.data
      ensures Steady() && firing == 0 && phase == DueTimers && !first
      ensures now == old(now) && (heap.data == old(heap.data) || fresh(heap.data))
      ensures old(log) <= log && heap.Bounded()
      ensures Due(Bag(heap.H()), now) < old(Due(Bag(heap.H()), now))
      ensures Fired(old(Seen()), old(heap.H()[0]), actions, clock, views, Seen())
    {
      hide Bag, Due, Steady, Clocked, TimerOk, Taken, Concluded, Played, LogOk, LineOk;
      var t := TakeTimer();
      ghost var given := nextHandle;
      views := Perform(actions);
      PlayedLength(views, actions);
      Conclude(t, clock, given);
    }

    /** Takes the first timer out of the heap to run its callback. */
    method TakeTimer() returns (t: Timer)
      requires Valid() && phase == DueTimers && heap.count > 0 && heap.H()[0].deadline <= now
      modifies this`firing, this`firingCleared, this`firingReffed, this`firingRefresh, this`log, heap, heap.data
      ensures Steady() && firing == t.id && heap.data == old(heap.data)
      ensures t == old(heap.H()[0]) && TimerOk(t, nextHandle)
      ensures old(log) <= log && heap.Bounded() && Seen() == Taken(old(Seen()), t)
      ensures Due(Bag(heap.H()), now) < old(Due(Bag(heap.H()), now))
    {
      hide Bag, Due, TimersOk, GoneOk, QueueOk, Heap, RefCount, TimerOk, LogOk, LineOk, Stamped;
      ghost var b := Bag(heap.H());
      OnceStamped(b, heap.next, heap.H()[0]);
      t := heap.Pop();
      FiringOk(b, t, nextHandle, heap.next, now);
      LogFired(log, b, gone, now, lastImm, end, imms, head, t);
      GoneTaken(gone, b, t, nextHandle, firingCleared);
      LineNext(log, AtLine(), TimerFired(t, 0));
      StartFiring(t);
    }

    method StartFiring(t: Timer)
      requires ready == [] && firing == 0
      modifies this`firing, this`firingCleared, this`firingReffed, this`firingRefresh, this`log
      ensures firing == t.id && firingCleared == (t.id == 0 && old(firingCleared))
      ensures firingReffed == (if t.id == 0 then old(firingReffed) else t.reffed)
      ensures firingRefresh == (t.id == 0 && old(firingRefresh))
      ensures log == old(log) + [TimerFired(t, 0)]
    {
      if t.id != 0 {
        firing, firingCleared, firingReffed, firingRefresh := t.id, false, t.reffed, false;
      }
      log := log + [TimerFired(t, |ready|)];
    }

    /** After its callback a timer is armed again if it repeats or was refreshed, and not cleared meanwhile. */
    method Conclude(t: Timer, clock: real, ghost given: nat)
      requires Steady() && firing == t.id && clock >= now && TimerOk(t, given) && given <= nextHandle && heap.Bounded()
      modifies this`firing, this`log, heap, heap.data
      ensures Steady() && firing == 0 && (heap.data == old(heap.data) || fresh(heap.data)) && heap.Bounded()
      ensures Seen() == Concluded(old(Seen()), t, clock) && old(log) <= log
      ensures Due(Bag(heap.H()), now) <= old(Due(Bag(heap.H()), now))
    {
      hide Bag, Due, TimersOk, GoneOk, QueueOk, Heap, Stamped, RefCount, TimerOk, Concluded, LogOk, LineOk;
      RearmDelay(t, given, nextHandle);
      var again, u := Again(t, clock);
      GoneRest(gone, Bag(heap.H()), nextHandle, firing, firingCleared);
      if again { Rearm(u); }
      NotFiring(Bag(heap.H()), nextHandle, firing);
      GoneRest(gone, Bag(heap.H()), nextHandle, firing, firingCleared);
      firing := 0;
    }

    /** Whether a timer is armed again after its callback, and how. */
    method Again(t: Timer, clock: real) returns (again: bool, u: Timer)
      requires heap.Bounded()
      ensures Concluded(Seen(), t, clock) == if again then Rearmed(Seen(), u) else Seen().(firing := 0)
      ensures again ==> !firingCleared && t.id != 0
      ensures again ==> u == Timer(u.deadline, heap.next, t.cb, u.repeat, t.id, u.reffed, t.delay)
      ensures again ==>
        (u.repeat == t.repeat > 0.0 && u.deadline == clock + t.repeat)
        || (u.repeat == 0.0 && u.deadline == clock + t.delay)
    {
      hide Bag, LogOk, LineOk, Heap, Stamped, RefCount;
      again, u := false, t;
      if t.id != 0 && t.repeat > 0.0 && !firingCleared {
        again, u := true, t.(deadline := clock + t.repeat, seqno := heap.next, reffed := firingReffed);
      } else if t.id != 0 && firingRefresh && !firingCleared {
        again, u := true, t.(deadline := clock + t.delay, seqno := heap.next, repeat := 0.0, reffed := firingReffed);
      }
    }

    method Rearm(t: Timer)
      requires Steady() && TimerOk(t, nextHandle) && t.id == firing && t.deadline > now && t.seqno == heap.next
      requires t.id !in gone
      modifies this`log, heap, heap.data
      ensures heap.Valid() && TimersOk(Bag(heap.H()), nextHandle, 0)
      ensures GoneOk(gone, Bag(heap.H()), nextHandle, firing, firingCleared)
      ensures LogOk(log, Bag(heap.H()), gone, StageOf(phase), now, lastImm, end, imms, head) && LineOk(log, AtLine())
      ensures log == old(log) + [TimerArmed(t)] && (heap.data == old(heap.data) || fresh(heap.data))
      ensures Bag(heap.H()) == old(Bag(heap.H())) + multiset{t} && heap.next == old(heap.next) + 1
      ensures Due(Bag(heap.H()), now) <= old(Due(Bag(heap.H()), now))
    {
      hide Bag, Due, QueueOk, Heap, Stamped, RefCount, TimerOk, LogOk, LineOk, TimersOk, GoneOk;
      RearmOk(Bag(heap.H()), t, nextHandle, firing, now);
      GoneMore(gone, Bag(heap.H()), t, nextHandle, firing, firingCleared);
      LogArmed(log, Bag(heap.H()), gone, StageOf(phase), now, lastImm, end, imms, head, t);
      LineNext(log, AtLine(), TimerArmed(t));
      heap.Push(t);
      log := log + [TimerArmed(t)];
    }

    /** Takes the next slot of the phase off the queue. */
    method PassSlot() returns (m: Immediate)
      requires Steady() && phase == Check && head < end && ready == []
      modifies this`imms, this`head, this`pendingImms, this`reffedImms, this`log
      ensures Steady() && old(head) < |old(imms)| && m == old(imms)[old(head)] && old(log) <= log
      ensures heap.Bounded() && Seen() == Passed(old(Seen()))
    {
      hide Bag, TimersOk, GoneOk, Heap, Stamped, RefCount, QueueOk, LogOk, LineOk;
      LogPasses(log, Bag(heap.H()), gone, now, lastImm, end, imms, head);
      QueuePasses(imms, head, lastImm, pendingImms, reffedImms);
      m := imms[head];
      imms := imms[head := m.(live := false, reffed := false)];
      head := head + 1;
      assert log + [] == log;
      if m.live {
        LineNext(log, AtLine(), ImmediateFired(m.id, 0));
        FireSlot(m);
      }
    }

    /** A live slot is taken off the counters and goes into the log. */
    method FireSlot(m: Immediate)
      requires ready == []
      modifies this`pendingImms, this`reffedImms, this`log
      ensures pendingImms == if old(pendingImms) > 0 then old(pendingImms) - 1 else 0
      ensures reffedImms == if m.reffed && old(reffedImms) > 0 then old(reffedImms) - 1 else old(reffedImms)
      ensures log == old(log) + [ImmediateFired(m.id, 0)]
    {
      log := log + [ImmediateFired(m.id, |ready|)];
      if pendingImms > 0 { pendingImms := pendingImms - 1; }
      if m.reffed && reffedImms > 0 { reffedImms := reffedImms - 1; }
    }

    /** Runs the next immediate of the phase unless it was cleared. */
    method StepCheck(actions: seq<Action>) returns (ghost views: seq<View>)
      requires Valid() && phase == Check && forall a :: a in actions ==> Clocked(a, now)
      modifies this, heap, heap.data
      ensures Valid() && old(log) <= log && (heap.data == old(heap.data) || fresh(heap.data)) && now == old(now)
      ensures old(heap.Bounded()) && heap.Bounded() && (phase != Ticks ==> end == old(end))
      ensures old(head) < old(end) ==> old(head) < |old(imms)| && (phase == CheckJobs || phase == Check)
      ensures old(head) < old(end) && old(imms)[old(head)].live ==>
        phase == CheckJobs && Ran(Passed(old(Seen())), actions, views, Seen())
      ensures old(head) < old(end) && !old(imms)[old(head)].live ==> phase == Check && Seen() == Passed(old(Seen()))
      ensures old(head) >= old(end) ==> phase == Ticks && Seen() == Closed(old(Seen()))
    {
      hide Bag, Due, TimersOk, GoneOk, Heap, Stamped, RefCount, Clocked, QueueOk, LiveCount, ReffedCount, Played;
      hide Passed, LogOk, LineOk;
      views := [];
      if head < end {
        var m := PassSlot();
        if m.live {
          phase := CheckJobs;
          views := Perform(actions);
        }
      } else {
        EndCheck();
      }
    }

    /** Every slot of the phase was passed; a queue fully drained starts over. */
    method EndCheck()
      requires Valid() && phase == Check && head >= end
      modifies this`imms, this`head, this`phase, this`log, this`ticking
      ensures Valid() && phase == Ticks && heap.Bounded() && Seen() == Closed(old(Seen()))
    {
      hide Valid, LogOk;
      CloseCheck();
      RestartQueue();
    }

    method CloseCheck()
      requires Valid() && phase == Check && head >= end
      modifies this`phase, this`log, this`ticking
      ensures Valid() && phase == Ticks && heap.Bounded()
      ensures Seen() == old(Seen()).(log := old(log) + [CheckEnded])
      ensures head == |imms| ==> LogOk(log, Bag(heap.H()), gone, Checkpoint, now, lastImm, end, [], 0)
    {
      hide Bag, Due, TimersOk, GoneOk, QueueOk, Heap, Stamped, RefCount, LiveCount, ReffedCount, LogOk, LineOk;
      LogCheckEnded(log, Bag(heap.H()), gone, now, lastImm, end, imms, head);
      LineNext(log, AtLine(), CheckEnded);
      log, ticking := log + [CheckEnded], true;
      phase := Ticks;
    }

    method RestartQueue()
      requires Valid() && phase == Ticks
      requires head == |imms| ==> LogOk(log, Bag(heap.H()), gone, Checkpoint, now, lastImm, end, [], 0)
      modifies this`imms, this`head
      ensures Valid() && heap.Bounded()
      ensures Seen() == if old(head) == |old(imms)| then old(Seen()).(imms := [], head := 0) else old(Seen())
    {
      hide Bag, Due, TimersOk, GoneOk, QueueOk, Heap, Stamped, RefCount, LiveCount, ReffedCount, LogOk, LineOk;
      QueueRestarts(imms, head, lastImm, pendingImms, reffedImms);
      if head == |imms| { imms, head := [], 0; }
    }

    /** Promise jobs run dry between two immediates. */
    method StepCheckJobs(actions: seq<Action>) returns (ghost views: seq<View>)
      requires Valid() && phase == CheckJobs && forall a :: a in actions ==> Clocked(a, now)
      modifies this, heap, heap.data
      ensures Valid() && old(log) <= log && (heap.data == old(heap.data) || fresh(heap.data)) && now == old(now)
      ensures old(heap.Bounded()) && heap.Bounded() && end == old(end)
      ensures old(ready) == [] ==> phase == Check && Seen() == old(Seen())
      ensures old(ready) != [] ==> phase == CheckJobs && Ran(JobTaken(old(Seen())), actions, views, Seen())
    {
      hide Bag, Due, TimersOk, GoneOk, QueueOk, Heap, Stamped, RefCount, Clocked, LogOk, LineOk;
      views := [];
      if ready != [] {
        views := RunJob(actions);
      } else {
        phase := Check;
      }
    }

    /** One step of the loop. The callback it runs, if any, performs `actions`; `clock` is what the clock reads once it
        is done, and what it reads before the loop sleeps. */
    method Step(actions: seq<Action>, clock: real)
      requires Valid() && clock >= now && forall a :: a in actions ==> Clocked(a, now)
      modifies this, heap, heap.data
      ensures Valid() && old(log) <= log && (heap.data == old(heap.data) || fresh(heap.data)) && now >= old(now)
      ensures old(heap.Bounded()) && heap.Bounded()
      ensures old(phase) == DueTimers && phase == DueTimers ==> Due(Bag(heap.H()), now) < old(Due(Bag(heap.H()), now))
      ensures old(phase) == DueTimers && phase == DueTimers ==> now == old(now)
    {
      match phase
      case Ticks =>
        var _ := StepTicks(actions);
      case Jobs =>
        var _ := StepJobs(actions, clock);
      case DueTimers =>
        var _, _ := StepTimers(actions, clock);
      case Check =>
        var _ := StepCheck(actions);
      case CheckJobs =>
        var _ := StepCheckJobs(actions);
      case Exited =>
    }

    /** Any run of the loop, whatever the callbacks do: its log is orderly, and says where the queue stands. It ends
        only with nothing left to keep it going. */
    method Run(world: (nat, real) -> (seq<Action>, real), steps: nat)
      requires Valid() && Monotone(world)
      modifies this, heap, heap.data
      ensures Valid() && old(log) <= log && Orderly(log)
      ensures phase == Exited ==> Idle() && NothingKeeps(Bag(heap.H()), imms)
      ensures After(log).last == lastImm
      ensures Stands(phase == Check || phase == CheckJobs, end, imms, head, After(log).due, After(log).later)
      ensures Rising(FiredIds(log)) && InLine(log) && LineAfter(log).ticks == ticks && LineAfter(log).ready == ready
    {
      hide TimersOk, GoneOk, QueueOk, Due, Bag, Monotone, Clocked, Orderly, After, FiredIds, Rising;
      var k := 0;
      while k < steps
        invariant Valid() && (heap.data == old(heap.data) || fresh(heap.data)) && old(log) <= log
      {
        WorldAt(world, k, now);
        Step(world(k, now).0, world(k, now).1);
        k := k + 1;
      }
      RunsInOrder(log);
      CountsKeep(heap.H(), imms);
    }

    /** The timer phase ends by itself: what its callbacks arm is due at least a millisecond later. */
    method TimerPhase(world: (nat, real) -> (seq<Action>, real))
      requires Valid() && phase == DueTimers && Monotone(world)
      modifies this, heap, heap.data
      ensures Valid() && (phase == Check || phase == Ticks)
    {
      hide TimersOk, GoneOk, QueueOk, Due, Bag, Monotone, Clocked;
      var k := 0;
      while phase == DueTimers
        invariant Valid() && (heap.data == old(heap.data) || fresh(heap.data))
        invariant phase == DueTimers || phase == Check || phase == Ticks
        decreases phase == DueTimers, Due(Bag(heap.H()), now)
      {
        WorldAt(world, k, now);
        var _, _ := StepTimers(world(k, now).0, world(k, now).1);
        k := k + 1;
      }
    }
  }

  /** What each callback does, and how long it takes, may depend on anything; the clock does not run backwards. */
  ghost predicate Monotone(world: (nat, real) -> (seq<Action>, real)) {
    forall k: nat, t: real :: world(k, t).1 >= t && forall a :: a in world(k, t).0 ==> Clocked(a, t)
  }

  lemma WorldAt(world: (nat, real) -> (seq<Action>, real), k: nat, t: real)
    requires Monotone(world)
    ensures world(k, t).1 >= t && forall a :: a in world(k, t).0 ==> Clocked(a, t)
  {
  }
}
