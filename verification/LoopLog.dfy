/** What a run of the loop looks like from outside: a log of what ran, and the law it obeys, in which the timers are a
    plain bag and the immediates two plain lists, those of the check phase under way and those set for the next one. */
module LoopLog {
  import opened TimerOrder
  import opened Immediates

  /** What happened; `waiting` is the length of the ready queue at that moment. */
  datatype Event =
    | TickSet(cb: int)
    | FiberWoken(fiber: nat)
    | TickRan(cb: int)
    | JobRan(fiber: nat)
    | Slept(clock: real, now: real)
    | TimerArmed(timer: Timer)
    | TimerMoved(timer: Timer, to: Timer)
    | TimerDropped(timer: Timer)
    | FiringCleared(id: nat)
    | TimerFired(timer: Timer, waiting: nat)
    | CheckBegan(waiting: nat)
    | CheckSkipped(waiting: nat)
    | CheckEnded
    | ImmediateSet(id: nat)
    | ImmediateCleared(id: nat)
    | ImmediateFired(id: nat, waiting: nat)

  datatype Stage = Checkpoint | Timing | Checking

  /** Where a run stands: `now` is when the last sleep ended, `last` the last immediate's handle given out, `due`
      the handles that the check phase under way has still to run, `later` those set for the next one; `armed` are the
      timers waiting, `gone` the timer handles cleared. */
  datatype Turn = Turn(stage: Stage, now: real, last: nat, due: seq<nat>, later: seq<nat>, armed: multiset<Timer>,
                       gone: set<nat>)

  ghost function Next(t: Turn, e: Event): Turn {
    match e
    case Slept(_, now) => t.(stage := Timing, now := now)
    case TimerArmed(timer) => t.(armed := t.armed + multiset{timer})
    case TimerMoved(timer, to) => t.(armed := t.armed - multiset{timer} + multiset{to})
    case TimerDropped(timer) => t.(armed := t.armed - multiset{timer}, gone := t.gone + {timer.id})
    case FiringCleared(id) => t.(gone := t.gone + {id})
    case TimerFired(timer, _) => t.(armed := t.armed - multiset{timer})
    case CheckBegan(_) => t.(stage := Checking, due := t.later, later := [])
    case CheckSkipped(_) => t.(stage := Checkpoint)
    case CheckEnded => t.(stage := Checkpoint)
    case ImmediateSet(id) => t.(last := id, later := t.later + [id])
    case ImmediateCleared(id) => t.(due := Without(t.due, id), later := Without(t.later, id))
    case ImmediateFired(_, _) => t.(due := if t.due == [] then [] else t.due[1..])
    case _ => t
  }

  ghost function After(log: seq<Event>): Turn {
    if log == [] then Turn(Checkpoint, 0.0, 0, [], [], multiset{}, {})
    else Next(After(log[..|log| - 1]), log[|log| - 1])
  }

  /** `timer` is due before all others: by its deadline, and among equal deadlines by the order of arming. */
  ghost predicate Earliest(armed: multiset<Timer>, timer: Timer) {
    timer in armed && forall u :: u in armed && u != timer ==>
      timer.deadline < u.deadline || (timer.deadline == u.deadline && timer.seqno < u.seqno)
  }

  /** A sleep that began at `clock` ends at `now`: at once if an immediate is set, else at the first deadline,
      unless that is past already, or after a second if no timer waits. */
  ghost predicate WakesAt(t: Turn, clock: real, now: real) {
    if t.later != [] then now == clock
    else if t.armed == multiset{} then now == clock + 1000.0
    else now >= clock && if now == clock then SomeDue(t, now) else FirstDue(t, now)
  }

  ghost predicate SomeDue(t: Turn, now: real) {
    exists u :: u in t.armed && u.deadline <= now
  }

  ghost predicate FirstDue(t: Turn, now: real) {
    (exists u :: u in t.armed && u.deadline == now) && forall u :: u in t.armed ==> u.deadline >= now
  }

  ghost predicate NoneDue(t: Turn) {
    forall u :: u in t.armed ==> u.deadline > t.now
  }

  /** What may happen next. A turn is a checkpoint, a sleep, the due timers, and a check phase, which is skipped only
      when a fiber was woken or no immediate is set; the timers' part ends early only when a fiber was woken. A timer
      handle that was cleared is never armed again. */
  ghost predicate Allowed(t: Turn, e: Event) {
    match e
    case TickSet(_) => true
    case FiberWoken(_) => true
    case TickRan(_) => t.stage == Checkpoint
    case JobRan(_) => t.stage != Timing
    case Slept(clock, now) => t.stage == Checkpoint && clock >= t.now && WakesAt(t, clock, now)
    case TimerArmed(timer) => timer.id == 0 || timer.id !in t.gone
    case TimerMoved(timer, to) => timer in t.armed && to.id == timer.id
    case TimerDropped(timer) =>
      timer in t.armed && timer.id != 0 && forall u :: u in t.armed - multiset{timer} ==> u.id != timer.id
    case FiringCleared(id) => id != 0 && forall u :: u in t.armed ==> u.id != id
    case TimerFired(timer, waiting) =>
      t.stage == Timing && waiting == 0 && Earliest(t.armed, timer) && timer.deadline <= t.now
    case CheckBegan(waiting) => t.stage == Timing && waiting == 0 && t.later != [] && NoneDue(t)
    case CheckSkipped(waiting) => t.stage == Timing && (waiting > 0 || (t.later == [] && NoneDue(t)))
    case CheckEnded => t.stage == Checking && t.due == []
    case ImmediateSet(id) => id == t.last + 1
    case ImmediateCleared(id) => id in t.due || id in t.later
    case ImmediateFired(id, waiting) => t.stage == Checking && waiting == 0 && t.due != [] && id == t.due[0]
  }

  ghost predicate Orderly(log: seq<Event>) {
    log == [] || (Orderly(log[..|log| - 1]) && Allowed(After(log[..|log| - 1]), log[|log| - 1]))
  }

  lemma Extended(log: seq<Event>, e: Event)
    ensures After(log + [e]) == Next(After(log), e)
    ensures Orderly(log + [e]) <==> Orderly(log) && Allowed(After(log), e)
    ensures FiredIds(log + [e]) == FiredIds(log) + Fires(e) && ClearedIds(log + [e]) == ClearedIds(log) + Clears(e)
  {
    assert (log + [e])[..|log|] == log;
  }

  /** The immediates that ran, and those that were cleared, in order. */
  ghost function FiredIds(log: seq<Event>): seq<nat> {
    if log == [] then [] else FiredIds(log[..|log| - 1]) + Fires(log[|log| - 1])
  }

  ghost function ClearedIds(log: seq<Event>): seq<nat> {
    if log == [] then [] else ClearedIds(log[..|log| - 1]) + Clears(log[|log| - 1])
  }

  ghost function Fires(e: Event): seq<nat> {
    match e case ImmediateFired(id, _) => [id] case _ => []
  }

  ghost function Clears(e: Event): seq<nat> {
    match e case ImmediateCleared(id) => [id] case _ => []
  }

  // What the law means --------------------------------------------------------------------------------------

  ghost predicate Rising(s: seq<nat>) {
    forall i, j :: 0 <= i < j < |s| ==> s[i] < s[j]
  }

  lemma RisingPush(s: seq<nat>, x: nat)
    requires Rising(s) && forall y :: y in s ==> y < x
    ensures Rising(s + [x])
  {
    forall i, j | 0 <= i < j < |s + [x]| ensures (s + [x])[i] < (s + [x])[j] { assert s[i] in s; }
  }

  lemma RisingParts(s: seq<nat>, t: seq<nat>)
    requires Rising(s + t)
    ensures Rising(s) && Rising(t) && forall x, y :: x in s && y in t ==> x < y
  {
    forall i, j | 0 <= i < j < |s| ensures s[i] < s[j] { assert (s + t)[i] < (s + t)[j]; }
    forall i, j | 0 <= i < j < |t| ensures t[i] < t[j] { assert (s + t)[|s| + i] < (s + t)[|s| + j]; }
    forall i, j | 0 <= i < |s| && 0 <= j < |t| ensures s[i] < t[j] { assert (s + t)[i] < (s + t)[|s| + j]; }
  }

  lemma {:induction false} RisingWithout(s: seq<nat>, x: nat)
    requires Rising(s)
    ensures Rising(Without(s, x)) && forall y :: y in Without(s, x) <==> y in s && y != x
  {
    if s != [] {
      var front, last := s[..|s| - 1], s[|s| - 1];
      assert s == front + [last];
      RisingParts(front, [last]);
      RisingWithout(front, x);
      hide Rising;
      if last != x { RisingPush(Without(front, x), last); }
    }
  }

  /** All immediates of a run so far, those that ran and those still queued, are in the order they were set in. */
  ghost predicate Lined(fired: seq<nat>, t: Turn) {
    && Rising(fired + (t.due + t.later)) && (t.stage != Checking ==> t.due == [])
    && forall h :: h in fired || h in t.due || h in t.later ==> 1 <= h <= t.last
  }

  /** Whatever callbacks set and clear, immediates run in the order they were set, over the whole run. */
  lemma {:induction false} RunsInOrder(log: seq<Event>)
    requires Orderly(log)
    ensures Rising(FiredIds(log)) && Lined(FiredIds(log), After(log))
  {
    if log != [] {
      RunsInOrder(log[..|log| - 1]);
      LineStep(FiredIds(log[..|log| - 1]), After(log[..|log| - 1]), log[|log| - 1]);
      RisingParts(FiredIds(log), After(log).due + After(log).later);
    }
  }

  /** Whatever does not concern immediates leaves them as they are. */
  lemma NotImmediates(t: Turn, e: Event)
    requires Allowed(t, e) && !e.ImmediateFired? && !e.ImmediateSet? && !e.ImmediateCleared? && !e.CheckBegan?
    ensures Next(t, e).due == t.due && Next(t, e).later == t.later && Next(t, e).last == t.last
    ensures Next(t, e).stage == Checking ==> t.stage == Checking
    ensures t.stage == Checking && Next(t, e).stage != Checking ==> t.due == []
    ensures Fires(e) == [] && Clears(e) == []
  {
    hide WakesAt, NoneDue, Earliest;
  }

  lemma LineStep(fired: seq<nat>, t: Turn, e: Event)
    requires Lined(fired, t) && Allowed(t, e)
    ensures Lined(fired + Fires(e), Next(t, e))
  {
    hide Rising, WakesAt, NoneDue, Earliest;
    assert fired + [] == fired;
    match e
    case ImmediateFired(id, _) =>
      assert t.due == [id] + t.due[1..] && id in t.due;
      assert forall h :: h in t.due[1..] ==> h in t.due;
      assert fired + [id] + (t.due[1..] + t.later) == fired + (t.due + t.later);
    case ImmediateSet(id) =>
      assert fired + [] + (t.due + (t.later + [id])) == fired + (t.due + t.later) + [id];
      RisingPush(fired + (t.due + t.later), id);
      assert forall h :: h in t.later + [id] ==> h in t.later || h == id;
    case ImmediateCleared(id) =>
      LineCleared(fired, t.due, t.later, id);
    case CheckBegan(_) =>
      assert fired + (t.later + []) == fired + (t.due + t.later);
    case _ =>
      NotImmediates(t, e);
      hide Allowed, Next;
  }

  /** Clearing takes a handle out of the part of the line that has not run. */
  lemma LineCleared(fired: seq<nat>, due: seq<nat>, later: seq<nat>, id: nat)
    requires Rising(fired + (due + later)) && (id in due || id in later)
    ensures Rising(fired + (Without(due, id) + Without(later, id))) && id !in fired
    ensures forall h :: h in Without(due, id) <==> h in due && h != id
    ensures forall h :: h in Without(later, id) <==> h in later && h != id
  {
    RisingParts(fired, due + later);
    RisingParts(due, later);
    RisingWithout(fired + (due + later), id);
    RisingWithout(due, id);
    RisingWithout(later, id);
    hide Rising;
    WithoutConcat(fired, due + later, id);
    WithoutConcat(due, later, id);
    WithoutAbsent(fired, id);
  }

  /** How often a handle is among those that ran, those cleared, and those still queued. */
  ghost function Places(fired: seq<nat>, cleared: seq<nat>, t: Turn, h: nat): nat {
    multiset(fired)[h] + multiset(cleared)[h] + multiset(t.due)[h] + multiset(t.later)[h]
  }

  /** Every handle given out ran, or was cleared, or is still queued: one of these, and once. */
  lemma {:induction false} EveryHandleOnce(log: seq<Event>, h: nat)
    requires Orderly(log)
    ensures Places(FiredIds(log), ClearedIds(log), After(log), h) == if 1 <= h <= After(log).last then 1 else 0
    ensures ImmediateSet(h) in log <==> 1 <= h <= After(log).last
  {
    hide Places, Lined;
    if log == [] {
      NoPlaces(h);
    } else {
      var was, e := log[..|log| - 1], log[|log| - 1];
      EveryHandleOnce(was, h);
      RunsInOrder(was);
      assert log == was + [e];
      PlacesStep(FiredIds(was), ClearedIds(was), After(was), e, h);
    }
  }

  lemma NoPlaces(h: nat)
    ensures Places([], [], After([]), h) == 0
  {
  }

  lemma PlacesStep(fired: seq<nat>, cleared: seq<nat>, t: Turn, e: Event, h: nat)
    requires Lined(fired, t) && Allowed(t, e)
    ensures Places(fired + Fires(e), cleared + Clears(e), Next(t, e), h)
            == Places(fired, cleared, t, h) + if e == ImmediateSet(h) then 1 else 0
  {
    hide WakesAt, NoneDue, Earliest, Allowed, Rising;
    match e
    case ImmediateFired(id, _) => PlacesFired(fired, cleared, t, e, h);
    case ImmediateCleared(id) => PlacesCleared(fired, cleared, t, e, h);
    case ImmediateSet(_) =>
    case CheckBegan(_) => assert t.due == [] by { PhaseBegins(t, e); }
    case _ =>
      NotImmediates(t, e);
      hide Next;
  }

  lemma PhaseBegins(t: Turn, e: Event)
    requires Allowed(t, e) && e.CheckBegan?
    ensures t.stage == Timing
  {
  }

  lemma PlacesFired(fired: seq<nat>, cleared: seq<nat>, t: Turn, e: Event, h: nat)
    requires Allowed(t, e) && e.ImmediateFired?
    ensures Places(fired + Fires(e), cleared + Clears(e), Next(t, e), h) == Places(fired, cleared, t, h)
  {
    assert t.due == [e.id] + t.due[1..];
  }

  lemma PlacesCleared(fired: seq<nat>, cleared: seq<nat>, t: Turn, e: Event, h: nat)
    requires Lined(fired, t) && Allowed(t, e) && e.ImmediateCleared?
    ensures Places(fired + Fires(e), cleared + Clears(e), Next(t, e), h) == Places(fired, cleared, t, h)
  {
    RisingParts(fired, t.due + t.later);
    RisingParts(t.due, t.later);
    hide Rising, Lined;
    WithoutCount(t.due, e.id, h);
    WithoutCount(t.later, e.id, h);
  }

  lemma {:induction false} WithoutCount(s: seq<nat>, x: nat, h: nat)
    requires Rising(s)
    ensures multiset(Without(s, x))[h] == if h == x then 0 else multiset(s)[h]
    ensures multiset(s)[x] == if x in s then 1 else 0
  {
    if s != [] {
      var front := s[..|s| - 1];
      assert s == front + [s[|s| - 1]];
      assert s[|s| - 1] !in front;
      WithoutCount(front, x, h);
    }
  }

  /** What is left of `s` without the handles in `cleared`. */
  ghost function Kept(s: seq<nat>, cleared: seq<nat>): seq<nat> {
    if s == [] then []
    else Kept(s[..|s| - 1], cleared) + if s[|s| - 1] in cleared then [] else [s[|s| - 1]]
  }

  /** A check phase as far as it has got: those it still has to run complete those it has run. */
  ghost predicate UpTo(later: seq<nat>, fired: seq<nat>, cleared: seq<nat>, t: Turn) {
    t.stage == Checking && Kept(later, cleared) == fired + t.due
  }

  lemma {:induction false} PhaseSoFar(log: seq<Event>, waiting: nat, phase: seq<Event>)
    requires Orderly(log + [CheckBegan(waiting)] + phase) && CheckEnded !in phase
    ensures Orderly(log)
    ensures UpTo(After(log).later, FiredIds(phase), ClearedIds(phase), After(log + [CheckBegan(waiting)] + phase))
    ensures FiredIds(log + [CheckBegan(waiting)] + phase) == FiredIds(log) + FiredIds(phase)
    decreases |phase|
  {
    var begun := log + [CheckBegan(waiting)];
    hide After, Orderly, FiredIds, ClearedIds, UpTo, Lined, Allowed;
    Extended(log, CheckBegan(waiting));
    if phase == [] {
      assert begun + phase == begun && FiredIds(log) + [] == FiredIds(log);
      PhaseOpens(After(log), waiting);
    } else {
      var was, e := phase[..|phase| - 1], phase[|phase| - 1];
      assert begun + phase == begun + was + [e] && was + [e] == phase;
      Extended(begun + was, e);
      Extended(was, e);
      assert e in phase && CheckEnded !in was;
      PhaseSoFar(log, waiting, was);
      RunsInOrder(begun + was);
      assert FiredIds(log) + FiredIds(was) + Fires(e) == FiredIds(log) + (FiredIds(was) + Fires(e));
      PhaseStep(After(log).later, FiredIds(log), FiredIds(was), ClearedIds(was), After(begun + was), e);
    }
  }

  lemma PhaseOpens(t: Turn, waiting: nat)
    ensures FiredIds([]) == [] && ClearedIds([]) == [] && UpTo(t.later, [], [], Next(t, CheckBegan(waiting)))
  {
    KeptAll(t.later);
  }

  lemma PhaseStep(later: seq<nat>, before: seq<nat>, fired: seq<nat>, cleared: seq<nat>, t: Turn, e: Event)
    requires Lined(before + fired, t) && Allowed(t, e) && e != CheckEnded && UpTo(later, fired, cleared, t)
    ensures UpTo(later, fired + Fires(e), cleared + Clears(e), Next(t, e))
  {
    assert fired + [] == fired && cleared + [] == cleared;
    match e
    case ImmediateFired(id, _) =>
      hide Lined;
      assert t.due == [id] + t.due[1..];
      assert fired + [id] + t.due[1..] == fired + t.due;
    case ImmediateCleared(id) =>
      LineCleared(before + fired, t.due, t.later, id);
      hide Lined, Kept;
      KeptOne(later, cleared, id);
      WithoutConcat(fired, t.due, id);
      WithoutAbsent(fired, id);
    case _ =>
  }

  lemma {:induction false} KeptAll(s: seq<nat>)
    ensures Kept(s, []) == s
  {
    if s != [] { KeptAll(s[..|s| - 1]); }
  }

  lemma {:induction false} KeptOne(s: seq<nat>, cleared: seq<nat>, id: nat)
    ensures Kept(s, cleared + [id]) == Without(Kept(s, cleared), id)
  {
    if s != [] {
      var last := s[|s| - 1];
      KeptOne(s[..|s| - 1], cleared, id);
      WithoutConcat(Kept(s[..|s| - 1], cleared), if last in cleared then [] else [last], id);
    }
  }

  lemma {:induction false} KeptIs(s: seq<nat>, cleared: seq<nat>)
    ensures forall h :: h in Kept(s, cleared) <==> h in s && h !in cleared
  {
    if s != [] {
      KeptIs(s[..|s| - 1], cleared);
      assert s == s[..|s| - 1] + [s[|s| - 1]];
    }
  }

  lemma {:induction false} OrderlyPrefix(log: seq<Event>, more: seq<Event>)
    requires Orderly(log + more)
    ensures Orderly(log)
    decreases |more|
  {
    if more == [] {
      assert log + more == log;
    } else {
      assert (log + more)[..|log + more| - 1] == log + more[..|more| - 1];
      OrderlyPrefix(log, more[..|more| - 1]);
    }
  }

  /** A check phase runs, in order and once each, exactly the immediates set before it that had neither run nor been
      cleared, less those cleared while it ran. Whatever is set while it runs waits. */
  lemma PhaseIsExact(log: seq<Event>, waiting: nat, phase: seq<Event>)
    requires Orderly(log + [CheckBegan(waiting)] + phase + [CheckEnded]) && CheckEnded !in phase
    ensures FiredIds(phase) == Kept(After(log).later, ClearedIds(phase))
    ensures forall h :: h in FiredIds(phase) <==>
      ImmediateSet(h) in log && h !in FiredIds(log) && h !in ClearedIds(log) && h !in ClearedIds(phase)
  {
    hide Kept, After, Orderly, FiredIds, ClearedIds, Lined;
    var begun := log + [CheckBegan(waiting)];
    Extended(begun + phase, CheckEnded);
    PhaseSoFar(log, waiting, phase);
    assert UpTo(After(log).later, FiredIds(phase), ClearedIds(phase), After(begun + phase));
    assert FiredIds(phase) + [] == FiredIds(phase);
    KeptIs(After(log).later, ClearedIds(phase));
    forall h ensures h in After(log).later <==> ImmediateSet(h) in log && h !in FiredIds(log) && h !in ClearedIds(log) {
      EveryHandleOnce(log, h);
      BetweenPhases(log, waiting, phase);
      LaterOnly(FiredIds(log), ClearedIds(log), After(log), h);
    }
  }

  lemma BetweenPhases(log: seq<Event>, waiting: nat, phase: seq<Event>)
    requires Orderly(log + [CheckBegan(waiting)] + phase)
    ensures Orderly(log) && After(log).due == []
  {
    hide FiredIds, ClearedIds;
    OrderlyPrefix(log + [CheckBegan(waiting)], phase);
    Extended(log, CheckBegan(waiting));
    RunsInOrder(log);
  }

  lemma LaterOnly(fired: seq<nat>, cleared: seq<nat>, t: Turn, h: nat)
    requires t.due == [] && Places(fired, cleared, t, h) == if 1 <= h <= t.last then 1 else 0
    ensures h in t.later <==> 1 <= h <= t.last && h !in fired && h !in cleared
  {
    assert h in multiset(fired) <==> h in fired;
    assert h in multiset(cleared) <==> h in cleared;
    assert h in multiset(t.later) <==> h in t.later;
  }

  // Timers --------------------------------------------------------------------------------------------------

  /** No timer that waits was cleared. */
  ghost predicate NoneGone(t: Turn) {
    forall u :: u in t.armed ==> u.id == 0 || u.id !in t.gone
  }

  lemma {:induction false} ArmedNotCleared(log: seq<Event>)
    requires Orderly(log)
    ensures NoneGone(After(log))
  {
    if log != [] {
      ArmedNotCleared(log[..|log| - 1]);
      ArmedStep(After(log[..|log| - 1]), log[|log| - 1]);
    }
  }

  lemma ArmedStep(t: Turn, e: Event)
    requires NoneGone(t) && Allowed(t, e)
    ensures NoneGone(Next(t, e)) && t.gone <= Next(t, e).gone
  {
    var n := Next(t, e);
    forall u | u in n.armed ensures u.id == 0 || u.id !in n.gone {
      match e
      case TimerArmed(timer) => assert u in t.armed || u == timer;
      case TimerMoved(timer, to) => assert u in t.armed || u == to;
      case TimerDropped(timer) => assert u in t.armed;
      case TimerFired(timer, _) => assert u in t.armed;
      case _ =>
    }
  }

  ghost predicate ClearsTimer(e: Event, h: nat) {
    e == FiringCleared(h) || (e.TimerDropped? && e.timer.id == h)
  }

  lemma {:induction false} ClearedIsGone(log: seq<Event>, h: nat)
    requires Orderly(log) && exists e :: e in log && ClearsTimer(e, h)
    ensures h in After(log).gone
  {
    var was, e := log[..|log| - 1], log[|log| - 1];
    assert log == was + [e];
    ArmedNotCleared(was);
    ArmedStep(After(was), e);
    if !ClearsTimer(e, h) { ClearedIsGone(was, h); }
  }

  /** A timer that was cleared, be it by its own callback or while that of an interval runs, never fires again. */
  lemma {:induction false} ClearedNeverFires(log: seq<Event>, more: seq<Event>, h: nat)
    requires Orderly(log + more) && exists e :: e in log && ClearsTimer(e, h)
    ensures forall e :: e in more && e.TimerFired? ==> e.timer.id != h
    decreases |more|
  {
    if more != [] {
      hide Orderly, After, Allowed, NoneGone, ClearsTimer;
      var was, e := more[..|more| - 1], more[|more| - 1];
      assert log + more == log + was + [e] && more == was + [e];
      Extended(log + was, e);
      ClearedNeverFires(log, was, h);
      var c :| c in log && ClearsTimer(c, h);
      assert c in log + was;
      ClearedIsGone(log + was, h);
      ArmedNotCleared(log + was);
      ClearedIsNotZero(log + was, c, h);
      NotFired(After(log + was), e, h);
    }
  }

  lemma NotFired(t: Turn, e: Event, h: nat)
    requires NoneGone(t) && Allowed(t, e) && h in t.gone && h != 0
    ensures e.TimerFired? ==> e.timer.id != h
  {
  }

  lemma {:induction false} ClearedIsNotZero(log: seq<Event>, c: Event, h: nat)
    requires Orderly(log) && c in log && ClearsTimer(c, h)
    ensures h != 0
  {
    if c != log[|log| - 1] {
      assert log == log[..|log| - 1] + [log[|log| - 1]];
      ClearedIsNotZero(log[..|log| - 1], c, h);
    }
  }

  /** Timers fire in the order they are due, those with equal deadlines in the order they were armed: when one fires,
      whichever others wait come after it. */
  lemma EarliestFires(log: seq<Event>, timer: Timer, waiting: nat, other: Timer)
    requires Orderly(log + [TimerFired(timer, waiting)]) && other in After(log).armed && other != timer
    ensures timer in After(log).armed && timer.deadline <= After(log).now
    ensures timer.deadline < other.deadline || (timer.deadline == other.deadline && timer.seqno < other.seqno)
  {
    hide Orderly, After, Next, FiredIds, ClearedIds, WakesAt, NoneDue;
    Extended(log, TimerFired(timer, waiting));
  }

  // Ticks and promise jobs ----------------------------------------------------------------------------------

  /** The ticks waiting and the fibers ready, in line. While `ticking`, the ticks have their turn at a checkpoint, and
      otherwise the promise jobs; during a check phase jobs run between the immediates. */
  datatype Line = Line(ticks: seq<int>, ready: seq<nat>, ticking: bool, checking: bool)

  const START := Line([], [], false, false)

  ghost function NextLine(l: Line, e: Event): Line {
    match e
    case TickSet(cb) => l.(ticks := l.ticks + [cb])
    case FiberWoken(f) => l.(ready := l.ready + [f])
    case TickRan(_) => l.(ticks := if l.ticks == [] then [] else l.ticks[1..], ticking := true)
    case JobRan(_) => l.(ready := if l.ready == [] then [] else l.ready[1..], ticking := l.ticking && l.checking)
    case CheckBegan(_) => l.(checking := true)
    case CheckSkipped(_) => l.(ticking := true)
    case CheckEnded => l.(ticking := true, checking := false)
    case _ => l
  }

  /** First in line goes first. Ticks and jobs take turns at a checkpoint, each until none is left, and the loop sleeps
      when neither is. What else runs says how many fibers were ready. */
  ghost predicate MayRun(l: Line, e: Event) {
    match e
    case TickRan(cb) => l.ticks != [] && cb == l.ticks[0] && (l.ticking || l.ready == [])
    case JobRan(f) => l.ready != [] && f == l.ready[0] && (l.checking || !l.ticking || l.ticks == [])
    case Slept(_, _) => l.ticks == [] && l.ready == []
    case TimerFired(_, waiting) => waiting == |l.ready|
    case CheckBegan(waiting) => waiting == |l.ready|
    case CheckSkipped(waiting) => waiting == |l.ready|
    case ImmediateFired(_, waiting) => waiting == |l.ready|
    case _ => true
  }

  ghost function LineAfter(log: seq<Event>): Line {
    if log == [] then START else NextLine(LineAfter(log[..|log| - 1]), log[|log| - 1])
  }

  ghost predicate InLine(log: seq<Event>) {
    log == [] || (InLine(log[..|log| - 1]) && MayRun(LineAfter(log[..|log| - 1]), log[|log| - 1]))
  }

  /** The log keeps the lines, and they stand like this. */
  ghost predicate LineOk(log: seq<Event>, l: Line) {
    InLine(log) && LineAfter(log) == l
  }

  lemma LineNext(log: seq<Event>, l: Line, e: Event)
    requires LineOk(log, l) && MayRun(l, e)
    ensures LineOk(log + [e], NextLine(l, e))
  {
    assert (log + [e])[..|log|] == log;
  }

  ghost function SetsTick(e: Event): seq<int> {
    match e case TickSet(cb) => [cb] case _ => []
  }

  ghost function RunsTick(e: Event): seq<int> {
    match e case TickRan(cb) => [cb] case _ => []
  }

  ghost function WakesFiber(e: Event): seq<nat> {
    match e case FiberWoken(f) => [f] case _ => []
  }

  ghost function RunsJob(e: Event): seq<nat> {
    match e case JobRan(f) => [f] case _ => []
  }

  ghost function TicksSet(log: seq<Event>): seq<int> {
    if log == [] then [] else TicksSet(log[..|log| - 1]) + SetsTick(log[|log| - 1])
  }

  ghost function TicksRan(log: seq<Event>): seq<int> {
    if log == [] then [] else TicksRan(log[..|log| - 1]) + RunsTick(log[|log| - 1])
  }

  ghost function FibersWoken(log: seq<Event>): seq<nat> {
    if log == [] then [] else FibersWoken(log[..|log| - 1]) + WakesFiber(log[|log| - 1])
  }

  ghost function JobsRan(log: seq<Event>): seq<nat> {
    if log == [] then [] else JobsRan(log[..|log| - 1]) + RunsJob(log[|log| - 1])
  }

  /** Over the whole run ticks run in the order they were set and fibers resume in the order they were woken; those that
      have not are still in line. */
  lemma {:induction false} ServedInOrder(log: seq<Event>)
    requires InLine(log)
    ensures TicksSet(log) == TicksRan(log) + LineAfter(log).ticks
    ensures FibersWoken(log) == JobsRan(log) + LineAfter(log).ready
  {
    if log != [] {
      var was, e := log[..|log| - 1], log[|log| - 1];
      ServedInOrder(was);
      var l := LineAfter(was);
      ServedNext(l, e);
      Served(log);
      hide MayRun, NextLine, SetsTick, RunsTick, WakesFiber, RunsJob, TicksSet, TicksRan, FibersWoken, JobsRan, InLine;
      LineMoves(TicksSet(was), TicksRan(was), l.ticks, SetsTick(e), RunsTick(e), NextLine(l, e).ticks);
      LineMoves(FibersWoken(was), JobsRan(was), l.ready, WakesFiber(e), RunsJob(e), NextLine(l, e).ready);
    }
  }

  lemma LineMoves<T>(came: seq<T>, went: seq<T>, line: seq<T>, comes: seq<T>, goes: seq<T>, rest: seq<T>)
    requires came == went + line && line + comes == goes + rest
    ensures came + comes == went + goes + rest
  {
    assert went + line + comes == went + (line + comes);
    assert went + (goes + rest) == went + goes + rest;
  }

  lemma Served(log: seq<Event>)
    requires log != []
    ensures var was, e := log[..|log| - 1], log[|log| - 1];
      && TicksSet(log) == TicksSet(was) + SetsTick(e) && TicksRan(log) == TicksRan(was) + RunsTick(e)
      && FibersWoken(log) == FibersWoken(was) + WakesFiber(e) && JobsRan(log) == JobsRan(was) + RunsJob(e)
  {
  }

  lemma ServedNext(l: Line, e: Event)
    requires MayRun(l, e)
    ensures l.ticks + SetsTick(e) == RunsTick(e) + NextLine(l, e).ticks
    ensures l.ready + WakesFiber(e) == RunsJob(e) + NextLine(l, e).ready
  {
  }

  /** After the timers, or after a check phase, the first promise job finds every tick done that was ever set. */
  lemma {:induction false} TicksBeforeJobs(log: seq<Event>, e: Event, rest: seq<Event>, f: nat)
    requires InLine(log + [e] + rest + [JobRan(f)]) && (e == CheckEnded || e.CheckSkipped?)
    requires !LineAfter(log).checking || e == CheckEnded
    requires forall r :: r in rest ==> !r.JobRan? && !r.CheckBegan?
    ensures TicksRan(log + [e] + rest) == TicksSet(log + [e] + rest)
  {
    var all := log + [e] + rest;
    StillTicking(log, e, rest);
    assert (all + [JobRan(f)])[..|all|] == all;
    ServedInOrder(all);
  }

  lemma {:induction false} StillTicking(log: seq<Event>, e: Event, rest: seq<Event>)
    requires (e == CheckEnded || e.CheckSkipped?) && (!LineAfter(log).checking || e == CheckEnded)
    requires forall r :: r in rest ==> !r.JobRan? && !r.CheckBegan?
    ensures LineAfter(log + [e] + rest).ticking && !LineAfter(log + [e] + rest).checking
    decreases |rest|
  {
    hide LineAfter;
    if rest == [] {
      assert log + [e] + rest == log + [e];
      LineExtended(log, e);
    } else {
      var front, r := rest[..|rest| - 1], rest[|rest| - 1];
      StillTicking(log, e, front);
      assert log + [e] + rest == log + [e] + front + [r] && r in rest;
      LineExtended(log + [e] + front, r);
    }
  }

  lemma LineExtended(log: seq<Event>, e: Event)
    ensures LineAfter(log + [e]) == NextLine(LineAfter(log), e)
  {
    assert (log + [e])[..|log|] == log;
  }

  /** A tick after a promise job finds every job done that was ever woken, and a sleep finds both lines empty. */
  lemma JobsBeforeTicks(log: seq<Event>, e: Event)
    requires InLine(log + [e]) && (e.Slept? || (e.TickRan? && !LineAfter(log).ticking))
    ensures JobsRan(log) == FibersWoken(log) && (e.Slept? ==> TicksRan(log) == TicksSet(log))
  {
    assert (log + [e])[..|log|] == log;
    ServedInOrder(log);
  }
}
