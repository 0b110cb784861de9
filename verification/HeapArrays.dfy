/** Relative index arguments of the array methods. Indices arrive as doubles; lengths are exact in them. */
module ArrayIndex {
  datatype Num = NaN | MinusInfinity | PlusInfinity | Finite(r: real)

  /** C's `trunc` on a finite value. */
  function Trunc(r: real): (n: int)
    ensures r >= 0.0 ==> n as real <= r < n as real + 1.0
    ensures r <= 0.0 ==> n as real - 1.0 < r <= n as real
  {
    if r >= 0.0 then r.Floor else -((-r).Floor)
  }

  /** An element index: integral, not negative, below the limit; anything else traps. */
  predicate Valid(i: Num, limit: nat): (ok: bool)
    ensures ok <==> i.Finite? && 0.0 <= i.r < limit as real && i.r.Floor as real == i.r
  {
    i.Finite? && i.r >= 0.0 && Trunc(i.r) as real == i.r && Trunc(i.r) < limit
  }

  /** A `start` argument, counted from the end when negative and clamped to the array. */
  function From(start: Num, len: nat): (k: nat)
    ensures k <= len
    ensures start.Finite? && 0.0 <= start.r < len as real ==> k == Trunc(start.r)
    ensures start.Finite? && -(len as real) <= start.r <= -1.0 ==> len - k == -Trunc(start.r)
    ensures start.Finite? && -1.0 < start.r <= 0.0 ==> k == 0
    ensures (start.Finite? && start.r >= len as real) || start.PlusInfinity? ==> k == len
    ensures (start.Finite? && start.r < -(len as real)) || start.MinusInfinity? || start.NaN? ==> k == 0
  {
    match start
    case NaN => 0
    case MinusInfinity => 0
    case PlusInfinity => len
    case Finite(r) =>
      var s := if Trunc(r) < 0 then Trunc(r) + len else Trunc(r);
      if s <= 0 then 0 else if s >= len then len else s
  }

  /** A delete count, clamped to what is available. */
  function Count(n: Num, avail: nat): (k: nat)
    ensures k <= avail
    ensures n.Finite? && 0.0 <= n.r < avail as real ==> k == Trunc(n.r)
    ensures (n.Finite? && n.r >= avail as real) || n.PlusInfinity? ==> k == avail
    ensures (n.Finite? && n.r <= 0.0) || n.MinusInfinity? || n.NaN? ==> k == 0
  {
    match n
    case NaN => 0
    case MinusInfinity => 0
    case PlusInfinity => avail
    case Finite(r) => if Trunc(r) <= 0 then 0 else if Trunc(r) >= avail then avail else Trunc(r)
  }
}

/** Reference arrays on the collected heap: an array object's traced slots are its elements. */
module HeapArrays {
  import opened HeapGraph
  import opened CycleState
  import opened HeapState
  import opened CollectPhases
  import opened CycleCollector
  import opened ArrayIndex

  /** Everything but `a` owns what it owned, and the same objects are live. */
  ghost predicate OnlySlots(s: State, t: State, a: Id, slots: seq<Slot>) {
    a in s.traced && t.traced == s.traced[a := slots] && t.owned == s.owned && t.dying == s.dying && t.Act() == s.Act()
  }

  /** `scr_arr_push_ref`: the caller's reference moves into the array. */
  method Push(c: Collector, a: Id, v: Slot)
    requires Ok(c.St()) && a in c.traced && Holds(c.held, a, v)
    modifies c`traced, c`held
    ensures Ok(c.St()) && OnlySlots(old(c.St()), c.St(), a, old(c.traced)[a] + [v])
    ensures c.held == old(c.held) - OneBag(v)
  {
    hide Ok, Relinked, Holds, OneBag, Swapped;
    ghost var s := c.St();
    c.traced := c.traced[a := c.traced[a] + [v]];
    c.held := Swapped(c.held, v, Null);
    PushRelinks(s, c.St(), a, v);
    RelinkedOk(s, c.St(), a, s.traced[a] + [v]);
  }

  lemma PushRelinks(s: State, t: State, a: Id, v: Slot)
    requires Ok(s) && a in s.traced && Holds(s.held, a, v)
    requires t == s.(traced := s.traced[a := s.traced[a] + [v]], held := Swapped(s.held, v, Null))
    ensures Relinked(s, t, a, s.traced[a] + [v]) && t.held == s.held - OneBag(v)
  {
    hide Ok, Swapped, Holds, OneBag;
    SwappedCount(s.held, a, v, Null, a);
    HeldIsLive(s, a);
    forall m ensures t.held[m] + SlotCount(s.traced[a] + [v], m) == s.held[m] + SlotCount(s.traced[a], m) {
      SwappedCount(s.held, a, v, Null, m);
      SlotCountAppend(s.traced[a], v, m);
    }
    NothingGot(s.held, v);
  }

  lemma NothingGot(held: multiset<Id>, v: Slot)
    ensures Swapped(held, v, Null) == held - OneBag(v)
  {
  }

  /** `scr_arr_pop_ref`; the empty array traps. The element's reference moves out to the caller. */
  method Pop(c: Collector, a: Id) returns (r: Slot, trapped: bool)
    requires Ok(c.St()) && a in c.traced && a in c.held
    modifies c`traced, c`held
    ensures Ok(c.St()) && trapped == (old(c.traced)[a] == [])
    ensures trapped ==> c.St() == old(c.St())
    ensures !trapped ==> OnlySlots(old(c.St()), c.St(), a, c.traced[a]) && c.traced[a] + [r] == old(c.traced)[a]
    ensures c.held == if trapped then old(c.held) else old(c.held) + OneBag(r)
  {
    hide Ok, Relinked, OneBag;
    trapped := |c.traced[a]| == 0;
    r := Null;
    if trapped { return; }
    ghost var s := c.St();
    var n := |c.traced[a]| - 1;
    r := c.traced[a][n];
    c.traced := c.traced[a := c.traced[a][..n]];
    c.held := c.held + OneBag(r);
    assert s.traced[a][..n] + [] == s.traced[a][..n] && s.traced[a][n..] == [r];
    assert s.traced[a][..n] + s.traced[a][n+1..] == s.traced[a][..n];
    TakeOutRelinks(s, c.St(), a, n, r);
    RelinkedOk(s, c.St(), a, s.traced[a][..n]);
  }

  /** `scr_arr_shift_ref`: the first element moves out, the tail slides down. */
  method Shift(c: Collector, a: Id) returns (r: Slot, trapped: bool)
    requires Ok(c.St()) && a in c.traced && a in c.held
    modifies c`traced, c`held
    ensures Ok(c.St()) && trapped == (old(c.traced)[a] == [])
    ensures trapped ==> c.St() == old(c.St())
    ensures !trapped ==> OnlySlots(old(c.St()), c.St(), a, c.traced[a]) && [r] + c.traced[a] == old(c.traced)[a]
    ensures c.held == if trapped then old(c.held) else old(c.held) + OneBag(r)
  {
    hide Ok, Relinked, OneBag;
    trapped := |c.traced[a]| == 0;
    r := Null;
    if trapped { return; }
    ghost var s := c.St();
    r := c.traced[a][0];
    c.traced := c.traced[a := c.traced[a][1..]];
    c.held := c.held + OneBag(r);
    assert s.traced[a][..0] + s.traced[a][1..] == s.traced[a][1..];
    TakeOutRelinks(s, c.St(), a, 0, r);
    RelinkedOk(s, c.St(), a, s.traced[a][1..]);
  }

  lemma TakeOutRelinks(s: State, t: State, a: Id, i: nat, r: Slot)
    requires Ok(s) && a in s.traced && a in s.held && i < |s.traced[a]| && s.traced[a][i] == r
    requires t == s.(traced := s.traced[a := s.traced[a][..i] + s.traced[a][i+1..]], held := s.held + OneBag(r))
    ensures Relinked(s, t, a, s.traced[a][..i] + s.traced[a][i+1..])
  {
    HeldIsLive(s, a);
    hide Ok;
    forall m
      ensures t.held[m] + SlotCount(s.traced[a][..i] + s.traced[a][i+1..], m) == s.held[m] + SlotCount(s.traced[a], m)
    {
      SlotCountStep(s.traced[a], i, m);
      SlotCountConcat(s.traced[a][..i], s.traced[a][i+1..], m);
      assert OneBag(r)[m] == OneSlot(r, m);
    }
  }

  /** `scr_arr_set_ref`: appends at the end, overwrites below it (releasing what was there), traps elsewhere. */
  method Set(c: Collector, a: Id, i: Num, v: Slot) returns (trapped: bool)
    requires Ok(c.St()) && a in c.traced && Holds(c.held, a, v)
    modifies c
    ensures Ok(c.St()) && trapped == !Valid(i, |old(c.traced)[a]| + 1)
    ensures trapped ==> c.St() == old(c.St())
    ensures !trapped ==> a in c.traced && c.held == old(c.held) - OneBag(v) && c.dying == old(c.dying)
    ensures !trapped ==> var k := Trunc(i.r); var was := old(c.traced)[a];
      c.traced[a] == if k == |was| then was + [v] else was[k := v]
    ensures forall m :: m in c.traced && m != a ==> m in old(c.traced) && c.traced[m] == old(c.traced)[m]
    ensures forall m :: m in c.owned ==> m in old(c.owned) && c.owned[m] == old(c.owned)[m]
  {
    hide Ok, Holds, OneBag;
    trapped := !Valid(i, |c.traced[a]| + 1);
    if trapped { return; }
    var k := Trunc(i.r);
    if k == |c.traced[a]| {
      Push(c, a, v);
    } else {
      c.SetSlot(a, k, v);
    }
  }

  /** `scr_arr_get_ref`: the element, retained. */
  method Get(c: Collector, a: Id, i: Num) returns (r: Slot, trapped: bool)
    requires Ok(c.St()) && a in c.traced && a in c.held
    modifies c`rc, c`color, c`held
    ensures Ok(c.St()) && trapped == !Valid(i, |c.traced[a]|)
    ensures !trapped ==> r == c.traced[a][Trunc(i.r)] && c.held == old(c.held) + OneBag(r)
    ensures trapped ==> c.St() == old(c.St())
  {
    hide Ok;
    trapped := !Valid(i, |c.traced[a]|);
    r := Null;
    if trapped { return; }
    r := c.traced[a][Trunc(i.r)];
    if r.Ref? {
      ElementIsLive(c.St(), a, Trunc(i.r));
      c.Retain(r.id);
    }
  }

  lemma ElementIsLive(s: State, a: Id, i: nat)
    requires Ok(s) && a in s.traced && a in s.held && i < |s.traced[a]| && s.traced[a][i].Ref?
    ensures s.traced[a][i].id in s.Act()
  {
    HeldIsLive(s, a);
    hide Covered, Exact;
  }

  // ---------------------------------------------------------------------------------------------------------
  // splice

  /** `scr_arr_splice`: the removed run moves, in order and without touching a count, into the fresh array `out`; the
      tail slides down. */
  method Splice(c: Collector, a: Id, start: Num, deleteCount: Num, out: Id) returns (ghost from: nat, ghost n: nat)
    requires Ok(c.St()) && a in c.traced && a in c.held && out !in c.rc
    modifies c
    ensures Ok(c.St()) && out in c.traced && a in c.traced && c.held == old(c.held) + multiset{out}
    ensures var was := old(c.traced)[a];
      from == From(start, |was|) && n == Count(deleteCount, |was| - from) && from + n <= |was|
      && c.traced[out] == was[from..from+n] && c.traced[a] == was[..from] + was[from+n..]
    ensures c.traced == old(c.traced)[out := c.traced[out]][a := c.traced[a]] && c.dying == old(c.dying)
    ensures c.rc == old(c.rc)[out := 1]
  {
    hide Ok, Relinked, From, Count, OkBut;
    var len := |c.traced[a]|;
    var lo := From(start, len);
    var cut := Count(deleteCount, len - lo);
    from, n := lo, cut;
    ghost var was := c.traced[a];
    assert a != out by { HeldIsLive(c.St(), a); OkShape(c.St()); }
    c.Alloc(out);
    ghost var s := c.St();
    if cut > 0 {
      c.traced := c.traced[out := c.traced[a][lo..lo+cut]];
      c.traced := c.traced[a := c.traced[a][..lo] + c.traced[a][lo+cut..]];
      MoveRunOk(s, c.St(), a, out, lo, cut);
    } else {
      assert was[..lo] + was[lo+cut..] == was;
      assert s.traced[out := []][a := was] == s.traced;
    }
  }

  lemma OkShape(s: State)
    requires Ok(s)
    ensures Shape(s)
  {
  }

  lemma MoveRunOk(s: State, t: State, a: Id, out: Id, from: nat, n: nat)
    requires Ok(s) && a in s.traced && out in s.traced && a != out && a in s.held && out in s.held
    requires s.traced[out] == [] && from + n <= |s.traced[a]|
    requires t == s.(traced := s.traced[out := s.traced[a][from..from+n]]
                                       [a := s.traced[a][..from] + s.traced[a][from+n..]])
    ensures Ok(t)
  {
    hide Ok, Relinked;
    var run, rest := s.traced[a][from..from+n], s.traced[a][..from] + s.traced[a][from+n..];
    var mid := s.(traced := s.traced[a := rest], held := s.held + SlotBag(run));
    RunOut(s, mid, a, from, n);
    RelinkedOk(s, mid, a, rest);
    RunIn(mid, t, out, run, s.held);
    RelinkedOk(mid, t, out, run);
  }

  lemma RunOut(s: State, t: State, a: Id, from: nat, n: nat)
    requires Ok(s) && a in s.traced && a in s.held && from + n <= |s.traced[a]|
    requires t == s.(traced := s.traced[a := s.traced[a][..from] + s.traced[a][from+n..]],
                     held := s.held + SlotBag(s.traced[a][from..from+n]))
    ensures Relinked(s, t, a, s.traced[a][..from] + s.traced[a][from+n..])
  {
    HeldIsLive(s, a);
    hide Ok;
    var x, y, z := s.traced[a][..from], s.traced[a][from..from+n], s.traced[a][from+n..];
    assert s.traced[a] == x + y + z;
    forall m ensures t.held[m] + SlotCount(x + z, m) == s.held[m] + SlotCount(s.traced[a], m) {
      SlotBagCount(y, m);
      SlotCountConcat(x, z, m);
      SlotCountConcat(x, y, m);
      SlotCountConcat(x + y, z, m);
    }
  }

  lemma RunIn(s: State, t: State, out: Id, run: seq<Slot>, held: multiset<Id>)
    requires Ok(s) && out in s.traced && s.traced[out] == [] && out in held && s.held == held + SlotBag(run)
    requires t == s.(traced := s.traced[out := run], held := held)
    ensures Relinked(s, t, out, run)
  {
    HeldIsLive(s, out);
    hide Ok;
    forall m ensures t.held[m] + SlotCount(run, m) == s.held[m] + SlotCount(s.traced[out], m) {
      SlotBagCount(run, m);
    }
  }

  // ---------------------------------------------------------------------------------------------------------
  // The copying methods

  /** Retains one element into the copy. */
  method CopySlot(c: Collector, out: Id, slot: Slot)
    requires Ok(c.St()) && out in c.traced && out in c.held && (slot.Ref? ==> slot.id in c.St().Act())
    modifies c`rc, c`color, c`held, c`traced
    ensures Ok(c.St()) && OnlySlots(old(c.St()), c.St(), out, old(c.traced)[out] + [slot])
    ensures c.held == old(c.held)
  {
    hide Ok, Holds;
    ghost var h := c.held;
    if slot.Ref? {
      c.Retain(slot.id);
    }
    CopyHolds(h, out, slot);
    Push(c, out, slot);
  }

  lemma CopyHolds(h: multiset<Id>, out: Id, slot: Slot)
    requires out in h
    ensures Holds(h + OneBag(slot), out, slot) && h + OneBag(slot) - OneBag(slot) == h
    ensures !slot.Ref? ==> h + OneBag(slot) == h
  {
  }

  /** Copies a run of `a`'s elements to the end of `out`, retaining each. */
  method CopyRun(c: Collector, a: Id, lo: nat, hi: nat, out: Id)
    requires Ok(c.St()) && a in c.traced && a in c.held && out in c.traced && out in c.held && a != out
    requires lo <= hi <= |c.traced[a]|
    modifies c`rc, c`color, c`held, c`traced
    ensures Ok(c.St()) && c.held == old(c.held)
    ensures OnlySlots(old(c.St()), c.St(), out, old(c.traced)[out] + old(c.traced)[a][lo..hi])
  {
    hide Ok;
    ghost var was, dst := c.traced[a], c.traced[out];
    var i := lo;
    assert dst + was[lo..lo] == dst;
    assert c.traced[out := dst] == c.traced;
    while i < hi
      invariant lo <= i <= hi && Ok(c.St()) && c.held == old(c.held)
      invariant OnlySlots(old(c.St()), c.St(), out, dst + was[lo..i])
    {
      if c.traced[a][i].Ref? { ElementIsLive(c.St(), a, i); }
      CopySlot(c, out, c.traced[a][i]);
      assert dst + was[lo..i+1] == dst + was[lo..i] + [was[i]];
      i := i + 1;
    }
  }

  /** `scr_arr_slice`: a shallow copy of the index range, every element retained. */
  method Slice(c: Collector, a: Id, start: Num, end: Num, out: Id)
    requires Ok(c.St()) && a in c.traced && a in c.held && out !in c.rc
    modifies c
    ensures Ok(c.St()) && a in old(c.traced) && c.held == old(c.held) + multiset{out}
    ensures var was := old(c.traced)[a]; var from, to := From(start, |was|), From(end, |was|);
      c.traced == old(c.traced)[out := if from < to then was[from..to] else []]
    ensures c.dying == old(c.dying) && c.owned == old(c.owned)[out := []]
  {
    hide Ok;
    var len := |c.traced[a]|;
    var from := From(start, len);
    var to := From(end, len);
    assert a != out by { HeldIsLive(c.St(), a); OkShape(c.St()); }
    c.Alloc(out);
    if to > from {
      CopyRun(c, a, from, to, out);
      assert [] + old(c.traced)[a][from..to] == old(c.traced)[a][from..to];
    }
  }

  /** `t` is `s` with the fresh object `out` owning `slots`. */
  ghost predicate WithFresh(s: State, t: State, out: Id, slots: seq<Slot>) {
    && out !in s.traced && t.traced == s.traced[out := slots] && t.dying == s.dying
    && (forall m :: m in s.traced ==> m in t.traced && t.traced[m] == s.traced[m])
  }

  lemma AllocatedSlots(s: State, t: State, out: Id)
    requires Ok(s) && out !in s.rc && t == Allocated(s, out)
    ensures forall m :: m in s.traced ==> m in t.traced && t.traced[m] == s.traced[m]
    ensures WithFresh(s, t, out, []) && out in t.traced && t.traced[out] == [] && t.held == s.held + multiset{out}
  {
    OkShape(s);
  }

  lemma OthersKept(s: State, t: State, u: State, out: Id, slots: seq<Slot>)
    requires out in t.traced && WithFresh(s, t, out, t.traced[out]) && OnlySlots(t, u, out, slots)
    ensures WithFresh(s, u, out, slots) && out in u.traced && u.traced[out] == slots
    ensures forall m :: m in s.traced ==> m in u.traced && u.traced[m] == s.traced[m]
  {
  }

  /** `scr_arr_to_spliced`: what splicing would leave, with the items in the gap, as a fresh retained copy. */
  method ToSpliced(c: Collector, a: Id, start: Num, deleteCount: Num, items: Id, out: Id)
    returns (ghost from: nat, ghost n: nat)
    requires Ok(c.St()) && a in c.traced && a in c.held && items in c.traced && items in c.held && out !in c.rc
    modifies c
    ensures Ok(c.St()) && c.held == old(c.held) + multiset{out}
    ensures var was := old(c.traced)[a];
      from == From(start, |was|) && n == Count(deleteCount, |was| - from) && from + n <= |was|
      && c.traced == old(c.traced)[out := was[..from] + old(c.traced)[items] + was[from+n..]]
    ensures c.dying == old(c.dying)
  {
    hide Ok, OnlySlots, From, Count, Allocated, OkBut;
    var len := |c.traced[a]|;
    var lo := From(start, len);
    var cut := Count(deleteCount, len - lo);
    from, n := lo, cut;
    assert a != out && items != out by { HeldIsLive(c.St(), a); HeldIsLive(c.St(), items); OkShape(c.St()); }
    ghost var was, its := c.traced[a], c.traced[items];
    ghost var s0 := c.St();
    c.Alloc(out);
    ghost var s1 := c.St();
    AllocatedSlots(s0, s1, out);
    CopyRun(c, a, 0, lo, out);
    ghost var s2 := c.St();
    assert s1.traced[out] + was[0..lo] == was[0..lo];
    OthersKept(s0, s1, s2, out, was[0..lo]);
    CopyRun(c, items, 0, |c.traced[items]|, out);
    ghost var s3 := c.St();
    OthersKept(s0, s2, s3, out, was[0..lo] + its[0..|its|]);
    CopyRun(c, a, lo + cut, len, out);
    OthersKept(s0, s3, c.St(), out, was[0..lo] + its[0..|its|] + was[lo+cut..len]);
    SplicedRuns(was, its, lo, cut);
  }

  lemma SplicedRuns(was: seq<Slot>, its: seq<Slot>, from: nat, n: nat)
    requires from + n <= |was|
    ensures was[0..from] + its[0..|its|] + was[from+n..|was|] == was[..from] + its + was[from+n..]
  {
    assert was[0..from] == was[..from] && its[0..|its|] == its && was[from+n..|was|] == was[from+n..];
  }

  /** Which indices `with` takes: none of an empty array, and otherwise whatever counts to an element from either end
      after dropping the fraction. */
  predicate InReach(i: Num, len: nat) {
    len > 0 && (i.NaN? || (i.Finite? && -(len as real) - 1.0 < i.r < len as real))
  }

  /** The index of `with`: counted from the end when negative, a range error when outside. */
  function WithIndex(i: Num, len: nat): (k: int)
    ensures -1 <= k < len
    ensures k >= 0 <==> InReach(i, len)
    ensures i.Finite? && 0.0 <= i.r < len as real ==> k == Trunc(i.r)
    ensures i.Finite? && -(len as real) - 1.0 < i.r <= -1.0 ==> k == len + Trunc(i.r)
    ensures i.NaN? || (i.Finite? && -1.0 < i.r <= 0.0) ==> k == if len > 0 then 0 else -1
  {
    match i
    case NaN => if len > 0 then 0 else -1
    case MinusInfinity => -1
    case PlusInfinity => -1
    case Finite(r) =>
      var actual := if Trunc(r) >= 0 then Trunc(r) else len + Trunc(r);
      if actual < 0 || actual >= len then -1 else actual
  }

  /** `scr_arr_with_ref`: a retained copy with one element replaced; `v` is borrowed and retained. */
  method With(c: Collector, a: Id, i: Num, v: Slot, out: Id) returns (ok: bool)
    requires Ok(c.St()) && a in c.traced && a in c.held && out !in c.rc && (v.Ref? ==> v.id in c.held)
    modifies c
    ensures Ok(c.St()) && ok == (WithIndex(i, |old(c.traced)[a]|) >= 0) && ok == InReach(i, |old(c.traced)[a]|)
    ensures !ok ==> c.St() == old(c.St())
    ensures ok ==> out in c.traced && c.traced[out] == old(c.traced)[a][WithIndex(i, |old(c.traced)[a]|) := v]
    ensures ok ==> c.held == old(c.held) + multiset{out}
    ensures forall m :: m in c.traced && m != out ==> m in old(c.traced) && c.traced[m] == old(c.traced)[m]
  {
    hide Ok, Holds, OneBag;
    var k := WithIndex(i, |c.traced[a]|);
    ok := k >= 0;
    if !ok { return; }
    assert a != out by { HeldIsLive(c.St(), a); OkShape(c.St()); }
    ghost var was := c.traced[a];
    Slice(c, a, Finite(0.0), PlusInfinity, out);
    assert c.traced[out] == was;
    ghost var h := c.held;
    if v.Ref? {
      HeldIsLive(c.St(), v.id);
      c.Retain(v.id);
      OneBagRef(v);
    }
    CopyHolds(h, out, v);
    c.SetSlot(out, k, v);
  }

  lemma OneBagRef(v: Slot)
    requires v.Ref?
    ensures OneBag(v) == multiset{v.id}
  {
  }

  /** Splicing loses nothing: the remainder around the removed run is the old array; and `toSpliced` is what `splice`
      leaves with the items inserted at the same index. */
  lemma SpliceRebuilds(was: seq<Slot>, from: nat, n: nat, items: seq<Slot>)
    requires from + n <= |was|
    ensures var rest := was[..from] + was[from+n..];
      && rest[..from] + was[from..from+n] + rest[from..] == was
      && was[..from] + items + was[from+n..] == rest[..from] + items + rest[from..]
  {
    var rest := was[..from] + was[from+n..];
    assert rest[..from] == was[..from] && rest[from..] == was[from+n..];
  }
}
