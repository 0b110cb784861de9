/** The timer queue: a binary min-heap in an array, ordered by deadline and, for equal deadlines, by arming order. */
module TimerOrder {
  datatype Timer = Timer(deadline: real, seqno: nat, cb: int, repeat: real, id: nat, reffed: bool, delay: real)

  predicate Before(a: Timer, b: Timer) {
    if a.deadline != b.deadline then a.deadline < b.deadline else a.seqno < b.seqno
  }

  function Parent(i: int): int {
    (i - 1) / 2
  }

  /** The entry at `i` does not belong above its parent. */
  ghost predicate Edge(h: seq<Timer>, i: int) {
    0 < i < |h| ==> !Before(h[i], h[Parent(i)])
  }

  ghost predicate Heap(h: seq<Timer>) {
    forall i :: 0 < i < |h| ==> Edge(h, i)
  }

  /** In order but for the edges into and out of `i`, where the children still respect the parent. */
  ghost predicate Loose(h: seq<Timer>, i: int) {
    && (forall k :: 0 < k < |h| && k != i && Parent(k) != i ==> Edge(h, k))
    && (forall k :: 0 < k < |h| && Parent(k) == i && i > 0 ==> !Before(h[k], h[Parent(i)]))
  }

  /** In order but for the edge into `i`. */
  ghost predicate LooseUp(h: seq<Timer>, i: int) {
    Loose(h, i) && forall k :: 0 < k < |h| && Parent(k) == i ==> Edge(h, k)
  }

  /** In order but for the edges out of `i`. */
  ghost predicate LooseDown(h: seq<Timer>, i: int) {
    Loose(h, i) && Edge(h, i)
  }

  function Swap(h: seq<Timer>, i: nat, j: nat): (r: seq<Timer>)
    requires i < |h| && j < |h|
    ensures |r| == |h|
  {
    h[i := h[j]][j := h[i]]
  }

  function RefCount(h: seq<Timer>): nat {
    if h == [] then 0 else RefCount(h[..|h| - 1]) + if h[|h| - 1].reffed then 1 else 0
  }

  lemma {:induction false} NoneReffed(h: seq<Timer>)
    ensures RefCount(h) == 0 <==> forall i :: 0 <= i < |h| ==> !h[i].reffed
  {
    if h != [] {
      NoneReffed(h[..|h| - 1]);
      assert forall i :: 0 <= i < |h| ==> i == |h| - 1 || h[..|h| - 1][i] == h[i];
    }
  }

  /** `r` holds the timers of `h`, in some order. */
  ghost predicate SameTimers(h: seq<Timer>, r: seq<Timer>) {
    multiset(h) == multiset(r) && RefCount(h) == RefCount(r)
  }

  lemma {:induction false} RefCountUpdate(h: seq<Timer>, i: nat, t: Timer)
    requires i < |h|
    ensures RefCount(h[i := t]) == RefCount(h) - (if h[i].reffed then 1 else 0) + (if t.reffed then 1 else 0)
  {
    if i == |h| - 1 {
      assert h[i := t][..|h| - 1] == h[..|h| - 1];
    } else {
      assert h[i := t][..|h| - 1] == h[..|h| - 1][i := t];
      RefCountUpdate(h[..|h| - 1], i, t);
    }
  }

  lemma RefCountPush(h: seq<Timer>, t: Timer)
    ensures RefCount(h + [t]) == RefCount(h) + (if t.reffed then 1 else 0)
  {
    assert (h + [t])[..|h|] == h;
  }

  lemma SwapSame(h: seq<Timer>, i: nat, j: nat)
    requires i < |h| && j < |h|
    ensures SameTimers(h, Swap(h, i, j))
  {
    RefCountUpdate(h, i, h[j]);
    RefCountUpdate(h[i := h[j]], j, h[i]);
  }

  lemma SwapUp(h: seq<Timer>, i: nat)
    requires 0 < i < |h| && Loose(h, i) && Before(h[i], h[Parent(i)])
    ensures LooseUp(Swap(h, i, Parent(i)), Parent(i))
  {
  }

  lemma UpDone(h: seq<Timer>, i: nat)
    requires i < |h| && LooseUp(h, i) && Edge(h, i)
    ensures Heap(h)
  {
    forall k | 0 < k < |h| ensures Edge(h, k) { if k != i && Parent(k) != i { assert Edge(h, k); } }
  }

  /** The least of `i` and its children. */
  ghost predicate Least(h: seq<Timer>, i: nat, m: nat) {
    && i < |h| && m < |h| && (m == i || (Parent(m) == i && m > 0))
    && (forall k :: 0 < k < |h| && Parent(k) == i ==> !Before(h[k], h[m])) && !Before(h[i], h[m])
  }

  lemma SwapDown(h: seq<Timer>, i: nat, m: nat)
    requires LooseDown(h, i) && Least(h, i, m) && m != i && Before(h[m], h[i])
    ensures LooseDown(Swap(h, i, m), m)
  {
  }

  lemma DownDone(h: seq<Timer>, i: nat)
    requires LooseDown(h, i) && Least(h, i, i)
    ensures Heap(h)
  {
    forall k | 0 < k < |h| ensures Edge(h, k) { if k != i && Parent(k) != i { assert Edge(h, k); } }
  }

  /** The root is least. */
  lemma {:induction false} RootLeast(h: seq<Timer>, i: nat)
    requires Heap(h) && i < |h|
    ensures !Before(h[i], h[0])
    ensures h[0].deadline < h[i].deadline || (h[0].deadline == h[i].deadline && h[0].seqno <= h[i].seqno)
  {
    if i > 0 {
      RootLeast(h, Parent(i));
      assert Edge(h, i);
    }
  }
}

module TimerHeap {
  import opened TimerOrder
  import opened ArrayIndex

  /** Armed timers have distinct arming numbers, all given out already, and distinct handles. */
  ghost predicate Stamped(b: multiset<Timer>, n: nat) {
    && (forall t :: t in b ==> b[t] == 1 && t.seqno < n)
    && (forall t, u :: t in b && u in b && t != u ==> t.seqno != u.seqno && (t.id != 0 ==> t.id != u.id))
  }

  /** No armed timer has this handle; 0 is nobody's handle. */
  ghost predicate Unused(b: multiset<Timer>, id: nat) {
    forall u :: u in b ==> id == 0 || u.id != id
  }

  /** The arming numbers of the timers due at `now`. */
  ghost function Due(b: multiset<Timer>, now: real): set<nat> {
    set t | t in b && t.deadline <= now :: t.seqno
  }

  lemma DueLess(b: multiset<Timer>, n: nat, now: real, t: Timer)
    requires Stamped(b, n) && t in b && t.deadline <= now
    ensures Due(b - multiset{t}, now) == Due(b, now) - {t.seqno} && t.seqno in Due(b, now)
  {
    assert t !in b - multiset{t};
    forall u | u in b && u != t ensures u in b - multiset{t} && u.seqno != t.seqno {}
  }

  /** A delay in whole milliseconds, at least 1; anything out of range is 1. */
  function Delay(ms: Num): (d: int)
    ensures 1 <= d <= 2147483647
    ensures ms.Finite? && 1.0 <= ms.r <= 2147483647.0 ==> d as real <= ms.r < d as real + 1.0
    ensures !(ms.Finite? && 1.0 <= ms.r <= 2147483647.0) ==> d == 1
  {
    match ms
    case NaN => 1
    case MinusInfinity => 1
    case PlusInfinity => 1
    case Finite(r) => if r < 1.0 then 1 else if r > 2147483647.0 then 1 else Trunc(r)
  }

  ghost function Bag(h: seq<Timer>): multiset<Timer> {
    multiset(h)
  }

  /** Replacing entry `i` by the last one, which is dropped. */
  ghost function Removed(h: seq<Timer>, i: nat): seq<Timer>
    requires i < |h|
  {
    h[i := h[|h| - 1]][..|h| - 1]
  }

  lemma RemovedSame(h: seq<Timer>, i: nat)
    requires i < |h|
    ensures Bag(Removed(h, i)) == Bag(h) - multiset{h[i]}
    ensures RefCount(Removed(h, i)) == RefCount(h) - if h[i].reffed then 1 else 0
    ensures h[i] in Bag(h) && (h[i].reffed ==> RefCount(h) > 0)
  {
    var n := |h| - 1;
    var g := h[i := h[n]];
    RefCountUpdate(h, i, h[n]);
    DropLast(g);
    ReplaceBag(h, i, h[n]);
    hide Bag, RefCount;
    Cancel(Bag(g), Bag(h), Bag(g[..n]), h[i], h[n]);
  }

  lemma ReplaceBag(h: seq<Timer>, i: nat, t: Timer)
    requires i < |h|
    ensures Bag(h[i := t]) == Bag(h) - multiset{h[i]} + multiset{t} && h[i] in Bag(h)
  {
  }

  lemma Cancel(g: multiset<Timer>, a: multiset<Timer>, b: multiset<Timer>, x: Timer, y: Timer)
    requires g == a - multiset{x} + multiset{y} && g == b + multiset{y}
    ensures b == a - multiset{x}
  {
    assert b == (b + multiset{y}) - multiset{y};
  }

  lemma DropLast(g: seq<Timer>)
    requires g != []
    ensures Bag(g) == Bag(g[..|g| - 1]) + multiset{g[|g| - 1]}
    ensures RefCount(g) == RefCount(g[..|g| - 1]) + if g[|g| - 1].reffed then 1 else 0
  {
    assert g == g[..|g| - 1] + [g[|g| - 1]];
    RefCountPush(g[..|g| - 1], g[|g| - 1]);
  }

  lemma RemovedLoose(h: seq<Timer>, i: nat)
    requires i < |h| && Heap(h)
    ensures i == |h| - 1 ==> Heap(Removed(h, i))
    ensures Loose(Removed(h, i), i)
    ensures i == 0 ==> LooseDown(Removed(h, i), 0)
  {
    var r := Removed(h, i);
    forall k | 0 < k < |r| ensures k != i && Parent(k) != i ==> Edge(r, k) { assert Edge(h, k); }
    forall k | 0 < k < |r| && Parent(k) == i && i > 0 ensures !Before(r[k], r[Parent(i)]) {
      assert Edge(h, k) && Edge(h, i);
    }
  }

  lemma PushedLoose(h: seq<Timer>, t: Timer)
    requires Heap(h)
    ensures LooseUp(h + [t], |h|) && Bag(h + [t]) == Bag(h) + multiset{t}
    ensures RefCount(h + [t]) == RefCount(h) + (if t.reffed then 1 else 0)
  {
    RefCountPush(h, t);
    forall k | 0 < k < |h| ensures Edge(h + [t], k) { assert Edge(h, k); }
  }

  lemma StampedSub(b: multiset<Timer>, n: nat, t: Timer)
    requires Stamped(b, n) && t in b
    ensures Stamped(b - multiset{t}, n) && t !in b - multiset{t}
  {
  }

  lemma StampedAdd(b: multiset<Timer>, n: nat, t: Timer)
    requires Stamped(b, n) && t.seqno == n && Unused(b, t.id)
    ensures Stamped(b + multiset{t}, n + 1)
  {
  }

  /** The root fires first: every other timer is due later, or at the same time but armed later. */
  lemma RootFirst(h: seq<Timer>, n: nat)
    requires h != [] && Heap(h) && Stamped(Bag(h), n)
    ensures forall u :: u in Bag(h) - multiset{h[0]} ==>
      Before(h[0], u) && (h[0].deadline < u.deadline || (h[0].deadline == u.deadline && h[0].seqno < u.seqno))
  {
    forall u | u in Bag(h) - multiset{h[0]}
      ensures Before(h[0], u) && (h[0].deadline < u.deadline || (h[0].deadline == u.deadline && h[0].seqno < u.seqno))
    {
      assert u in h;
      var i: nat :| i < |h| && h[i] == u;
      RootLeast(h, i);
      assert h[0] in Bag(h) && u in Bag(h);
    }
  }

  class Heaped {
    var data: array<Timer>
    var count: nat
    var reffed: nat
    var next: nat

    ghost predicate Bounded()
      reads this
    {
      count <= data.Length
    }

    ghost function H(): seq<Timer>
      reads this, data
      requires Bounded()
    {
      data[..count]
    }

    ghost predicate Valid()
      reads this, data
    {
      Bounded() && Heap(H()) && reffed == RefCount(H()) && Stamped(Bag(H()), next)
    }

    constructor ()
      ensures Valid() && H() == [] && fresh(data) && next == 0
    {
      data, count, reffed, next := new Timer[0], 0, 0, 0;
    }

    method Exchange(i: nat, j: nat)
      requires Bounded() && i < count && j < count
      modifies data
      ensures H() == Swap(old(H()), i, j) && SameTimers(old(H()), H())
    {
      SwapSame(H(), i, j);
      data[i], data[j] := data[j], data[i];
    }

    /** Swaps the entry at `start` upwards while it beats its parent. */
    method SiftUp(start: nat) returns (i: nat)
      requires Bounded() && start < count && Loose(H(), start)
      modifies data
      ensures i < count && LooseDown(H(), i) && SameTimers(old(H()), H())
      ensures old(LooseUp(H(), start)) ==> Heap(H())
    {
      hide Loose, LooseUp, LooseDown, Heap, SameTimers, RefCount, Swap;
      i := start;
      SameRefl(H());
      LooseOf(H(), i);
      while i > 0 && Before(data[i], data[Parent(i)])
        invariant i < count && Loose(H(), i) && SameTimers(old(H()), H())
        invariant LooseUp(H(), i) || (i == start && H() == old(H()))
      {
        ghost var h := H();
        SwapUp(h, i);
        Exchange(i, Parent(i));
        SameTrans(old(H()), h, H());
        i := Parent(i);
        LooseOf(H(), i);
      }
      EdgeAt(H(), i);
      if LooseUp(H(), i) { UpDone(H(), i); }
      DownOf(H(), i);
    }

    /** Swaps the entry at `start` downwards with its lesser child while one beats it. */
    method SiftDown(start: nat)
      requires Bounded() && start < count && LooseDown(H(), start)
      modifies data
      ensures Heap(H()) && SameTimers(old(H()), H())
    {
      hide Loose, LooseUp, LooseDown, Heap, SameTimers, RefCount, Swap, Least;
      var i := start;
      SameRefl(H());
      while true
        invariant i < count && LooseDown(H(), i) && SameTimers(old(H()), H())
        decreases count - i
      {
        var m := Lesser(i);
        if m == i { break; }
        ghost var h := H();
        SwapDown(h, i, m);
        Exchange(i, m);
        SameTrans(old(H()), h, H());
        i := m;
      }
      DownDone(H(), i);
    }

    method Lesser(i: nat) returns (m: nat)
      requires Bounded() && i < count
      ensures Least(H(), i, m) && i <= m < count && (m != i ==> Before(H()[m], H()[i]))
    {
      m := i;
      if 2 * i + 1 < count && Before(data[2 * i + 1], data[m]) { m := 2 * i + 1; }
      if 2 * i + 2 < count && Before(data[2 * i + 2], data[m]) { m := 2 * i + 2; }
    }

    method Push(t: Timer)
      requires Valid() && t.seqno == next && Unused(Bag(H()), t.id)
      modifies this, data
      ensures Valid() && Bag(H()) == old(Bag(H())) + multiset{t} && next == old(next) + 1 && count == old(count) + 1
      ensures fresh(data) || data == old(data)
    {
      hide Loose, LooseUp, LooseDown, Heap, RefCount, Stamped, Bag;
      ghost var h := H();
      PushedLoose(h, t);
      StampedAdd(Bag(h), next, t);
      if t.reffed { reffed := reffed + 1; }
      next := next + 1;
      Insert(t);
      SameBag(h + [t], H());
    }

    /** Appends, and moves the new entry up to its place. */
    method Insert(t: Timer)
      requires Bounded() && LooseUp(H() + [t], count)
      modifies this`data, this`count, data
      ensures Bounded() && Heap(H()) && SameTimers(old(H()) + [t], H()) && count == old(count) + 1
      ensures fresh(data) || data == old(data)
    {
      hide Loose, LooseUp, LooseDown, Heap, SameTimers;
      Append(t);
      LooseUpLoose(H(), count - 1);
      var _ := SiftUp(count - 1);
    }

    method Append(t: Timer)
      requires Bounded()
      modifies this`data, this`count, data
      ensures Bounded() && H() == old(H()) + [t] && count == old(count) + 1 && (fresh(data) || data == old(data))
    {
      if count == data.Length { Grow(t); }
      data[count] := t;
      count := count + 1;
    }

    method Grow(filler: Timer)
      requires Bounded() && count == data.Length
      modifies this`data
      ensures Bounded() && count < data.Length && H() == old(H()) && fresh(data)
    {
      var bigger := new Timer[if count == 0 then 16 else 2 * count](_ => filler);
      forall i | 0 <= i < count { bigger[i] := data[i]; }
      data := bigger;
    }

    /** Takes out the timer that fires first. */
    method Pop() returns (top: Timer)
      requires Valid() && count > 0
      modifies this, data
      ensures Valid() && top == old(H()[0]) && next == old(next) && data == old(data) && count == old(count) - 1
      ensures Bag(H()) == old(Bag(H())) - multiset{top} && top in old(Bag(H()))
      ensures forall u :: u in Bag(H()) ==>
        top.deadline < u.deadline || (top.deadline == u.deadline && top.seqno < u.seqno)
    {
      hide Loose, LooseUp, LooseDown, Heap, RefCount, Stamped, Bag;
      ghost var h := H();
      top := data[0];
      RemovedSame(h, 0);
      RemovedLoose(h, 0);
      StampedSub(Bag(h), next, top);
      RootFirst(h, next);
      if top.reffed && reffed > 0 { reffed := reffed - 1; }
      count := count - 1;
      data[0] := data[count];
      assert H() == Removed(h, 0);
      if count > 0 {
        SiftDown(0);
      } else {
        HeapEmpty(H());
      }
      assert Bag(H()) == Bag(Removed(h, 0)) by { SameBag(Removed(h, 0), H()); }
    }

    /** The last entry takes the place of the one at `i`. */
    method CutOut(i: nat)
      requires Bounded() && i < count && (data[i].reffed ==> reffed > 0)
      modifies this`count, this`reffed, data
      ensures Bounded() && H() == Removed(old(H()), i) && count == old(count) - 1
      ensures reffed == old(reffed) - if old(H()[i]).reffed then 1 else 0
    {
      if data[i].reffed && reffed > 0 { reffed := reffed - 1; }
      count := count - 1;
      data[i] := data[count];
    }

    /** Takes out the entry at `i`: the last entry takes its place and is sifted whichever way it needs. */
    method RemoveAt(i: nat)
      requires Valid() && i < count
      modifies this, data
      ensures Valid() && next == old(next) && data == old(data) && count == old(count) - 1
      ensures Bag(H()) == old(Bag(H())) - multiset{old(H()[i])}
    {
      hide Loose, LooseUp, LooseDown, Heap, RefCount, Stamped, Bag, Removed, SameTimers;
      ghost var h := H();
      RemovedSame(h, i);
      RemovedLoose(h, i);
      StampedSub(Bag(h), next, h[i]);
      CutOut(i);
      SameRefl(H());
      if i < count {
        var j := SiftUp(i);
        ghost var g := H();
        SiftDown(j);
        SameTrans(Removed(h, i), g, H());
      }
      SameBag(Removed(h, i), H());
    }

    /** The entry with handle `id`, or `count`. */
    method Find(id: nat) returns (i: nat)
      requires Bounded()
      ensures i <= count && (i < count ==> H()[i].id == id)
      ensures i == count ==> forall k :: 0 <= k < count ==> H()[k].id != id
    {
      i := 0;
      while i < count && data[i].id != id
        invariant i <= count && forall k :: 0 <= k < i ==> data[k].id != id
      {
        i := i + 1;
      }
    }

    /** Arms a timer. */
    method Arm(cb: int, ms: Num, repeats: bool, id: nat, now: real)
      requires Valid() && Unused(Bag(H()), id)
      modifies this, data
      ensures Valid() && (fresh(data) || data == old(data))
      ensures Bag(H()) == old(Bag(H())) + multiset{Armed(cb, ms, repeats, id, now, old(next))} && next == old(next) + 1
      ensures Armed(cb, ms, repeats, id, now, old(next))
              == Timer(now + Delay(ms) as real, old(next), cb, if repeats then Delay(ms) as real else 0.0, id, true,
                       Delay(ms) as real)
    {
      Push(Armed(cb, ms, repeats, id, now, next));
    }

    /** Makes a timer count for keeping the loop alive, or not. */
    method SetRef(id: nat, on: bool)
      requires Valid() && id != 0
      modifies this, data
      ensures Valid() && data == old(data) && next == old(next) && count == old(count)
      ensures Switched(old(Bag(H())), Bag(H()), id, on)
      ensures forall t :: t in old(Bag(H())) && t.id == id ==>
        Bag(H()) == old(Bag(H())) - multiset{t}
                    + multiset{Timer(t.deadline, t.seqno, t.cb, t.repeat, t.id, on, t.delay)}
    {
      hide Heap, RefCount, Stamped, Bag, Switched;
      ghost var h := H();
      var i := Find(id);
      if i < count {
        SwitchOrder(h, i, on, next);
        if on && !data[i].reffed {
          reffed := reffed + 1;
        } else if !on && data[i].reffed && reffed > 0 {
          reffed := reffed - 1;
        }
        data[i] := data[i].(reffed := on);
        assert H() == h[i := h[i].(reffed := on)];
      } else {
        assert forall k :: 0 <= k < count ==> H()[k].id != id;
        NotInBag(h, id);
        SwitchedNone(Bag(h), id, on);
      }
      SwitchedMeans(Bag(h), Bag(H()), id, on, next);
    }

    /** Cancels the timer with handle `id`, if there is one. */
    method Clear(id: nat)
      requires Valid() && id != 0
      modifies this, data
      ensures Valid() && data == old(data) && next == old(next)
      ensures Cleared(old(Bag(H())), Bag(H()), id) && Unused(Bag(H()), id)
      ensures forall t :: t in old(Bag(H())) && t.id == id ==> Bag(H()) == old(Bag(H())) - multiset{t}
    {
      hide Heap, RefCount, Stamped, Bag;
      ghost var h := H();
      var i := Find(id);
      if i < count {
        InBag(h, i);
        RemoveAt(i);
      } else {
        NotInBag(h, id);
      }
      ClearedUnused(Bag(h), Bag(H()), id, next);
      ClearedMeans(Bag(h), Bag(H()), id, next);
    }

    /** Re-arms the timer with handle `id` to its delay from now, as a brand-new timer would be. */
    method Refresh(id: nat, now: real)
      requires Valid() && id != 0
      modifies this, data
      ensures Valid() && (fresh(data) || data == old(data))
      ensures Refreshed(old(Bag(H())), Bag(H()), id, now, old(next))
      ensures next == old(next) + if Unused(old(Bag(H())), id) then 0 else 1
      ensures forall t :: t in old(Bag(H())) && t.id == id ==>
        Bag(H()) == old(Bag(H())) - multiset{t}
                    + multiset{Timer(now + t.delay, old(next), t.cb, t.repeat, t.id, t.reffed, t.delay)}
    {
      hide Heap, RefCount, Stamped, Bag, Refreshed;
      ghost var h, n := H(), next;
      var i := Find(id);
      if i < count {
        var t := data[i];
        InBag(h, i);
        RemoveAt(i);
        ClearedUnused(Bag(h), Bag(H()), id, next);
        Push(t.(deadline := now + t.delay, seqno := next));
        RefreshedOne(Bag(h), t, now, next - 1);
      } else {
        RefreshedNone(Bag(h), id, now, next);
        assert h == H();
        NotInBag(h, id);
      }
      RefreshedMeans(Bag(h), Bag(H()), id, now, n);
    }
  }

  lemma SameRefl(h: seq<Timer>)
    ensures SameTimers(h, h)
  {
  }

  lemma SameTrans(a: seq<Timer>, b: seq<Timer>, c: seq<Timer>)
    requires SameTimers(a, b) && SameTimers(b, c)
    ensures SameTimers(a, c)
  {
  }

  lemma SameBag(a: seq<Timer>, b: seq<Timer>)
    requires SameTimers(a, b) || a == b
    ensures Bag(a) == Bag(b) && RefCount(a) == RefCount(b)
  {
  }

  lemma LooseOf(h: seq<Timer>, i: nat)
    requires LooseUp(h, i) || Loose(h, i)
    ensures Loose(h, i)
  {
  }

  lemma LooseUpLoose(h: seq<Timer>, i: nat)
    requires LooseUp(h, i)
    ensures Loose(h, i)
  {
  }

  lemma EdgeAt(h: seq<Timer>, i: nat)
    requires i < |h| && (i == 0 || !Before(h[i], h[Parent(i)]))
    ensures Edge(h, i)
  {
  }

  lemma DownOf(h: seq<Timer>, i: nat)
    requires Loose(h, i) && Edge(h, i)
    ensures LooseDown(h, i)
  {
  }

  lemma HeapEmpty(h: seq<Timer>)
    requires h == []
    ensures Heap(h)
  {
  }

  function Armed(cb: int, ms: Num, repeats: bool, id: nat, now: real, n: nat): (t: Timer)
    ensures t.deadline >= now + 1.0
  {
    var d := Delay(ms) as real;
    Timer(now + d, n, cb, if repeats then d else 0.0, id, true, d)
  }

  /** The timer with handle `id`, if any, is gone. */
  ghost predicate Cleared(b: multiset<Timer>, c: multiset<Timer>, id: nat) {
    if Unused(b, id) then c == b else exists t :: t in b && t.id == id && c == b - multiset{t}
  }

  /** The timer with handle `id`, if any, counts for keeping the loop alive exactly when `on`. */
  ghost predicate Switched(b: multiset<Timer>, c: multiset<Timer>, id: nat, on: bool) {
    if Unused(b, id) then c == b
    else exists t :: t in b && t.id == id && c == b - multiset{t} + multiset{t.(reffed := on)}
  }

  /** The timer with handle `id`, if any, is due its own delay from `now`, behind everything armed so far. */
  ghost predicate Refreshed(b: multiset<Timer>, c: multiset<Timer>, id: nat, now: real, n: nat) {
    if Unused(b, id) then c == b
    else exists t :: t in b && t.id == id && c == b - multiset{t} + multiset{t.(deadline := now + t.delay, seqno := n)}
  }

  lemma RefreshedOne(b: multiset<Timer>, t: Timer, now: real, n: nat)
    requires t in b && !Unused(b, t.id)
    ensures Refreshed(b, b - multiset{t} + multiset{t.(deadline := now + t.delay, seqno := n)}, t.id, now, n)
  {
  }

  lemma RefreshedNone(b: multiset<Timer>, id: nat, now: real, n: nat)
    ensures Unused(b, id) ==> Refreshed(b, b, id, now, n)
  {
  }

  lemma SwitchedNone(b: multiset<Timer>, id: nat, on: bool)
    ensures Unused(b, id) ==> Switched(b, b, id, on)
  {
  }

  /** There is at most one timer with a handle, so what happens to one happens to that one. */
  lemma OneHandle(b: multiset<Timer>, n: nat, t: Timer, u: Timer)
    requires Stamped(b, n) && t in b && u in b && t.id == u.id != 0
    ensures t == u
  {
  }

  lemma ClearedMeans(b: multiset<Timer>, c: multiset<Timer>, id: nat, n: nat)
    requires Stamped(b, n) && Cleared(b, c, id) && id != 0
    ensures forall t :: t in b && t.id == id ==> c == b - multiset{t}
  {
    hide Stamped;
    forall t | t in b && t.id == id ensures c == b - multiset{t} {
      var u :| u in b && u.id == id && c == b - multiset{u};
      OneHandle(b, n, t, u);
    }
  }

  lemma SwitchedMeans(b: multiset<Timer>, c: multiset<Timer>, id: nat, on: bool, n: nat)
    requires Stamped(b, n) && Switched(b, c, id, on) && id != 0
    ensures forall t :: t in b && t.id == id ==>
      c == b - multiset{t} + multiset{Timer(t.deadline, t.seqno, t.cb, t.repeat, t.id, on, t.delay)}
  {
    hide Stamped;
    forall t | t in b && t.id == id
      ensures c == b - multiset{t} + multiset{Timer(t.deadline, t.seqno, t.cb, t.repeat, t.id, on, t.delay)}
    {
      var u :| u in b && u.id == id && c == b - multiset{u} + multiset{u.(reffed := on)};
      OneHandle(b, n, t, u);
    }
  }

  lemma RefreshedMeans(b: multiset<Timer>, c: multiset<Timer>, id: nat, now: real, n: nat)
    requires Stamped(b, n) && Refreshed(b, c, id, now, n) && id != 0
    ensures forall t :: t in b && t.id == id ==>
      c == b - multiset{t} + multiset{Timer(now + t.delay, n, t.cb, t.repeat, t.id, t.reffed, t.delay)}
  {
    hide Stamped;
    forall t | t in b && t.id == id
      ensures c == b - multiset{t} + multiset{Timer(now + t.delay, n, t.cb, t.repeat, t.id, t.reffed, t.delay)}
    {
      var u :| u in b && u.id == id && c == b - multiset{u} + multiset{u.(deadline := now + u.delay, seqno := n)};
      OneHandle(b, n, t, u);
    }
  }

  lemma InBag(h: seq<Timer>, i: nat)
    requires i < |h| && h[i].id != 0
    ensures h[i] in Bag(h) && !Unused(Bag(h), h[i].id)
  {
  }

  lemma NotInBag(h: seq<Timer>, id: nat)
    requires forall k :: 0 <= k < |h| ==> h[k].id != id
    ensures Unused(Bag(h), id)
  {
  }

  lemma SwitchOrder(h: seq<Timer>, i: nat, on: bool, n: nat)
    requires i < |h| && h[i].id != 0 && Heap(h) && Stamped(Bag(h), n)
    ensures var g := h[i := h[i].(reffed := on)];
      Heap(g) && Stamped(Bag(g), n) && Switched(Bag(h), Bag(g), h[i].id, on)
      && RefCount(g) == RefCount(h) - (if h[i].reffed then 1 else 0) + (if on then 1 else 0)
  {
    var t := h[i].(reffed := on);
    var g := h[i := t];
    hide Bag, RefCount, Heap, Unused, Stamped;
    RefCountUpdate(h, i, t);
    ReplaceBag(h, i, t);
    InBag(h, i);
    FlagHeap(h, i, on);
    SwitchStamped(Bag(h), h[i], t, n);
  }

  lemma FlagHeap(h: seq<Timer>, i: nat, on: bool)
    requires i < |h| && Heap(h)
    ensures Heap(h[i := h[i].(reffed := on)])
  {
    var g := h[i := h[i].(reffed := on)];
    forall k | 0 < k < |g| ensures Edge(g, k) { assert Edge(h, k); }
  }

  lemma SwitchStamped(b: multiset<Timer>, t: Timer, u: Timer, n: nat)
    requires Stamped(b, n) && t in b && u == t.(reffed := u.reffed)
    ensures Stamped(b - multiset{t} + multiset{u}, n)
  {
    StampedSub(b, n, t);
    forall v | v in b - multiset{t} ensures v.seqno != u.seqno { assert v in b && v != t; }
  }

  lemma ClearedUnused(b: multiset<Timer>, c: multiset<Timer>, id: nat, n: nat)
    requires Stamped(b, n) && Cleared(b, c, id)
    ensures Unused(c, id) && Stamped(c, n)
  {
    if !Unused(b, id) {
      var t :| t in b && t.id == id && c == b - multiset{t};
      StampedSub(b, n, t);
      forall u | u in c ensures id == 0 || u.id != id { assert u in b && u != t; }
    }
  }
}
