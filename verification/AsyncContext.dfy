/** AsyncLocalStorage: counted, immutable snapshots in the slots of the main context and of every fiber. */
module ContextState {
  type Snap = nat
  datatype Option<T> = None | Some(value: T)
  datatype Entry = Entry(id: nat, value: int)
  datatype Owner = Main | Fiber(f: nat)

  /** Slots hold the active snapshot of each owner; a frame holds what its `run` will restore. */
  datatype State = State(entries: map<Snap, seq<Entry>>, rc: map<Snap, nat>, slot: map<Owner, Option<Snap>>,
                         frames: map<Owner, seq<Option<Snap>>>, current: Owner, next: Snap)

  predicate UniqueIds(es: seq<Entry>) {
    forall i, j :: 0 <= i < j < |es| ==> es[i].id != es[j].id
  }

  /** Place -1 of an owner is its slot, the others are its frames. */
  function At(s: State, o: Owner, i: int): Option<Snap>
    requires o in s.slot && o in s.frames && -1 <= i < |s.frames[o]|
  {
    if i == -1 then s.slot[o] else s.frames[o][i]
  }

  ghost function Holders(s: State, x: Snap): set<(Owner, int)>
    requires s.frames.Keys == s.slot.Keys
  {
    set o, i | o in s.slot && -1 <= i < |s.frames[o]| && At(s, o, i) == Some(x) :: (o, i)
  }

  /** Every snapshot's count is the number of places that hold it, none is kept for nobody, and none holds two values
      for one store. */
  ghost predicate Ok(s: State) {
    && s.frames.Keys == s.slot.Keys && s.entries.Keys == s.rc.Keys && Main in s.slot && s.current in s.slot
    && (forall x :: x in s.rc ==> x < s.next && s.rc[x] > 0) && Counted(s)
    && (forall x :: x in s.entries ==> UniqueIds(s.entries[x]))
  }

  // The steps -----------------------------------------------------------------------------------------------

  function Lookup(es: seq<Entry>, id: nat): Option<int> {
    if es == [] then None
    else if es[|es| - 1].id == id then Some(es[|es| - 1].value)
    else Lookup(es[..|es| - 1], id)
  }

  function Without(es: seq<Entry>, id: nat): seq<Entry> {
    if es == [] then [] else Without(es[..|es| - 1], id) + if es[|es| - 1].id == id then [] else [es[|es| - 1]]
  }

  function EntriesOf(s: State, p: Option<Snap>): seq<Entry> {
    if p.Some? && p.value in s.entries then s.entries[p.value] else []
  }

  /** The entries of a context where `id` maps to `v`, or to nothing. */
  function Changed(es: seq<Entry>, id: nat, v: Option<int>): seq<Entry> {
    Without(es, id) + if v.Some? then [Entry(id, v.value)] else []
  }

  lemma {:induction false} WithoutIds(es: seq<Entry>, id: nat)
    requires UniqueIds(es)
    ensures UniqueIds(Without(es, id)) && forall e :: e in Without(es, id) ==> e.id != id && e in es
    ensures forall j :: Lookup(Without(es, id), j) == if j == id then None else Lookup(es, j)
  {
    if es != [] {
      WithoutIds(es[..|es| - 1], id);
      var w := Without(es[..|es| - 1], id);
      var e := es[|es| - 1];
      assert forall k :: 0 <= k < |es| - 1 ==> es[k] in es[..|es| - 1];
      if e.id == id {
        assert Without(es, id) == w;
      } else {
        assert (w + [e])[..|w|] == w;
        forall d | d in w ensures d.id != e.id {
          var k :| 0 <= k < |es| - 1 && es[k] == d;
        }
      }
    }
  }

  /** A changed context gives the new value for `id` and the old ones for every other store. */
  lemma ChangedLookup(es: seq<Entry>, id: nat, v: Option<int>)
    requires UniqueIds(es)
    ensures UniqueIds(Changed(es, id, v))
    ensures forall j :: Lookup(Changed(es, id, v), j) == if j == id then v else Lookup(es, j)
  {
    WithoutIds(es, id);
    var w := Without(es, id);
    if v.Some? {
      assert Changed(es, id, v)[..|w|] == w;
    } else {
      assert Changed(es, id, v) == w;
    }
  }

  /** A count drops; at zero the snapshot goes. */
  function Released(s: State, p: Option<Snap>): State {
    if p.None? || p.value !in s.rc then s
    else if s.rc[p.value] <= 1 then s.(rc := s.rc - {p.value}, entries := s.entries - {p.value})
    else s.(rc := s.rc[p.value := s.rc[p.value] - 1])
  }

  function Retained(s: State, p: Option<Snap>): State {
    if p.None? || p.value !in s.rc then s else s.(rc := s.rc[p.value := s.rc[p.value] + 1])
  }

  /** The current owner's slot gets a new snapshot; what it held moves to a new frame. */
  function Begun(s: State, id: nat, v: Option<int>): State
    requires s.current in s.slot && s.current in s.frames
  {
    var o := s.current;
    s.(entries := s.entries[s.next := Changed(EntriesOf(s, s.slot[o]), id, v)], rc := s.rc[s.next := 1],
       next := s.next + 1,
       slot := s.slot[o := Some(s.next)], frames := s.frames[o := s.frames[o] + [s.slot[o]]])
  }

  /** The slot is released and the frame's snapshot moves back. */
  function Ended(s: State): State
    requires s.current in s.slot && s.current in s.frames && s.frames[s.current] != []
  {
    var o, n := s.current, |s.frames[s.current]| - 1;
    Released(s, s.slot[o]).(slot := s.slot[o := s.frames[o][n]], frames := s.frames[o := s.frames[o][..n]])
  }

  /** The last frame's snapshot is released: there is nothing to restore. */
  function Dropped(s: State): State
    requires s.current in s.frames && s.frames[s.current] != []
  {
    var o, n := s.current, |s.frames[s.current]| - 1;
    Released(s, s.frames[o][n]).(frames := s.frames[o := s.frames[o][..n]])
  }

  /** A fiber starts with its spawner's context. */
  function Spawned(s: State, f: nat): State
    requires s.current in s.slot
  {
    Retained(s, s.slot[s.current]).(slot := s.slot[Fiber(f) := s.slot[s.current]],
                                   frames := s.frames[Fiber(f) := []], current := Fiber(f))
  }

  /** Another owner runs. */
  function Switched(s: State, o: Owner): State {
    s.(current := o)
  }

  /** A finished fiber's slot is released. */
  function Destroyed(s: State, f: nat): State
    requires Fiber(f) in s.slot
  {
    Released(s, s.slot[Fiber(f)]).(slot := s.slot - {Fiber(f)}, frames := s.frames - {Fiber(f)})
  }

  datatype Step = Begin(id: nat, v: Option<int>) | End | EnterWith(id: nat, v: Option<int>) | Spawn(f: nat)
                | SwitchTo(o: Owner) | Destroy(f: nat)

  ghost predicate Enabled(s: State, a: Step) {
    && s.current in s.slot && s.current in s.frames
    && match a
       case Begin(_, _) => true
       case End => s.frames[s.current] != []
       case EnterWith(_, _) => true
       case Spawn(f) => Fiber(f) !in s.slot
       case SwitchTo(o) => o in s.slot
       case Destroy(f) =>
         Fiber(f) in s.slot && Fiber(f) in s.frames && s.frames[Fiber(f)] == [] && s.current != Fiber(f)
  }

  ghost function Applied(s: State, a: Step): State
    requires Enabled(s, a)
  {
    match a
    case Begin(id, v) => Begun(s, id, v)
    case End => Ended(s)
    case EnterWith(id, v) => Dropped(Begun(s, id, v))
    case Spawn(f) => Spawned(s, f)
    case SwitchTo(o) => Switched(s, o)
    case Destroy(f) => Destroyed(s, f)
  }

  // Counts --------------------------------------------------------------------------------------------------

  ghost predicate Place(s: State, o: Owner, i: int) {
    o in s.slot && o in s.frames && -1 <= i < |s.frames[o]|
  }

  lemma HeldAt(s: State, o: Owner, i: int, x: Snap)
    requires s.frames.Keys == s.slot.Keys
    ensures (o, i) in Holders(s, x) <==> Place(s, o, i) && At(s, o, i) == Some(x)
  {
  }

  function Is(p: Option<Snap>, x: Snap): int {
    if p == Some(x) then 1 else 0
  }

  /** One place more, holding `p`. */
  lemma Gained(s: State, t: State, o: Owner, i: int, x: Snap)
    requires s.frames.Keys == s.slot.Keys && t.frames.Keys == t.slot.Keys && !Place(s, o, i) && Place(t, o, i)
    requires forall q, k :: (q, k) != (o, i) ==>
      (Place(t, q, k) <==> Place(s, q, k)) && (Place(s, q, k) ==> At(t, q, k) == At(s, q, k))
    ensures |Holders(t, x)| == |Holders(s, x)| + Is(At(t, o, i), x)
  {
    HeldAt(s, o, i, x);
    HeldAt(t, o, i, x);
    var h := if At(t, o, i) == Some(x) then Holders(s, x) + {(o, i)} else Holders(s, x);
    forall q, k ensures (q, k) in Holders(t, x) <==> (q, k) in h {
      HeldAt(s, q, k, x);
      HeldAt(t, q, k, x);
    }
    assert Holders(t, x) == h;
  }

  lemma PushCount(s: State, t: State, o: Owner, p: Option<Snap>, x: Snap)
    requires s.frames.Keys == s.slot.Keys && o in s.slot
    requires t.slot == s.slot && t.frames == s.frames[o := s.frames[o] + [p]]
    ensures |Holders(t, x)| == |Holders(s, x)| + Is(p, x)
  {
    Gained(s, t, o, |s.frames[o]|, x);
  }

  lemma PopCount(s: State, t: State, o: Owner, x: Snap)
    requires s.frames.Keys == s.slot.Keys && o in s.slot && s.frames[o] != [] && t.slot == s.slot
    requires t.frames == s.frames[o := s.frames[o][..|s.frames[o]| - 1]]
    ensures |Holders(t, x)| == |Holders(s, x)| - Is(s.frames[o][|s.frames[o]| - 1], x)
  {
    Gained(t, s, o, |s.frames[o]| - 1, x);
  }

  lemma AddCount(s: State, t: State, o: Owner, p: Option<Snap>, x: Snap)
    requires s.frames.Keys == s.slot.Keys && o !in s.slot && t.slot == s.slot[o := p] && t.frames == s.frames[o := []]
    ensures |Holders(t, x)| == |Holders(s, x)| + Is(p, x)
  {
    Gained(s, t, o, -1, x);
  }

  lemma DropCount(s: State, t: State, o: Owner, x: Snap)
    requires s.frames.Keys == s.slot.Keys && o in s.slot
    requires s.frames[o] == [] && t.slot == s.slot - {o} && t.frames == s.frames - {o}
    ensures |Holders(t, x)| == |Holders(s, x)| - Is(s.slot[o], x)
  {
    Gained(t, s, o, -1, x);
  }

  lemma SlotCount(s: State, t: State, o: Owner, p: Option<Snap>, x: Snap)
    requires s.frames.Keys == s.slot.Keys && o in s.slot && t.slot == s.slot[o := p] && t.frames == s.frames
    ensures |Holders(t, x)| == |Holders(s, x)| - Is(s.slot[o], x) + Is(p, x)
  {
    HeldAt(s, o, -1, x);
    HeldAt(t, o, -1, x);
    forall r: (Owner, int) ensures r != (o, -1) ==> (r in Holders(t, x) <==> r in Holders(s, x)) {
      HeldAt(s, r.0, r.1, x);
      HeldAt(t, r.0, r.1, x);
    }
    hide Holders, Place, At;
    Exchanged(Holders(s, x), Holders(t, x), (o, -1));
  }

  /** Sets that agree but for one element. */
  lemma Exchanged(a: set<(Owner, int)>, b: set<(Owner, int)>, p: (Owner, int))
    requires forall r :: r != p ==> (r in b <==> r in a)
    ensures |b| == |a| - (if p in a then 1 else 0) + (if p in b then 1 else 0)
  {
    assert a - {p} == b - {p};
    assert |a - {p}| == |a| - (if p in a then 1 else 0) by { if p !in a { assert a - {p} == a; } }
    assert |b - {p}| == |b| - (if p in b then 1 else 0) by { if p !in b { assert b - {p} == b; } }
  }

  /** Every place holds a live snapshot, or nothing. */
  ghost predicate NoDangling(s: State) {
    forall o, i :: Place(s, o, i) && At(s, o, i).Some? ==> At(s, o, i).value in s.rc
  }

  /** Some place holds `x`. */
  lemma HeldSome(s: State, o: Owner, i: int)
    requires s.frames.Keys == s.slot.Keys && Place(s, o, i) && At(s, o, i).Some?
    ensures |Holders(s, At(s, o, i).value)| > 0
  {
    HeldAt(s, o, i, At(s, o, i).value);
    assert Holders(s, At(s, o, i).value) != {};
  }

  /** Counts that are true for every snapshot, known or not: an unknown one is held nowhere. */
  ghost predicate Counted(s: State)
    requires s.frames.Keys == s.slot.Keys
  {
    forall x: Snap :: |Holders(s, x)| == RcOf(s, x)
  }

  lemma CountedNoDangling(s: State)
    requires s.frames.Keys == s.slot.Keys && Counted(s)
    ensures NoDangling(s)
  {
    forall o, i | Place(s, o, i) && At(s, o, i).Some? ensures At(s, o, i).value in s.rc { HeldSome(s, o, i); }
  }

  // Every step keeps the counts -----------------------------------------------------------------------------

  lemma BegunOk(s: State, id: nat, v: Option<int>)
    requires Ok(s)
    ensures Ok(Begun(s, id, v))
  {
    var t := Begun(s, id, v);
    var o := s.current;
    var u := s.(frames := t.frames);
    ChangedLookup(EntriesOf(s, s.slot[o]), id, v);
    forall x: Snap ensures |Holders(t, x)| == RcOf(t, x) {
      PushCount(s, u, o, s.slot[o], x);
      SlotCount(u, t, o, Some(s.next), x);
    }
  }

  function RcOf(s: State, x: Snap): nat {
    if x in s.rc then s.rc[x] else 0
  }

  lemma ReleasedEntries(s: State, p: Option<Snap>)
    requires s.entries.Keys == s.rc.Keys && (forall x :: x in s.rc ==> x < s.next && s.rc[x] > 0)
    requires forall x :: x in s.entries ==> UniqueIds(s.entries[x])
    ensures Released(s, p).entries.Keys == Released(s, p).rc.Keys
    ensures forall x :: x in Released(s, p).rc ==> x < s.next && Released(s, p).rc[x] > 0
    ensures forall x :: x in Released(s, p).entries ==> x in s.entries && Released(s, p).entries[x] == s.entries[x]
    ensures forall x: Snap :: RcOf(Released(s, p), x) == if x in s.rc then s.rc[x] - Is(p, x) else 0
  {
  }

  lemma EndedOk(s: State)
    requires Ok(s) && s.frames[s.current] != []
    ensures Ok(Ended(s))
  {
    var t := Ended(s);
    var o, n := s.current, |s.frames[s.current]| - 1;
    var u := s.(slot := t.slot);
    ReleasedEntries(s, s.slot[o]);
    forall x: Snap ensures |Holders(t, x)| == RcOf(t, x) {
      SlotCount(s, u, o, s.frames[o][n], x);
      PopCount(u, t, o, x);
      if s.slot[o] == Some(x) { assert Place(s, o, -1) && At(s, o, -1) == Some(x); }
    }
  }

  lemma DroppedOk(s: State)
    requires Ok(s) && s.frames[s.current] != []
    ensures Ok(Dropped(s))
  {
    var t := Dropped(s);
    var o, n := s.current, |s.frames[s.current]| - 1;
    ReleasedEntries(s, s.frames[o][n]);
    forall x: Snap ensures |Holders(t, x)| == RcOf(t, x) {
      PopCount(s, t, o, x);
      if s.frames[o][n] == Some(x) { assert Place(s, o, n) && At(s, o, n) == Some(x); }
    }
  }

  lemma SpawnedOk(s: State, f: nat)
    requires Ok(s) && Fiber(f) !in s.slot
    ensures Ok(Spawned(s, f))
  {
    var t := Spawned(s, f);
    var p := s.slot[s.current];
    if p.Some? { assert Place(s, s.current, -1) && At(s, s.current, -1) == p; CountedNoDangling(s); }
    forall x: Snap ensures |Holders(t, x)| == RcOf(t, x) { AddCount(s, t, Fiber(f), p, x); }
  }

  lemma DestroyedOk(s: State, f: nat)
    requires Ok(s) && Fiber(f) in s.slot && s.frames[Fiber(f)] == [] && s.current != Fiber(f)
    ensures Ok(Destroyed(s, f))
  {
    var t := Destroyed(s, f);
    ReleasedEntries(s, s.slot[Fiber(f)]);
    forall x: Snap ensures |Holders(t, x)| == RcOf(t, x) {
      DropCount(s, t, Fiber(f), x);
      if s.slot[Fiber(f)] == Some(x) { assert Place(s, Fiber(f), -1) && At(s, Fiber(f), -1) == Some(x); }
    }
  }

  lemma SameHolders(s: State, t: State)
    requires Ok(s) && t == s.(current := t.current) && t.current in s.slot
    ensures Ok(t)
  {
    forall x: Snap ensures Holders(t, x) == Holders(s, x) {
      forall o, i ensures (o, i) in Holders(t, x) <==> (o, i) in Holders(s, x) {}
    }
  }

  lemma StepOk(s: State, a: Step)
    requires Ok(s) && Enabled(s, a)
    ensures Ok(Applied(s, a))
  {
    hide Ok;
    match a
    case Begin(id, v) => BegunOk(s, id, v);
    case End => EndedOk(s);
    case EnterWith(id, v) =>
      BegunOk(s, id, v);
      DroppedOk(Begun(s, id, v));
    case Spawn(f) => SpawnedOk(s, f);
    case SwitchTo(o) => SameHolders(s, Switched(s, o));
    case Destroy(f) => DestroyedOk(s, f);
  }

  /** A snapshot never changes while it lives. */
  lemma Immutable(s: State, a: Step, x: Snap)
    requires Ok(s) && Enabled(s, a) && x in s.entries && x in Applied(s, a).entries
    ensures Applied(s, a).entries[x] == s.entries[x]
  {
  }

  // What each owner sees ------------------------------------------------------------------------------------

  /** The value of a store in the active context of an owner. */
  function Value(s: State, o: Owner, id: nat): Option<int>
    requires o in s.slot
  {
    Lookup(EntriesOf(s, s.slot[o]), id)
  }

  /** `o` gets `v` for the store `id`, or nothing, and keeps the rest; every other owner sees what it saw. */
  ghost predicate EnteredFor(s: State, t: State, o: Owner, id: nat, v: Option<int>) {
    && o in s.slot && t.slot.Keys == s.slot.Keys
    && (forall j :: Value(t, o, j) == if j == id then v else Value(s, o, j))
    && forall q :: q != o ==> SeesSame(s, t, q)
  }

  /** `q`, there before and after, sees what it saw. */
  ghost predicate SeesSame(s: State, t: State, q: Owner) {
    q in s.slot && q in t.slot ==> forall j :: Value(t, q, j) == Value(s, q, j)
  }

  /** Fiber `f` sees what its spawner does, and everybody else what they saw. */
  ghost predicate SpawnedFor(s: State, t: State, f: nat) {
    && s.current in s.slot && t.slot.Keys == s.slot.Keys + {Fiber(f)}
    && (forall j :: Value(t, Fiber(f), j) == Value(s, s.current, j))
    && forall q :: q in s.slot && q != Fiber(f) ==> SeesSame(s, t, q)
  }

  /** No step changes what another owner sees. */
  lemma OthersSee(s: State, a: Step, o: Owner)
    requires Ok(s) && Enabled(s, a) && o != s.current
    ensures SeesSame(s, Applied(s, a), o)
  {
    var t := Applied(s, a);
    if o in s.slot && o in t.slot {
      StepOk(s, a);
      SlotStays(s, a, o);
      if s.slot[o].Some? {
        SlotLives(s, o);
        SlotLives(t, o);
        Immutable(s, a, s.slot[o].value);
      }
    }
  }

  lemma SlotStays(s: State, a: Step, o: Owner)
    requires Ok(s) && Enabled(s, a) && o in s.slot && o in Applied(s, a).slot && o != s.current
    ensures Applied(s, a).slot[o] == s.slot[o]
  {
  }

  lemma SlotLives(s: State, o: Owner)
    requires Ok(s) && o in s.slot && s.slot[o].Some?
    ensures s.slot[o].value in s.entries
  {
    CountedNoDangling(s);
    assert Place(s, o, -1) && At(s, o, -1) == s.slot[o];
  }

  /** Entering gives one store its new value, for this owner alone, and so does `enterWith`. */
  lemma EnterSees(s: State, id: nat, v: Option<int>)
    requires Ok(s)
    ensures EnteredFor(s, Begun(s, id, v), s.current, id, v)
    ensures EnteredFor(s, Dropped(Begun(s, id, v)), s.current, id, v)
  {
    ChangedEntries(s, id, v);
    DroppedSees(s, id, v);
    SlotsKept(s, id, v);
    hide Ok, Begun, Dropped, Value;
    forall q | q != s.current ensures SeesSame(s, Begun(s, id, v), q) && SeesSame(s, Dropped(Begun(s, id, v)), q) {
      OthersSee(s, Begin(id, v), q);
      OthersSee(s, EnterWith(id, v), q);
    }
  }

  lemma SlotsKept(s: State, id: nat, v: Option<int>)
    requires Ok(s)
    ensures Begun(s, id, v).slot.Keys == s.slot.Keys && Dropped(Begun(s, id, v)).slot.Keys == s.slot.Keys
    ensures Enabled(s, Begin(id, v)) && Enabled(s, EnterWith(id, v)) && s.current in s.slot
  {
  }

  lemma DroppedSees(s: State, id: nat, v: Option<int>)
    requires Ok(s)
    ensures SeesSame(Begun(s, id, v), Dropped(Begun(s, id, v)), s.current)
  {
    var t := Begun(s, id, v);
    var u := Dropped(t);
    BegunOk(s, id, v);
    DroppedOk(t);
    assert u.slot == t.slot;
    SlotLives(u, s.current);
    ReleasedEntries(t, s.slot[s.current]);
    hide Ok;
  }

  lemma ChangedEntries(s: State, id: nat, v: Option<int>)
    requires Ok(s)
    ensures forall j :: Value(Begun(s, id, v), s.current, j) == if j == id then v else Value(s, s.current, j)
  {
    var es := EntriesOf(s, s.slot[s.current]);
    if s.slot[s.current].Some? { SlotLives(s, s.current); }
    assert UniqueIds(es);
    ChangedLookup(es, id, v);
    assert EntriesOf(Begun(s, id, v), Begun(s, id, v).slot[s.current]) == Changed(es, id, v);
  }

  lemma DestroySees(s: State, f: nat)
    requires Ok(s) && Enabled(s, Destroy(f))
    ensures forall q :: SeesSame(s, Destroyed(s, f), q)
  {
    var t := Destroyed(s, f);
    DestroyedOk(s, f);
    forall q ensures SeesSame(s, t, q) {
      if q in s.slot && q in t.slot && s.slot[q].Some? {
        SlotLives(s, q);
        SlotLives(t, q);
        Immutable(s, Destroy(f), s.slot[q].value);
      }
    }
  }

  lemma SpawnSees(s: State, f: nat)
    requires Ok(s) && Fiber(f) !in s.slot
    ensures SpawnedFor(s, Spawned(s, f), f)
  {
  }

  // Runs of steps -------------------------------------------------------------------------------------------

  /** A run from `s` by these steps, ending in `t`. */
  ghost predicate Runs(s: State, steps: seq<Step>, t: State)
    decreases |steps|
  {
    if steps == [] then t == s else Enabled(s, steps[0]) && Runs(Applied(s, steps[0]), steps[1..], t)
  }

  lemma {:induction false} RunOk(s: State, steps: seq<Step>, t: State)
    requires Ok(s) && Runs(s, steps, t)
    ensures Ok(t)
    decreases |steps|
  {
    if steps != [] {
      StepOk(s, steps[0]);
      RunOk(Applied(s, steps[0]), steps[1..], t);
    }
  }

  /** Throughout a run, `o` lives and the first `d` frames of `o` are never touched. */
  ghost predicate Deeper(s: State, steps: seq<Step>, o: Owner, d: nat)
    decreases |steps|
  {
    && o in s.frames && |s.frames[o]| >= d
    && (steps != [] ==> Enabled(s, steps[0]) && Deeper(Applied(s, steps[0]), steps[1..], o, d))
  }

  lemma {:induction false} FramesStay(s: State, steps: seq<Step>, t: State, o: Owner, d: nat)
    requires Ok(s) && Runs(s, steps, t) && Deeper(s, steps, o, d)
    ensures o in t.frames && |t.frames[o]| >= d && t.frames[o][..d] == s.frames[o][..d]
    decreases |steps|
  {
    if steps != [] {
      StepOk(s, steps[0]);
      FramesStay(Applied(s, steps[0]), steps[1..], t, o, d);
      StepFrames(s, steps[0], o, d);
    }
  }

  lemma StepFrames(s: State, a: Step, o: Owner, d: nat)
    requires Ok(s) && Enabled(s, a) && o in s.frames && |s.frames[o]| >= d
    requires o in Applied(s, a).frames && |Applied(s, a).frames[o]| >= d
    ensures Applied(s, a).frames[o][..d] == s.frames[o][..d]
  {
  }

  /** `run` and `exit` restore: whatever the callback does in between, on this fiber or, while it is parked, on any
      other, the owner's active context afterwards is the one it started with. */
  lemma RunRestores(s: State, id: nat, v: Option<int>, steps: seq<Step>, t: State)
    requires Ok(s) && Runs(Begun(s, id, v), steps, t)
    requires Deeper(Begun(s, id, v), steps, s.current, |s.frames[s.current]| + 1)
    requires t.current == s.current && s.current in t.slot && s.current in t.frames
    requires |t.frames[s.current]| == |s.frames[s.current]| + 1
    ensures Ok(Ended(t)) && Ended(t).slot[s.current] == s.slot[s.current]
    ensures Ended(t).frames[s.current] == s.frames[s.current]
    ensures EntriesOf(Ended(t), s.slot[s.current]) == EntriesOf(s, s.slot[s.current])
  {
    var o, d := s.current, |s.frames[s.current]|;
    BegunOk(s, id, v);
    RunOk(Begun(s, id, v), steps, t);
    FramesStay(Begun(s, id, v), steps, t, o, d + 1);
    assert t.frames[o] == t.frames[o][..d + 1] && Begun(s, id, v).frames[o] == s.frames[o] + [s.slot[o]];
    EndedOk(t);
    if s.slot[o].Some? {
      SnapshotStays(Begun(s, id, v), steps, t, o, d);
      assert Place(s, o, -1) && At(s, o, -1) == s.slot[o];
      CountedNoDangling(s);
      CountedNoDangling(Ended(t));
      assert Place(Ended(t), o, -1) && At(Ended(t), o, -1) == s.slot[o];
    }
  }

  /** The snapshot a frame holds keeps its entries for as long as the frame is there. */
  lemma {:induction false} SnapshotStays(s: State, steps: seq<Step>, t: State, o: Owner, d: nat)
    requires Ok(s) && Runs(s, steps, t) && Deeper(s, steps, o, d + 1) && s.frames[o][d].Some?
    ensures s.frames[o][d].value in s.entries && s.frames[o][d].value in t.entries
    ensures t.entries[s.frames[o][d].value] == s.entries[s.frames[o][d].value]
    decreases |steps|
  {
    var x := s.frames[o][d].value;
    FrameLives(s, o, d);
    if steps != [] {
      var u := Applied(s, steps[0]);
      StepOk(s, steps[0]);
      StepFrames(s, steps[0], o, d + 1);
      assert s.frames[o][..d + 1][d] == u.frames[o][..d + 1][d];
      FrameLives(u, o, d);
      Immutable(s, steps[0], x);
      SnapshotStays(u, steps[1..], t, o, d);
    }
  }

  lemma FrameLives(s: State, o: Owner, d: nat)
    requires Ok(s) && o in s.frames && d < |s.frames[o]| && s.frames[o][d].Some?
    ensures s.frames[o][d].value in s.entries
  {
    CountedNoDangling(s);
    assert Place(s, o, d) && At(s, o, d) == s.frames[o][d];
  }
}

/** The snapshots themselves, and the calls on them. */
module AsyncContext {
  import opened ContextState

  class Contexts {
    var entries: map<Snap, seq<Entry>>
    var rc: map<Snap, nat>
    var slot: map<Owner, Option<Snap>>
    var current: Owner
    var next: Snap
    ghost var frames: map<Owner, seq<Option<Snap>>>

    ghost function Now(): State
      reads this
    {
      State(entries, rc, slot, frames, current, next)
    }

    constructor ()
      ensures Ok(Now()) && current == Main && slot[Main] == None
    {
      entries, rc, slot, frames, current, next := map[], map[], map[Main := None], map[Main := []], Main, 0;
      new;
      forall x: Snap ensures Holders(Now(), x) == {} {}
    }

    /** The value of a store in the active context. */
    method Get(id: nat) returns (v: Option<int>)
      requires Ok(Now())
      ensures v == Value(Now(), current, id)
      ensures slot[current] == None ==> v == None
      ensures slot[current].Some? ==> (slot[current].value in entries
        && (v == None <==> forall e :: e in entries[slot[current].value] ==> e.id != id)
        && (v != None ==> Entry(id, v.value) in entries[slot[current].value]))
    {
      var es := ActiveEntries();
      var i := 0;
      while i < |es|
        invariant i <= |es| && forall k :: 0 <= k < i ==> es[k].id != id
      {
        if es[i].id == id {
          FirstIsOnly(es, i);
          return Some(es[i].value);
        }
        i := i + 1;
      }
      NotThere(es, id);
      v := None;
    }

    method ActiveEntries() returns (es: seq<Entry>)
      requires Ok(Now())
      ensures es == EntriesOf(Now(), slot[current]) && UniqueIds(es)
      ensures if slot[current].None? then es == []
              else slot[current].value in entries && es == entries[slot[current].value]
    {
      es := [];
      if slot[current].Some? {
        assert Place(Now(), current, -1) && At(Now(), current, -1) == slot[current];
        CountedNoDangling(Now());
        es := entries[slot[current].value];
      }
    }

    /** `scr_als_enter` and `scr_als_enter_absent`: a fresh snapshot, with `id` set or taken out, becomes active; the
        previous one is the caller's to restore. */
    method Enter(id: nat, v: Option<int>) returns (prev: Option<Snap>)
      requires Ok(Now())
      modifies this
      ensures Ok(Now()) && Now() == Begun(old(Now()), id, v) && prev == old(slot[current])
      ensures current == old(current) && EnteredFor(old(Now()), Now(), current, id, v)
    {
      EnterSees(Now(), id, v);
      BegunOk(Now(), id, v);
      var es := ActiveEntries();
      prev := slot[current];
      var copy := Copy(es, id, v);
      hide Changed, Ok;
      entries, rc := entries[next := copy], rc[next := 1];
      slot, frames := slot[current := Some(next)], frames[current := frames[current] + [prev]];
      next := next + 1;
    }

    /** The entries of a context, copied with `id` set or taken out. */
    method Copy(es: seq<Entry>, id: nat, v: Option<int>) returns (copy: seq<Entry>)
      ensures copy == Changed(es, id, v)
    {
      copy := [];
      var i := 0;
      while i < |es|
        invariant i <= |es| && copy == Without(es[..i], id)
      {
        assert es[..i + 1][..i] == es[..i];
        if es[i].id != id { copy := copy + [es[i]]; }
        i := i + 1;
      }
      assert es[..i] == es;
      if v.Some? { copy := copy + [Entry(id, v.value)]; }
    }

    method Release(p: Option<Snap>)
      requires p.Some? ==> p.value in rc && rc[p.value] > 0
      modifies this`rc, this`entries
      ensures Now() == Released(old(Now()), p)
    {
      if p.None? { return; }
      if rc[p.value] == 1 {
        rc, entries := rc - {p.value}, entries - {p.value};
      } else {
        rc := rc[p.value := rc[p.value] - 1];
      }
    }

    /** `scr_als_restore`, by whoever entered last on this owner. */
    method Restore(prev: Option<Snap>)
      requires Ok(Now()) && frames[current] != [] && prev == frames[current][|frames[current]| - 1]
      modifies this
      ensures Ok(Now()) && Now() == Ended(old(Now())) && slot[current] == prev && current == old(current)
      ensures forall q :: q != current ==> SeesSame(old(Now()), Now(), q)
    {
      forall q | q != current ensures SeesSame(Now(), Ended(Now()), q) { OthersSee(Now(), End, q); }
      EndedOk(Now());
      LiveSlot(Now());
      Release(slot[current]);
      slot := slot[current := prev];
      frames := frames[current := frames[current][..|frames[current]| - 1]];
    }

    /** `enterWith` and `disable`: nothing to restore. */
    method EnterWith(id: nat, v: Option<int>)
      requires Ok(Now())
      modifies this
      ensures Ok(Now()) && Now() == Dropped(Begun(old(Now()), id, v))
      ensures current == old(current) && EnteredFor(old(Now()), Now(), current, id, v)
    {
      EnterSees(Now(), id, v);
      var prev := Enter(id, v);
      DroppedOk(Now());
      LiveFrame(Now());
      Release(prev);
      frames := frames[current := frames[current][..|frames[current]| - 1]];
    }

    /** A fiber starts, and runs at once, in its spawner's context. */
    method Spawn(f: nat)
      requires Ok(Now()) && Fiber(f) !in slot
      modifies this
      ensures Ok(Now()) && Now() == Spawned(old(Now()), f)
      ensures current == Fiber(f) && SpawnedFor(old(Now()), Now(), f)
    {
      SpawnSees(Now(), f);
      SpawnedOk(Now(), f);
      LiveSlot(Now());
      var p := slot[current];
      if p.Some? { rc := rc[p.value := rc[p.value] + 1]; }
      slot, frames := slot[Fiber(f) := p], frames[Fiber(f) := []];
      current := Fiber(f);
    }

    /** A fiber parks or is resumed: the active slot is another owner's. */
    method SwitchTo(o: Owner)
      requires Ok(Now()) && o in slot
      modifies this
      ensures Ok(Now()) && Now() == Switched(old(Now()), o)
      ensures current == o && forall q :: SeesSame(old(Now()), Now(), q)
    {
      SameHolders(Now(), Switched(Now(), o));
      current := o;
    }

    method Destroy(f: nat)
      requires Ok(Now()) && Fiber(f) in slot && frames[Fiber(f)] == [] && current != Fiber(f)
      modifies this
      ensures Ok(Now()) && Now() == Destroyed(old(Now()), f)
      ensures Fiber(f) !in slot && current == old(current) && forall q :: SeesSame(old(Now()), Now(), q)
    {
      DestroySees(Now(), f);
      DestroyedOk(Now(), f);
      var p := slot[Fiber(f)];
      if p.Some? {
        assert Place(Now(), Fiber(f), -1) && At(Now(), Fiber(f), -1) == p;
        CountedNoDangling(Now());
      }
      Release(p);
      slot, frames := slot - {Fiber(f)}, frames - {Fiber(f)};
    }
  }

  lemma LiveSlot(s: State)
    requires Ok(s)
    ensures s.slot[s.current].Some? ==> s.slot[s.current].value in s.rc && s.rc[s.slot[s.current].value] > 0
  {
    CountedNoDangling(s);
    assert Place(s, s.current, -1) && At(s, s.current, -1) == s.slot[s.current];
  }

  lemma LiveFrame(s: State)
    requires Ok(s) && s.frames[s.current] != []
    ensures var p := s.frames[s.current][|s.frames[s.current]| - 1]; p.Some? ==> p.value in s.rc && s.rc[p.value] > 0
  {
    CountedNoDangling(s);
    var n := |s.frames[s.current]| - 1;
    assert Place(s, s.current, n) && At(s, s.current, n) == s.frames[s.current][n];
  }

  lemma {:induction false} FirstIsOnly(es: seq<Entry>, i: nat)
    requires UniqueIds(es) && i < |es|
    ensures Lookup(es, es[i].id) == Some(es[i].value)
  {
    if i < |es| - 1 { FirstIsOnly(es[..|es| - 1], i); }
  }

  lemma {:induction false} NotThere(es: seq<Entry>, id: nat)
    requires forall k :: 0 <= k < |es| ==> es[k].id != id
    ensures Lookup(es, id) == None
  {
    if es != [] { NotThere(es[..|es| - 1], id); }
  }
}
