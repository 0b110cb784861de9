/** The invariant of a reference-counted heap with a cycle collector, and why each step of the mutators and of the
    collector keeps it. */
module HeapState {
  import opened HeapGraph
  import opened CycleState

  /** `traced` are the edges the collector walks, `owned` the counted references only a teardown releases. `held` are
      the references in the hands of everything else: stacks, locals, runtime buffers, and releases under way.
      `dying` are the objects whose count reached zero (or that were gathered as garbage) and that are being torn
      down: still allocated, but no longer owning anything that is not in `held`. */
  datatype State = State(traced: Graph, owned: Graph, rc: Counts, color: Colors, buffered: map<Id, bool>,
                         bufIndex: map<Id, nat>, roots: seq<Id>, held: multiset<Id>, dying: set<Id>)
  {
    ghost function Act(): set<Id> {
      rc.Keys - dying
    }
  }

  ghost predicate Shape(s: State) {
    && s.traced.Keys == s.rc.Keys && s.owned.Keys == s.rc.Keys && s.color.Keys == s.rc.Keys
    && s.buffered.Keys == s.rc.Keys && s.bufIndex.Keys == s.rc.Keys
    && s.dying <= s.rc.Keys
  }

  /** No dangling reference: live objects, holders and the candidate buffer refer to live objects only. */
  ghost predicate Sealed(s: State) {
    && Closed(s.traced, s.Act(), s.Act())
    && Closed(s.owned, s.Act(), s.Act())
    && (forall n :: n in s.held ==> n in s.Act())
    && (forall n :: n in s.roots ==> n in s.Act())
  }

  /** Every count is exactly the number of references to the object. */
  ghost predicate Exact(s: State)
    requires Shape(s)
  {
    forall n :: n in s.Act() ==> s.rc[n] == s.held[n] + InCount(s.traced, s.Act(), n) + InCount(s.owned, s.Act(), n)
  }

  ghost predicate Positive(s: State) {
    forall n :: n in s.Act() ==> s.rc[n] > 0
  }

  ghost predicate Settled(s: State) {
    forall n :: n in s.Act() && n in s.color ==> s.color[n] == Black || s.color[n] == Purple
  }

  /** The buffer holds exactly the objects flagged as buffered, each at its recorded position. */
  ghost predicate BufferOk(roots: seq<Id>, buffered: map<Id, bool>, bufIndex: map<Id, nat>) {
    && buffered.Keys == bufIndex.Keys
    && (forall n :: n in roots ==> n in buffered)
    && (forall n :: n in buffered ==> (buffered[n] <==> n in roots))
    && (forall i :: 0 <= i < |roots| ==> roots[i] in bufIndex && bufIndex[roots[i]] == i)
  }

  /** Objects with a reference that is not a traced edge of a live object. */
  ghost function Anchors(s: State): set<Id>
    requires Shape(s)
  {
    set n | n in s.Act() && s.rc[n] > InCount(s.traced, s.Act(), n)
  }

  /** The buffered objects that are still purple. */
  ghost function Candidates(s: State): set<Id> {
    set n | n in s.roots && n in s.color && s.color[n] == Purple
  }

  /** Nothing is lost: every live object can be reached from an anchor, a candidate or one of `extra`. */
  ghost predicate Covered(s: State, extra: set<Id>)
    requires Shape(s)
  {
    forall C: set<Id> :: Closed(s.traced, s.Act(), C) && Anchors(s) + Candidates(s) + extra <= C ==> s.Act() <= C
  }

  ghost predicate OkBut(s: State, extra: set<Id>) {
    Shape(s) && Sealed(s) && Exact(s) && Positive(s) && Settled(s)
    && BufferOk(s.roots, s.buffered, s.bufIndex) && Covered(s, extra)
  }

  ghost predicate Ok(s: State) {
    OkBut(s, {})
  }

  /** The live objects that no anchor reaches. */
  ghost function Garbage(s: State): set<Id>
    requires Shape(s)
  {
    set n | n in s.Act() && !Reachable(s.traced, s.Act(), Anchors(s), n)
  }

  // ---------------------------------------------------------------------------------------------------------
  // Releases

  lemma HeldIsAnchor(s: State, n: Id)
    requires Shape(s) && Sealed(s) && Exact(s) && n in s.held
    ensures n in s.Act() && n in s.rc && s.rc[n] > 0 && n in Anchors(s)
  {
  }

  /** The last reference to `n` was given up: `n` starts dying, unbuffered, and its own references are now in the
      releasing hands. */
  ghost function Die(s: State, n: Id): State
    requires Shape(s) && n in s.Act()
  {
    s.(rc := s.rc[n := 0], dying := s.dying + {n},
       held := InHand(s.held, n, s.traced[n], s.owned[n]))
  }

  /** The reference to `n` is gone from the hands, the references in its slots are in them. */
  ghost function InHand(held: multiset<Id>, n: Id, traced: seq<Slot>, owned: seq<Slot>): multiset<Id> {
    held - multiset{n} + SlotBag(traced) + SlotBag(owned)
  }

  lemma DieNobodyRefers(s: State, n: Id)
    requires Shape(s) && Exact(s) && n in s.Act() && n in s.held && s.rc[n] == 1
    ensures InCount(s.traced, s.Act(), n) == 0 && InCount(s.owned, s.Act(), n) == 0 && s.held[n] == 1
    ensures forall m, i :: m in s.Act() && 0 <= i < |s.traced[m]| ==> s.traced[m][i] != Ref(n)
    ensures forall m, i :: m in s.Act() && 0 <= i < |s.owned[m]| ==> s.owned[m][i] != Ref(n)
  {
    InCountHas(s.traced, s.Act(), n);
    InCountHas(s.owned, s.Act(), n);
  }

  lemma DieFields(s: State, n: Id)
    requires Shape(s) && n in s.Act() && n in s.held
    ensures var t := Die(s, n);
      && t == s.(rc := s.rc[n := 0], dying := s.dying + {n}, held := t.held)
      && Shape(t) && t.Act() == s.Act() - {n}
      && forall m :: m in t.held <==> t.held[m] > 0
  {
    assert Die(s, n).Act() == s.Act() - {n};
  }

  lemma DieHeld(s: State, n: Id, m: Id)
    requires Shape(s) && n in s.Act() && n in s.held
    ensures Die(s, n).held[m] ==
            s.held[m] - (if m == n then 1 else 0) + SlotCount(s.traced[n], m) + SlotCount(s.owned[n], m)
  {
    SlotBagCount(s.traced[n], m);
    SlotBagCount(s.owned[n], m);
  }

  lemma DieExact(s: State, n: Id)
    requires Shape(s) && Exact(s) && n in s.Act() && n in s.held && s.rc[n] == 1
    ensures Shape(Die(s, n)) && Exact(Die(s, n)) && Die(s, n).Act() == s.Act() - {n}
  {
    var t := Die(s, n);
    assert t.Act() == s.Act() - {n};
    forall m | m in t.Act()
      ensures t.rc[m] == t.held[m] + InCount(t.traced, t.Act(), m) + InCount(t.owned, t.Act(), m)
    {
      DieHeld(s, n, m);
      InCountRemove(s.traced, s.Act(), n, m);
      InCountRemove(s.owned, s.Act(), n, m);
    }
  }

  lemma DieSealed(s: State, n: Id)
    requires Shape(s) && Exact(s) && Sealed(s) && n in s.Act() && n in s.held && s.rc[n] == 1 && n !in s.roots
    ensures Sealed(Die(s, n))
  {
    hide Die, Exact;
    var t := Die(s, n);
    DieFields(s, n);
    DieNobodyRefers(s, n);
    forall m | m in t.held ensures m in t.Act() {
      DieHeld(s, n, m);
      SlotCountHas(s.traced[n], m);
      SlotCountHas(s.owned[n], m);
    }
  }

  lemma DieCovered(s: State, n: Id)
    requires Shape(s) && Exact(s) && Sealed(s) && Covered(s, {n})
    requires n in s.Act() && n in s.held && s.rc[n] == 1 && n !in s.roots
    ensures Shape(Die(s, n)) && Covered(Die(s, n), {})
  {
    hide Die, Exact, Sealed;
    var t := Die(s, n);
    DieFields(s, n);
    forall C: set<Id> | Closed(t.traced, t.Act(), C) && Anchors(t) + Candidates(t) + {} <= C ensures t.Act() <= C {
      DieChildrenHeld(s, n, C);
      DieAnchors(s, n);
      assert Closed(s.traced, s.Act(), C + {n});
      assert Candidates(s) <= C + {n} by { assert Candidates(t) == Candidates(s); }
      assert Anchors(s) + Candidates(s) + {n} <= C + {n};
    }
  }

  lemma DieChildrenHeld(s: State, n: Id, C: set<Id>)
    requires Shape(s) && Exact(s) && Sealed(s)
    requires n in s.Act() && n in s.held && s.rc[n] == 1 && n !in s.roots
    requires Shape(Die(s, n)) && Anchors(Die(s, n)) <= C
    ensures forall i :: 0 <= i < |s.traced[n]| && s.traced[n][i].Ref? ==> s.traced[n][i].id in C
  {
    var t := Die(s, n);
    DieExact(s, n);
    DieSealed(s, n);
    hide Die, Exact, Sealed;
    DieFields(s, n);
    forall i | 0 <= i < |s.traced[n]| && s.traced[n][i].Ref? ensures s.traced[n][i].id in C {
      var k := s.traced[n][i].id;
      DieHeld(s, n, k);
      SlotCountHas(s.traced[n], k);
      assert k != n by { DieNobodyRefers(s, n); }
      HeldIsAnchor(t, k);
    }
  }

  lemma DieAnchors(s: State, n: Id)
    requires Shape(s) && n in s.Act() && n in s.held
    ensures Shape(Die(s, n)) && Anchors(s) <= Anchors(Die(s, n)) + {n}
  {
    hide Die;
    DieFields(s, n);
    forall a | a in Anchors(s) && a != n ensures a in Anchors(Die(s, n)) {
      InCountRemove(s.traced, s.Act(), n, a);
    }
  }

  lemma DieOk(s: State, n: Id)
    requires OkBut(s, {n}) && n in s.held && n in s.Act() && s.rc[n] == 1 && n !in s.roots
    ensures Ok(Die(s, n))
  {
    DieExact(s, n);
    DieSealed(s, n);
    DieCovered(s, n);
    hide Die, Exact, Sealed, Covered;
    DieFields(s, n);
  }

  /** `n` loses one of several references and becomes a purple, buffered candidate. */
  ghost function Drop(s: State, n: Id): State
    requires n in s.rc && s.rc[n] > 0
  {
    s.(rc := s.rc[n := s.rc[n] - 1], held := s.held - multiset{n})
  }

  lemma DropExact(s: State, n: Id)
    requires Shape(s) && Exact(s) && n in s.held && n in s.Act() && s.rc[n] > 0
    ensures Shape(Drop(s, n)) && Exact(Drop(s, n))
  {
    assert Drop(s, n).Act() == s.Act();
  }

  lemma DropCovered(s: State, n: Id)
    requires Shape(s) && Covered(s, {}) && n in s.Act() && s.rc[n] > 0
    ensures Shape(Drop(s, n)) && Covered(Drop(s, n), {n})
  {
    var t := Drop(s, n);
    assert t.Act() == s.Act();
    forall C: set<Id> | Closed(t.traced, t.Act(), C) && Anchors(t) + Candidates(t) + {n} <= C ensures t.Act() <= C {
      forall a | a in Anchors(s) ensures a in C {
        if a != n { assert a in Anchors(t); }
      }
      assert Candidates(s) == Candidates(t);
      assert Anchors(s) + Candidates(s) + {} <= C;
    }
  }

  lemma DropOk(s: State, n: Id)
    requires Ok(s) && n in s.held && n in s.rc && s.rc[n] > 1
    ensures OkBut(Drop(s, n), {n})
  {
    hide Exact, Covered, Sealed, BufferOk;
    HeldLives(s, n);
    DropExact(s, n);
    DropCovered(s, n);
    DropSealed(s, n);
    assert Drop(s, n).Act() == s.Act();
  }

  lemma HeldLives(s: State, n: Id)
    requires Ok(s) && n in s.held
    ensures n in s.Act()
  {
    hide Exact, Covered, BufferOk, Positive, Settled, Closed;
  }

  lemma DropSealed(s: State, n: Id)
    requires Shape(s) && Sealed(s) && n in s.Act() && s.rc[n] > 0
    ensures Sealed(Drop(s, n))
  {
    assert Drop(s, n).Act() == s.Act();
    assert forall m :: m in Drop(s, n).held ==> m in s.held;
  }

  /** Flagging `n` as a purple candidate covers everything below it. */
  lemma PurpleOk(s: State, n: Id, t: State)
    requires OkBut(s, {n}) && n in s.Act()
    requires t == s.(color := s.color[n := Purple], roots := t.roots, buffered := t.buffered, bufIndex := t.bufIndex)
    requires t.buffered.Keys == s.rc.Keys && BufferOk(t.roots, t.buffered, t.bufIndex)
    requires n in t.roots && forall m :: m in t.roots <==> m in s.roots || m == n
    ensures Ok(t)
  {
    assert t.Act() == s.Act();
    assert Anchors(t) == Anchors(s);
    forall C: set<Id> | Closed(t.traced, t.Act(), C) && Anchors(t) + Candidates(t) + {} <= C ensures t.Act() <= C {
      assert Candidates(s) + {n} <= Candidates(t);
    }
  }

  /** Taking the torn-down `n` out of the heap. */
  ghost function Freed(s: State, n: Id): State {
    s.(traced := s.traced - {n}, owned := s.owned - {n}, rc := s.rc - {n}, color := s.color - {n},
       buffered := s.buffered - {n}, bufIndex := s.bufIndex - {n}, dying := s.dying - {n})
  }

  lemma FreedCounts(s: State, n: Id, m: Id)
    requires Shape(s) && n in s.dying
    ensures Shape(Freed(s, n)) && Freed(s, n).Act() == s.Act()
    ensures InCount(Freed(s, n).traced, s.Act(), m) == InCount(s.traced, s.Act(), m)
    ensures InCount(Freed(s, n).owned, s.Act(), m) == InCount(s.owned, s.Act(), m)
  {
    var t := Freed(s, n);
    assert t.Act() == s.Act();
    InCountAgree(s.traced, t.traced, s.Act(), m);
    InCountAgree(s.owned, t.owned, s.Act(), m);
  }

  lemma FreedCovered(s: State, n: Id)
    requires Shape(s) && Sealed(s) && Covered(s, {}) && n in s.dying
    ensures Shape(Freed(s, n)) && Covered(Freed(s, n), {})
  {
    var t := Freed(s, n);
    forall m ensures Shape(t) && t.Act() == s.Act() && InCount(t.traced, s.Act(), m) == InCount(s.traced, s.Act(), m) {
      FreedCounts(s, n, m);
    }
    assert t.Act() == s.Act() by { FreedCounts(s, n, n); }
    assert Anchors(t) == Anchors(s);
    assert Candidates(t) == Candidates(s);
    forall C: set<Id> | Closed(t.traced, t.Act(), C) && Anchors(t) + Candidates(t) + {} <= C ensures t.Act() <= C {
      assert Closed(s.traced, s.Act(), C);
    }
  }

  lemma FreedSealed(s: State, n: Id)
    requires Shape(s) && Sealed(s) && n in s.dying
    ensures Sealed(Freed(s, n))
  {
    FreedCounts(s, n, n);
  }

  lemma FreedOk(s: State, n: Id)
    requires Ok(s) && n in s.dying
    ensures Shape(s) && Ok(Freed(s, n)) && Freed(s, n).Act() == s.Act()
  {
    FreedCounts(s, n, n);
    FreedSealed(s, n);
    FreedCovered(s, n);
    FreedExact(s, n);
    FreedRest(s, n);
    hide Sealed, Covered, Exact, Positive, Settled, BufferOk, InCount;
  }

  lemma FreedRest(s: State, n: Id)
    requires Ok(s) && n in s.dying
    ensures Shape(Freed(s, n)) && Positive(Freed(s, n)) && Settled(Freed(s, n))
    ensures BufferOk(Freed(s, n).roots, Freed(s, n).buffered, Freed(s, n).bufIndex)
  {
    hide Closed, Covered, Exact, InCount;
    assert Freed(s, n).Act() == s.Act();
    assert n !in s.roots;
    hide Sealed;
  }

  lemma FreedExact(s: State, n: Id)
    requires Ok(s) && n in s.dying
    ensures Shape(Freed(s, n)) && Exact(Freed(s, n))
  {
    hide Sealed, Covered, Settled, BufferOk, Positive, InCount;
    var t := Freed(s, n);
    FreedCounts(s, n, n);
    forall m | m in t.Act()
      ensures t.rc[m] == t.held[m] + InCount(t.traced, t.Act(), m) + InCount(t.owned, t.Act(), m)
    {
      FreedCounts(s, n, m);
    }
  }

  ghost function Retained(s: State, n: Id): State
    requires n in s.rc
  {
    s.(rc := s.rc[n := s.rc[n] + 1], color := s.color[n := Black], held := s.held + multiset{n})
  }

  /** A retained object is held, hence an anchor, whatever colour it loses. */
  lemma RetainOk(s: State, n: Id)
    requires Ok(s) && n in s.Act()
    ensures n in s.rc && Ok(Retained(s, n))
  {
    var t := Retained(s, n);
    assert t.Act() == s.Act();
    RetainExact(s, n);
    RetainCovered(s, n);
    hide Exact, Covered;
  }

  lemma RetainExact(s: State, n: Id)
    requires Shape(s) && Exact(s) && n in s.Act()
    ensures Shape(Retained(s, n)) && Exact(Retained(s, n))
  {
    assert Retained(s, n).Act() == s.Act();
  }

  lemma RetainCovered(s: State, n: Id)
    requires Shape(s) && Exact(s) && Sealed(s) && Covered(s, {}) && n in s.Act()
    ensures Shape(Retained(s, n)) && Covered(Retained(s, n), {})
  {
    var t := Retained(s, n);
    RetainExact(s, n);
    assert t.Act() == s.Act();
    assert n in t.held && Sealed(t);
    HeldIsAnchor(t, n);
    hide Exact, Sealed;
    forall C: set<Id> | Closed(t.traced, t.Act(), C) && Anchors(t) + Candidates(t) + {} <= C ensures t.Act() <= C {
      forall a | a in Anchors(s) + Candidates(s) ensures a in C {
        if a in Anchors(s) { assert a in Anchors(t); } else if a != n { assert a in Candidates(t); }
      }
    }
  }

  // ---------------------------------------------------------------------------------------------------------
  // Collection

  /** What marking and scanning established: `R` is the region of the candidates, `B` its part that went back to
      black, `rcG` the counts with every edge inside the region taken out, `rc1` and `color1` the outcome. */
  ghost predicate Partition(s: State, R: set<Id>, B: set<Id>, rcG: Counts, rc1: Counts, color1: Colors) {
    && Shape(s) && R <= s.Act()
    && Closed(s.traced, s.Act(), R) && Candidates(s) <= R
    && (forall C: set<Id> :: Closed(s.traced, s.Act(), C) && Candidates(s) <= C ==> R <= C)
    && Differ(s.traced, R, [], rcG, s.rc)
    && ScanInv(s.traced, R, B, rcG, rc1, color1)
    && (forall m :: m in R ==> color1[m] != Gray)
  }

  /** Every count gave up exactly the references of the garbage. */
  lemma PartitionCounts(s: State, R: set<Id>, B: set<Id>, rcG: Counts, rc1: Counts, color1: Colors, m: Id)
    requires Partition(s, R, B, rcG, rc1, color1) && m in s.rc
    ensures m in rc1 && rc1[m] + InCount(s.traced, R - B, m) == s.rc[m]
    ensures m in rcG && rcG[m] + InCount(s.traced, R, m) == s.rc[m]
    ensures m in R - B ==> rcG[m] == 0
    ensures InCount(s.traced, s.Act(), m) == InCount(s.traced, R, m) + InCount(s.traced, s.Act() - R, m)
    ensures InCount(s.traced, R, m) == InCount(s.traced, B, m) + InCount(s.traced, R - B, m)
  {
    InCountDiff(s.traced, R, B, m);
    InCountDiff(s.traced, s.Act(), R, m);
  }

  /** Garbage has no reference from outside the garbage: not held, not owned, not traced by a survivor. */
  lemma PartitionIsolated(s: State, R: set<Id>, B: set<Id>, rcG: Counts, rc1: Counts, color1: Colors, d: Id)
    requires Partition(s, R, B, rcG, rc1, color1) && Exact(s) && d in R - B
    ensures d !in s.held && d !in Anchors(s)
    ensures InCount(s.traced, s.Act() - (R - B), d) == 0 && InCount(s.owned, s.Act(), d) == 0
  {
    PartitionCounts(s, R, B, rcG, rc1, color1, d);
    NoReferenceOut(s.traced, R, B, d);
    InCountDiff(s.traced, s.Act(), R - B, d);
    assert s.rc[d] == s.held[d] + InCount(s.traced, s.Act(), d) + InCount(s.owned, s.Act(), d);
    hide Partition, Exact;
  }

  lemma PartitionClosed(s: State, R: set<Id>, B: set<Id>, rcG: Counts, rc1: Counts, color1: Colors)
    requires Partition(s, R, B, rcG, rc1, color1) && Exact(s) && Sealed(s)
    ensures Closed(s.traced, s.Act(), s.Act() - (R - B))
    ensures Closed(s.owned, s.Act(), s.Act() - (R - B))
    ensures Anchors(s) <= s.Act() - (R - B)
    ensures forall m :: m in s.held ==> m in s.Act() - (R - B)
  {
    var L := s.Act() - (R - B);
    forall m, i | m in L && m in s.traced && 0 <= i < |s.traced[m]| && s.traced[m][i].Ref?
      ensures s.traced[m][i].id in L
    {
      var d := s.traced[m][i].id;
      if d in R - B {
        PartitionIsolated(s, R, B, rcG, rc1, color1, d);
        InCountHas(s.traced, L, d);
      }
    }
    forall m, i | m in L && m in s.owned && 0 <= i < |s.owned[m]| && s.owned[m][i].Ref?
      ensures s.owned[m][i].id in L
    {
      var d := s.owned[m][i].id;
      if d in R - B {
        PartitionIsolated(s, R, B, rcG, rc1, color1, d);
        InCountHas(s.owned, s.Act(), d);
      }
    }
    forall d | d in R - B ensures d !in Anchors(s) && d !in s.held {
      PartitionIsolated(s, R, B, rcG, rc1, color1, d);
    }
  }

  /** Every survivor is reachable from an anchor. */
  lemma PartitionLive(s: State, R: set<Id>, B: set<Id>, rcG: Counts, rc1: Counts, color1: Colors, C: set<Id>)
    requires Partition(s, R, B, rcG, rc1, color1) && Covered(s, {}) && Sealed(s)
    requires Closed(s.traced, s.Act(), C) && Anchors(s) <= C
    ensures s.Act() - (R - B) <= C
  {
    PartitionElsewhere(s, R, B, rcG, rc1, color1, C);
    forall x | x in External(R, rcG) ensures x in C {
      PartitionExternal(s, R, B, rcG, rc1, color1, C, x);
    }
    hide Covered, Sealed;
    assert Closed(s.traced, R, C);
  }

  lemma PartitionElsewhere(s: State, R: set<Id>, B: set<Id>, rcG: Counts, rc1: Counts, color1: Colors, C: set<Id>)
    requires Partition(s, R, B, rcG, rc1, color1) && Covered(s, {})
    requires Closed(s.traced, s.Act(), C) && Anchors(s) <= C
    ensures s.Act() <= C + R
  {
    assert Closed(s.traced, s.Act(), C + R);
    assert Anchors(s) + Candidates(s) + {} <= C + R;
  }

  /** An object with a count left after trial deletion is an anchor or is traced from outside the region. */
  lemma PartitionExternal(s: State, R: set<Id>, B: set<Id>, rcG: Counts, rc1: Counts, color1: Colors, C: set<Id>, x: Id)
    requires Partition(s, R, B, rcG, rc1, color1) && x in External(R, rcG)
    requires Closed(s.traced, s.Act(), C) && Anchors(s) <= C && s.Act() <= C + R
    ensures x in C
  {
    PartitionCounts(s, R, B, rcG, rc1, color1, x);
    hide Partition;
    if x !in Anchors(s) {
      InCountHas(s.traced, s.Act() - R, x);
      var m, i :| m in s.Act() - R && 0 <= i < |s.traced[m]| && s.traced[m][i] == Ref(x);
      assert s.traced[m][i].id in C;
    }
  }

  /** The white objects are exactly the garbage. */
  lemma PartitionGarbage(s: State, R: set<Id>, B: set<Id>, rcG: Counts, rc1: Counts, color1: Colors)
    requires Partition(s, R, B, rcG, rc1, color1) && Exact(s) && Sealed(s) && Covered(s, {})
    ensures Garbage(s) == R - B
  {
    PartitionClosed(s, R, B, rcG, rc1, color1);
    forall n | n in s.Act() ensures n in R - B <==> n in Garbage(s) {
      if n in R - B {
        assert Closed(s.traced, s.Act(), s.Act() - (R - B));
      } else {
        forall C: set<Id> | Closed(s.traced, s.Act(), C) && Anchors(s) <= C ensures n in C {
          PartitionLive(s, R, B, rcG, rc1, color1, C);
        }
      }
    }
  }

  /** The heap with the garbage gathered: the garbage is dying, what it owned is in the releasing hands, the buffer
      is drained. */
  ghost predicate Gathered(s: State, D: set<Id>, t: State) {
    && D <= s.Act() && D <= s.owned.Keys
    && t.traced == s.traced && t.owned == s.owned && t.dying == s.dying + D
    && t.rc.Keys == s.rc.Keys && t.color.Keys == s.color.Keys
    && (forall m :: m in s.rc && m in t.rc ==> D <= s.traced.Keys && t.rc[m] + InCount(s.traced, D, m) == s.rc[m])
    && (forall m :: t.held[m] == s.held[m] + InCount(s.owned, D, m))
    && (forall m :: m in t.Act() && m in t.color ==> t.color[m] == Black || t.color[m] == Purple)
    && t.buffered.Keys == s.buffered.Keys && t.roots == [] && BufferOk(t.roots, t.buffered, t.bufIndex)
  }

  lemma GatheredExact(s: State, D: set<Id>, t: State)
    requires Ok(s) && Gathered(s, D, t) && D == Garbage(s)
    ensures Shape(t) && Exact(t) && t.Act() == s.Act() - D
  {
    assert t.Act() == s.Act() - D;
    forall m | m in t.Act()
      ensures t.rc[m] == t.held[m] + InCount(t.traced, t.Act(), m) + InCount(t.owned, t.Act(), m)
    {
      InCountDiff(s.traced, s.Act(), D, m);
      InCountDiff(s.owned, s.Act(), D, m);
    }
  }

  /** Survivors are closed, hence sealed. */
  lemma GarbageClosed(s: State)
    requires Shape(s) && Sealed(s)
    ensures Closed(s.traced, s.Act(), s.Act() - Garbage(s))
    ensures Anchors(s) <= s.Act() - Garbage(s)
  {
    var L := s.Act() - Garbage(s);
    forall m, i | m in L && m in s.traced && 0 <= i < |s.traced[m]| && s.traced[m][i].Ref?
      ensures s.traced[m][i].id in L
    {
      var k := s.traced[m][i].id;
      forall C: set<Id> | Closed(s.traced, s.Act(), C) && Anchors(s) <= C ensures k in C {
        assert m in C;
      }
    }
  }

  /** Objects held or owned are anchors, so they survive. */
  lemma ReferencedSurvives(s: State, m: Id)
    requires Shape(s) && Exact(s) && Sealed(s) && m in s.Act()
    requires s.held[m] > 0 || InCount(s.owned, s.Act(), m) > 0
    ensures m in s.Act() - Garbage(s)
  {
    GarbageClosed(s);
  }

  lemma GatheredSealed(s: State, D: set<Id>, t: State)
    requires Ok(s) && Gathered(s, D, t) && D == Garbage(s)
    ensures Sealed(t)
  {
    assert t.Act() == s.Act() - D;
    GarbageClosed(s);
    forall m, i | m in t.Act() && m in t.owned && 0 <= i < |t.owned[m]| && t.owned[m][i].Ref?
      ensures t.owned[m][i].id in t.Act()
    {
      var k := t.owned[m][i].id;
      InCountHas(s.owned, s.Act(), k);
      ReferencedSurvives(s, k);
    }
    forall m | m in t.held ensures m in t.Act() {
      InCountDiff(s.owned, s.Act(), D, m);
      if s.held[m] == 0 {
        InCountHas(s.owned, s.Act(), m);
      }
      ReferencedSurvives(s, m);
    }
  }

  /** The survivors' anchors are those of before. */
  lemma GatheredAnchors(s: State, D: set<Id>, t: State)
    requires Ok(s) && Gathered(s, D, t) && D == Garbage(s) && Shape(t)
    ensures Anchors(s) <= Anchors(t)
  {
    GarbageClosed(s);
    assert t.Act() == s.Act() - D;
    forall a | a in Anchors(s) ensures a in Anchors(t) {
      InCountDiff(s.traced, s.Act(), D, a);
    }
  }

  lemma GatheredPositive(s: State, D: set<Id>, t: State)
    requires Ok(s) && Gathered(s, D, t) && D == Garbage(s)
    ensures Positive(t)
  {
    GatheredExact(s, D, t);
    GatheredAnchors(s, D, t);
    forall n | n in t.Act() ensures t.rc[n] > 0 {
      if n !in Anchors(s) && InCount(s.traced, s.Act() - Garbage(s), n) == 0 { UnreferencedIsGarbage(s, n); }
    }
  }

  /** An object no survivor refers to is garbage: the survivors without it are closed around the anchors. */
  lemma UnreferencedIsGarbage(s: State, n: Id)
    requires Shape(s) && Sealed(s) && n in s.Act()
    requires n !in Anchors(s) && InCount(s.traced, s.Act() - Garbage(s), n) == 0
    ensures n in Garbage(s)
  {
    var C := s.Act() - Garbage(s) - {n};
    InCountHas(s.traced, s.Act() - Garbage(s), n);
    GarbageClosed(s);
    hide Sealed;
    assert Closed(s.traced, s.Act(), C);
  }

  lemma GatheredCovered(s: State, D: set<Id>, t: State)
    requires Ok(s) && Gathered(s, D, t) && D == Garbage(s) && Shape(t)
    ensures Covered(t, {})
  {
    GatheredAnchors(s, D, t);
    GarbageClosed(s);
    assert t.Act() == s.Act() - D;
    hide Ok, OkBut, Sealed;
    forall C: set<Id> | Closed(t.traced, t.Act(), C) && Anchors(t) + Candidates(t) + {} <= C ensures t.Act() <= C {
      hide Anchors, Candidates, Garbage;
      GatheredInside(s, D, t, C);
    }
  }

  /** A closed set around the anchors contains what they reach. */
  lemma GatheredInside(s: State, D: set<Id>, t: State, C: set<Id>)
    requires Shape(s) && Shape(t) && D == Garbage(s) && t.traced == s.traced && t.Act() == s.Act() - D
    requires Closed(s.traced, s.Act(), t.Act()) && Anchors(s) <= t.Act()
    requires Closed(t.traced, t.Act(), C) && Anchors(s) <= C
    ensures t.Act() <= C
  {
    hide Anchors;
    var C' := C * t.Act();
    assert Closed(s.traced, s.Act(), C');
    forall n | n in t.Act() ensures n in C {
      assert Reachable(s.traced, s.Act(), Anchors(s), n);
    }
  }

  /** Gathering the garbage keeps the invariant. */
  lemma GatheredOk(s: State, D: set<Id>, t: State)
    requires Ok(s) && Gathered(s, D, t) && D == Garbage(s)
    ensures Ok(t) && t.Act() == s.Act() - D
  {
    GatheredExact(s, D, t);
    GatheredSealed(s, D, t);
    GatheredPositive(s, D, t);
    GatheredCovered(s, D, t);
    hide Exact, Sealed, Positive, Covered;
  }

  // ---------------------------------------------------------------------------------------------------------
  // What every operation leaves alone

  /** From `s` to `t` objects were only freed: the survivors own what they owned, and exactly the objects in
      `s.dying` other than `gone` are still being torn down. */
  ghost predicate Shrunk(s: State, t: State, gone: set<Id>) {
    && t.dying == s.dying - gone
    && t.dying <= t.rc.Keys <= s.rc.Keys
    && t.Act() <= s.Act()
    && (forall n :: n in t.traced ==> n in s.traced && t.traced[n] == s.traced[n])
    && (forall n :: n in t.owned ==> n in s.owned && t.owned[n] == s.owned[n])
  }

  lemma ShrunkTrans(s: State, t: State, u: State, gone: set<Id>, gone': set<Id>)
    requires Shrunk(s, t, gone) && Shrunk(t, u, gone')
    ensures Shrunk(s, u, gone + gone')
  {
  }

  /** Nothing about the live objects changed between `s` and `t`. */
  ghost predicate Quiet(s: State, t: State) {
    && t.Act() == s.Act() && t.roots == s.roots
    && forall n :: n in t.Act() && n in s.rc ==> n in t.rc && t.rc[n] == s.rc[n]
  }

  lemma FreedShrinks(s: State, n: Id)
    requires Shape(s) && n in s.dying
    ensures Shrunk(s, Freed(s, n), {n}) && Quiet(s, Freed(s, n))
  {
    assert Freed(s, n).Act() == s.Act();
  }

  /** One reference to `n` was given back. */
  ghost predicate Released(s: State, t: State, n: Id) {
    Ok(t) && Shrunk(s, t, {}) && t.held == s.held - multiset{n}
  }

  /** The references held by the slots `gone` were given back. */
  ghost predicate GaveUp(s: State, t: State, gone: multiset<Id>) {
    && Ok(t) && Shrunk(s, t, {}) && t.held == s.held - gone
    && (gone == multiset{} ==> Quiet(s, t))
  }

  lemma GaveUpNothing(s: State)
    requires Ok(s)
    ensures GaveUp(s, s, multiset{})
  {
  }

  lemma GaveUpMore(s: State, t: State, u: State, a: multiset<Id>, n: Id)
    requires GaveUp(s, t, a) && Released(t, u, n)
    ensures GaveUp(s, u, a + multiset{n})
  {
    assert a + multiset{n} != multiset{} by { assert (a + multiset{n})[n] > 0; }
    ShrunkTrans(s, t, u, {}, {});
    hide Ok, Quiet, Shrunk;
    var none: set<Id> := {};
    assert none + none == none;
  }

  /** A fresh candidate buffer without entries means nothing is garbage. */
  lemma NoCandidatesNoGarbage(s: State)
    requires Ok(s) && s.roots == []
    ensures Garbage(s) == {}
  {
    forall n | n in s.Act() ensures Reachable(s.traced, s.Act(), Anchors(s), n) {
      assert Candidates(s) == {};
    }
  }

  /** What one collection does: everything not reachable from an anchor is freed, references in hand are untouched;
      and when the garbage owns no untraced references, nothing else is freed and every survivor's count went down by
      exactly the references traced from the garbage. */
  ghost predicate Collected(s: State, t: State) {
    && Shape(s) && Ok(t) && Shrunk(s, t, {}) && t.held == s.held
    && t.Act() <= s.Act() - Garbage(s)
    && ((forall n :: n in Garbage(s) && n in s.owned ==> SlotBag(s.owned[n]) == multiset{}) ==>
          t.Act() == s.Act() - Garbage(s) && t.roots == []
          && forall n :: n in t.Act() && n in t.rc && Garbage(s) <= s.traced.Keys ==>
               t.rc[n] + InCount(s.traced, Garbage(s), n) == s.rc[n])
  }

  // ---------------------------------------------------------------------------------------------------------
  // Mutators

  /** A fresh object without references, in the hands of its creator. */
  ghost function Allocated(s: State, n: Id): State {
    s.(traced := s.traced[n := []], owned := s.owned[n := []], rc := s.rc[n := 1], color := s.color[n := Black],
       buffered := s.buffered[n := false], bufIndex := s.bufIndex[n := 0], held := s.held + multiset{n})
  }

  lemma AllocatedCounts(s: State, n: Id, m: Id)
    requires Shape(s) && n !in s.rc
    ensures Shape(Allocated(s, n)) && Allocated(s, n).Act() == s.Act() + {n}
    ensures InCount(Allocated(s, n).traced, s.Act() + {n}, m) == InCount(s.traced, s.Act(), m)
    ensures InCount(Allocated(s, n).owned, s.Act() + {n}, m) == InCount(s.owned, s.Act(), m)
  {
    AllocatedShape(s, n);
    AllocatedCount(s.traced, s.Act(), n, m);
    AllocatedCount(s.owned, s.Act(), n, m);
  }

  lemma AllocatedShape(s: State, n: Id)
    requires Shape(s) && n !in s.rc
    ensures Shape(Allocated(s, n)) && Allocated(s, n).Act() == s.Act() + {n}
  {
  }

  /** A node without slots adds no reference. */
  lemma AllocatedCount(g: Graph, act: set<Id>, n: Id, m: Id)
    requires act <= g.Keys && n !in g
    ensures InCount(g[n := []], act + {n}, m) == InCount(g, act, m)
  {
    InCountRemove(g[n := []], act + {n}, n, m);
    assert act + {n} - {n} == act;
    InCountAgree(g, g[n := []], act, m);
  }

  lemma AllocatedFresh(s: State, n: Id)
    requires Shape(s) && Sealed(s) && n !in s.rc
    ensures InCount(s.traced, s.Act(), n) == 0 && InCount(s.owned, s.Act(), n) == 0 && s.held[n] == 0
  {
    InCountHas(s.traced, s.Act(), n);
    InCountHas(s.owned, s.Act(), n);
  }

  lemma AllocatedExact(s: State, n: Id)
    requires Shape(s) && Sealed(s) && Exact(s) && n !in s.rc
    ensures Shape(Allocated(s, n)) && Exact(Allocated(s, n))
  {
    hide Sealed, Closed, InCount;
    AllocatedFresh(s, n);
    var t := Allocated(s, n);
    AllocatedCounts(s, n, n);
    forall m | m in t.Act()
      ensures t.rc[m] == t.held[m] + InCount(t.traced, t.Act(), m) + InCount(t.owned, t.Act(), m)
    {
      AllocatedCounts(s, n, m);
    }
  }

  lemma AllocatedCovered(s: State, n: Id)
    requires Shape(s) && Sealed(s) && Exact(s) && Covered(s, {}) && n !in s.rc
    ensures Shape(Allocated(s, n)) && Covered(Allocated(s, n), {})
  {
    hide Exact, Sealed;
    var t := Allocated(s, n);
    AllocatedAnchors(s, n);
    forall C: set<Id> | Closed(t.traced, t.Act(), C) && Anchors(t) + Candidates(t) + {} <= C ensures t.Act() <= C {
      assert Closed(s.traced, s.Act(), C);
      assert Candidates(s) - {n} <= Candidates(t);
      assert n !in Anchors(s);
      assert Anchors(s) + Candidates(s) + {} <= C;
    }
  }

  lemma AllocatedAnchors(s: State, n: Id)
    requires Shape(s) && Sealed(s) && n !in s.rc
    ensures Shape(Allocated(s, n)) && Anchors(s) + {n} <= Anchors(Allocated(s, n))
    ensures Allocated(s, n).Act() == s.Act() + {n}
  {
    AllocatedFresh(s, n);
    AllocatedCounts(s, n, n);
    hide *;
    forall a | a in Anchors(s) ensures a in Anchors(Allocated(s, n)) { AllocatedAnchor(s, n, a); }
    AllocatedIsAnchor(s, n);
  }

  lemma AllocatedAnchor(s: State, n: Id, a: Id)
    requires Shape(s) && n !in s.rc && a in Anchors(s)
    ensures Shape(Allocated(s, n)) && a in Anchors(Allocated(s, n))
  {
    AllocatedCounts(s, n, a);
  }

  lemma AllocatedIsAnchor(s: State, n: Id)
    requires Shape(s) && n !in s.rc && InCount(s.traced, s.Act(), n) == 0
    ensures Shape(Allocated(s, n)) && n in Anchors(Allocated(s, n))
  {
    AllocatedCounts(s, n, n);
  }

  lemma AllocatedSealed(s: State, n: Id)
    requires Shape(s) && Sealed(s) && n !in s.rc
    ensures Sealed(Allocated(s, n))
  {
    assert Allocated(s, n).Act() == s.Act() + {n};
  }

  lemma AllocatedOk(s: State, n: Id)
    requires Ok(s) && n !in s.rc
    ensures Ok(Allocated(s, n)) && Allocated(s, n).Act() == s.Act() + {n}
  {
    hide Exact, Covered, Sealed, Positive, Settled, BufferOk, Allocated;
    AllocatedExact(s, n);
    AllocatedCovered(s, n);
    AllocatedSealed(s, n);
    AllocatedCounts(s, n, n);
    AllocatedHeader(s, n);
  }

  lemma AllocatedHeader(s: State, n: Id)
    requires Shape(s) && Positive(s) && Settled(s) && BufferOk(s.roots, s.buffered, s.bufIndex) && n !in s.rc
    ensures Positive(Allocated(s, n)) && Settled(Allocated(s, n))
    ensures BufferOk(Allocated(s, n).roots, Allocated(s, n).buffered, Allocated(s, n).bufIndex)
  {
  }

  /** `o` now owns the slots `after` instead of `before`; whatever left the slots is in hand, whatever entered them
      was. The mutator's own reference to `o` stays in hand throughout. */
  ghost predicate Relinked(s: State, t: State, o: Id, after: seq<Slot>) {
    && o in s.traced && o in s.Act() && t.held[o] > 0 && s.held[o] > 0
    && t == s.(traced := s.traced[o := after], held := t.held)
    && forall m :: t.held[m] + SlotCount(after, m) == s.held[m] + SlotCount(s.traced[o], m)
  }

  lemma RelinkedCounts(s: State, t: State, o: Id, after: seq<Slot>, m: Id)
    requires Shape(s) && Relinked(s, t, o, after)
    ensures Shape(t) && t.Act() == s.Act()
    ensures InCount(t.traced, t.Act(), m) + SlotCount(s.traced[o], m)
            == InCount(s.traced, s.Act(), m) + SlotCount(after, m)
  {
    assert t.Act() == s.Act();
    InCountRemove(t.traced, s.Act(), o, m);
    InCountRemove(s.traced, s.Act(), o, m);
    InCountAgree(s.traced, t.traced, s.Act() - {o}, m);
  }

  lemma RelinkedExact(s: State, t: State, o: Id, after: seq<Slot>)
    requires Shape(s) && Exact(s) && Relinked(s, t, o, after)
    ensures Shape(t) && Exact(t)
  {
    RelinkedCounts(s, t, o, after, o);
    forall m | m in t.Act()
      ensures t.rc[m] == t.held[m] + InCount(t.traced, t.Act(), m) + InCount(t.owned, t.Act(), m)
    {
      RelinkedCounts(s, t, o, after, m);
    }
  }

  lemma RelinkedSealed(s: State, t: State, o: Id, after: seq<Slot>)
    requires Shape(s) && Sealed(s) && Relinked(s, t, o, after)
    ensures Sealed(t)
  {
    assert t.Act() == s.Act();
    forall m ensures s.held[m] + SlotCount(s.traced[o], m) > 0 ==> m in s.Act() {
      SlotCountHas(s.traced[o], m);
    }
    forall i | 0 <= i < |after| && after[i].Ref? ensures after[i].id in t.Act() {
      SlotCountHas(after, after[i].id);
    }
    forall m | m in t.held ensures m in t.Act() {
    }
  }

  lemma RelinkedCovered(s: State, t: State, o: Id, after: seq<Slot>)
    requires Shape(s) && Sealed(s) && Exact(s) && Covered(s, {}) && Relinked(s, t, o, after)
    ensures Shape(t) && Covered(t, {})
  {
    RelinkedExact(s, t, o, after);
    RelinkedSealed(s, t, o, after);
    assert t.Act() == s.Act();
    forall C: set<Id> | Closed(t.traced, t.Act(), C) && Anchors(t) + Candidates(t) + {} <= C ensures t.Act() <= C {
      HeldIsAnchor(t, o);
      RelinkedClosed(s, t, o, after, C);
      assert Candidates(s) == Candidates(t);
      assert Anchors(s) + Candidates(s) + {} <= C;
    }
  }

  lemma RelinkedClosed(s: State, t: State, o: Id, after: seq<Slot>, C: set<Id>)
    requires Shape(s) && Relinked(s, t, o, after) && Shape(t) && Exact(t) && Sealed(t)
    requires Closed(t.traced, t.Act(), C) && Anchors(t) <= C && o in C
    ensures Closed(s.traced, s.Act(), C) && Anchors(s) <= C
  {
    assert t.Act() == s.Act();
    forall i | 0 <= i < |s.traced[o]| && s.traced[o][i].Ref? ensures s.traced[o][i].id in C {
      var k := s.traced[o][i].id;
      SlotCountHas(s.traced[o], k);
      if t.held[k] > 0 { HeldIsAnchor(t, k); } else { RelinkedEdge(t, o, after, k, C); }
    }
    hide Exact, Sealed;
    forall a | a in Anchors(s) ensures a in C {
      RelinkedCounts(s, t, o, after, a);
      if a !in Anchors(t) { RelinkedEdge(t, o, after, a, C); }
    }
  }

  lemma RelinkedEdge(t: State, o: Id, after: seq<Slot>, k: Id, C: set<Id>)
    requires o in t.traced && t.traced[o] == after && SlotCount(after, k) > 0
    requires o in t.Act() && o in C && Closed(t.traced, t.Act(), C)
    ensures k in C
  {
    SlotCountHas(after, k);
    var i :| 0 <= i < |after| && after[i] == Ref(k);
    assert t.traced[o][i].id in C;
  }

  /** Any exchange of references between the hands and the slots of a held object keeps the invariant. */
  lemma RelinkedOk(s: State, t: State, o: Id, after: seq<Slot>)
    requires Ok(s) && Relinked(s, t, o, after)
    ensures Ok(t) && t.Act() == s.Act()
  {
    RelinkedExact(s, t, o, after);
    RelinkedSealed(s, t, o, after);
    RelinkedCovered(s, t, o, after);
    assert t.Act() == s.Act();
    hide Exact, Sealed, Covered;
  }

  /** A held reference moves into a slot of `o` that the collector does not walk. */
  ghost function Attached(s: State, o: Id, v: Slot): State
    requires o in s.owned
  {
    s.(owned := s.owned[o := s.owned[o] + [v]], held := s.held - OneBag(v))
  }

  lemma AttachedExact(s: State, o: Id, v: Slot)
    requires Shape(s) && Sealed(s) && Exact(s) && o in s.Act() && OneBag(v) <= s.held
    ensures o in s.owned && Shape(Attached(s, o, v)) && Exact(Attached(s, o, v)) && Attached(s, o, v).Act() == s.Act()
  {
    hide Sealed, InCount, SlotCount;
    var t := Attached(s, o, v);
    assert t.Act() == s.Act();
    forall m | m in t.Act()
      ensures t.rc[m] == t.held[m] + InCount(t.traced, t.Act(), m) + InCount(t.owned, t.Act(), m)
    {
      InCountRemove(t.owned, s.Act(), o, m);
      InCountRemove(s.owned, s.Act(), o, m);
      InCountAgree(s.owned, t.owned, s.Act() - {o}, m);
      SlotCountConcat(s.owned[o], [v], m);
      OneBagCount(v, m);
    }
  }

  lemma OneBagCount(v: Slot, m: Id)
    ensures OneBag(v)[m] == SlotCount([v], m)
  {
    SlotCountStep([v], 0, m);
    assert [v][..0] == [];
  }

  lemma AttachedSealed(s: State, o: Id, v: Slot)
    requires Shape(s) && Sealed(s) && o in s.Act() && OneBag(v) <= s.held
    ensures o in s.owned && Sealed(Attached(s, o, v))
  {
    var t := Attached(s, o, v);
    assert t.Act() == s.Act();
    if v.Ref? { assert v.id in s.held; }
  }

  /** Untraced edges count as references from outside: an object that gets one stays an anchor. */
  lemma AttachedOk(s: State, o: Id, v: Slot)
    requires Ok(s) && o in s.Act() && OneBag(v) <= s.held
    ensures o in s.owned && Ok(Attached(s, o, v)) && Attached(s, o, v).Act() == s.Act()
  {
    AttachedExact(s, o, v);
    AttachedSealed(s, o, v);
    var t := Attached(s, o, v);
    assert Anchors(t) == Anchors(s) && Candidates(t) == Candidates(s);
    assert Covered(t, {});
  }

  // ---------------------------------------------------------------------------------------------------------
  // What collection means

  /** When live objects own nothing outside their traced slots, the anchors are the held objects. */
  lemma AnchorsAreHeld(s: State, n: Id)
    requires Shape(s) && Exact(s) && n in s.Act()
    requires forall m :: m in s.Act() ==> SlotCount(s.owned[m], n) == 0
    ensures n in Anchors(s) <==> n in s.held
  {
    InCountHas(s.owned, s.Act(), n);
    forall m | m in s.Act() ensures SlotCount(s.owned[m], n) == 0 {}
    if InCount(s.owned, s.Act(), n) > 0 {
      var m, i :| m in s.Act() && 0 <= i < |s.owned[m]| && s.owned[m][i] == Ref(n);
      SlotCountHas(s.owned[m], n);
    }
  }

  /** Exactness in absolute terms: after a collection of a heap whose edges are all traced, an object is live exactly
      when a path of slots leads to it from an object that something holds a reference to. */
  lemma LiveIffReachable(s: State, t: State)
    requires Ok(s) && Collected(s, t)
    requires forall m, n :: m in s.Act() ==> SlotCount(s.owned[m], n) == 0
    ensures forall n :: n in t.Act() <==> n in s.Act() && ReachedByPath(s, n)
  {
    hide Ok, InCount, SlotBag, Reachable, ReachedByPath, Anchors, Holders;
    OnlyHolders(s);
    NothingUntraced(s);
    forall n ensures n in t.Act() <==> n in s.Act() && ReachedByPath(s, n) {
      PathIffReachable(s, n);
      if n in s.Act() {
        assert n in Garbage(s) <==> !Reachable(s.traced, s.Act(), Anchors(s), n);
      }
    }
  }

  lemma PathIffReachable(s: State, n: Id)
    requires Ok(s)
    ensures Shape(s) && (ReachedByPath(s, n) <==> Reachable(s.traced, s.Act(), Holders(s), n))
  {
    hide Exact, Positive, Settled, BufferOk, Covered, Reachable;
    ReachableIffPath(s.traced, s.Act(), Holders(s), n);
  }

  /** Without untraced references the anchors are the objects in somebody's hands. */
  lemma OnlyHolders(s: State)
    requires Ok(s) && forall m, n :: m in s.Act() ==> SlotCount(s.owned[m], n) == 0
    ensures Anchors(s) == Holders(s)
  {
    forall m ensures m in Anchors(s) <==> m in Holders(s) {
      if m in s.Act() { AnchorsAreHeld(s, m); }
    }
  }

  lemma NothingUntraced(s: State)
    requires Ok(s) && forall m, n :: m in s.Act() ==> SlotCount(s.owned[m], n) == 0
    ensures forall m :: m in Garbage(s) ==> SlotBag(s.owned[m]) == multiset{}
  {
    hide Anchors, Reachable;
    forall m | m in Garbage(s) ensures SlotBag(s.owned[m]) == multiset{} {
      forall n ensures SlotBag(s.owned[m])[n] == 0 { SlotBagCount(s.owned[m], n); }
    }
  }

  ghost function Holders(s: State): set<Id> {
    set h | h in s.held
  }

  /** Some path of traced slots leads to `n` from an object in somebody's hands. */
  ghost predicate ReachedByPath(s: State, n: Id) {
    exists p :: PathTo(s.traced, s.Act(), Holders(s), p, n)
  }

  /** All references an object owns, traced or not. */
  ghost function AllSlots(s: State): Graph {
    map n | n in s.traced && n in s.owned :: s.traced[n] + s.owned[n]
  }

  /** Nothing in use is ever freed: after any release or collection, what a path of references of either kind leads to
      from an object still held is live. */
  lemma ReachableSurvives(s: State, t: State, gone: set<Id>, p: seq<Id>, n: Id)
    requires Ok(s) && Ok(t) && Shrunk(s, t, gone) && PathTo(AllSlots(s), s.Act(), Holders(t), p, n)
    ensures n in t.Act()
  {
    var g: Graph := AllSlots(s);
    forall m, i | m in t.Act() && m in s.Act() && m in g && 0 <= i < |g[m]| && g[m][i].Ref?
      ensures g[m][i].id in t.Act()
    {
      assert m in t.traced && m in t.owned;
      if i < |s.traced[m]| {
        assert g[m][i] == t.traced[m][i];
      } else {
        assert g[m][i] == t.owned[m][i - |s.traced[m]|];
      }
    }
    assert Closed(g, s.Act(), t.Act());
    assert Holders(t) <= t.Act();
    hide Ok, Shrunk, Closed;
    PathStaysInClosed(g, s.Act(), t.Act(), p);
  }

  /** The part of the heap the candidates reach. */
  ghost function Region(s: State): set<Id>
    requires Shape(s)
  {
    set n | n in s.Act() && Reachable(s.traced, s.Act(), Candidates(s), n)
  }

  /** The region's objects with a reference that is not an edge inside the region. */
  ghost function RegionRoots(s: State): set<Id>
    requires Shape(s)
  {
    set n | n in Region(s) && s.rc[n] > InCount(s.traced, Region(s), n)
  }

  lemma RegionClosed(s: State)
    requires Shape(s) && Sealed(s)
    ensures Closed(s.traced, s.Act(), Region(s)) && Candidates(s) <= Region(s)
    ensures forall C: set<Id> :: Closed(s.traced, s.Act(), C) && Candidates(s) <= C ==> Region(s) <= C
  {
    var R := Region(s);
    forall m, i | m in R && m in s.traced && 0 <= i < |s.traced[m]| && s.traced[m][i].Ref?
      ensures s.traced[m][i].id in R
    {
      var k := s.traced[m][i].id;
      forall C: set<Id> | Closed(s.traced, s.Act(), C) && Candidates(s) <= C ensures k in C {
        assert m in C;
      }
    }
  }

  /** The freed set, region by region: an object is garbage exactly when a candidate reaches it and no object of the
      candidates' region with a reference from elsewhere does. */
  lemma GarbageByRegion(s: State)
    requires Ok(s)
    ensures Garbage(s) == set n | n in Region(s) && !Reachable(s.traced, Region(s), RegionRoots(s), n)
  {
    hide Garbage, Partition, Sealed, Exact, Positive, Settled, BufferOk, Covered;
    var B, rcG, rc1, color1 := RegionScanned(s);
    hide Region, RegionRoots, Reachable;
    PartitionGarbage(s, Region(s), B, rcG, rc1, color1);
    RegionComplement(s, B);
  }

  /** What trial deletion and scanning leave in the region. */
  lemma RegionScanned(s: State) returns (B: set<Id>, rcG: Counts, rc1: Counts, color1: Colors)
    requires Ok(s)
    ensures Shape(s) && B == set n | n in Region(s) && Reachable(s.traced, Region(s), RegionRoots(s), n)
    ensures Partition(s, Region(s), B, rcG, rc1, color1)
  {
    hide Sealed, Exact, Positive, Settled, BufferOk, Covered, Partition, Region, RegionRoots, Reachable, InCount;
    RegionWithin(s);
    B := set n | n in Region(s) && Reachable(s.traced, Region(s), RegionRoots(s), n);
    forall m | m in s.rc ensures s.rc[m] >= InCount(s.traced, Region(s), m) { RegionCounts(s, m); }
    rcG := map m | m in s.rc :: s.rc[m] - InCount(s.traced, Region(s), m);
    rc1 := map m | m in s.rc :: rcG[m] + InCount(s.traced, B, m);
    color1 := map m | m in s.rc :: if m in B then Black else White;
    RegionPartition(s, B, rcG, rc1, color1);
  }

  lemma RegionWithin(s: State)
    requires Shape(s)
    ensures Region(s) <= s.traced.Keys && Region(s) <= s.Act()
  {
    hide Reachable;
  }

  lemma RegionComplement(s: State, B: set<Id>)
    requires Shape(s) && B == set n | n in Region(s) && Reachable(s.traced, Region(s), RegionRoots(s), n)
    ensures Region(s) - B == set n | n in Region(s) && !Reachable(s.traced, Region(s), RegionRoots(s), n)
  {
    hide Region, Reachable, RegionRoots;
  }

  lemma RegionPartition(s: State, B: set<Id>, rcG: Counts, rc1: Counts, color1: Colors)
    requires Shape(s) && Sealed(s)
    requires B == set n | n in Region(s) && Reachable(s.traced, Region(s), RegionRoots(s), n)
    requires rcG.Keys == s.rc.Keys == rc1.Keys == color1.Keys
    requires forall m :: m in s.rc ==> rcG[m] + InCount(s.traced, Region(s), m) == s.rc[m]
    requires forall m :: m in s.rc ==> rcG[m] + InCount(s.traced, B, m) == rc1[m]
    requires forall m :: m in s.rc ==> color1[m] == if m in B then Black else White
    ensures Partition(s, Region(s), B, rcG, rc1, color1)
  {
    hide ScanInv, Region, RegionRoots, Reachable, Sealed, Closed, Differ;
    RegionScan(s, B, rcG, rc1, color1);
    RegionClosed(s);
    RegionWithin(s);
    RegionDiffers(s, rcG);
    hide InCount;
  }

  lemma RegionDiffers(s: State, rcG: Counts)
    requires Shape(s) && Region(s) <= s.traced.Keys && rcG.Keys == s.rc.Keys
    requires forall m :: m in s.rc ==> rcG[m] + InCount(s.traced, Region(s), m) == s.rc[m]
    ensures Differ(s.traced, Region(s), [], rcG, s.rc)
  {
    hide Region, InCount;
  }

  lemma RegionCounts(s: State, m: Id)
    requires Shape(s) && Sealed(s) && Exact(s) && m in s.rc
    ensures s.rc[m] >= InCount(s.traced, Region(s), m)
  {
    InCountDiff(s.traced, s.Act(), Region(s), m);
    RegionClosed(s);
    if m !in s.Act() { NoReferenceOut(s.traced, s.Act(), Region(s), m); }
  }

  lemma RegionScan(s: State, B: set<Id>, rcG: Counts, rc1: Counts, color1: Colors)
    requires Shape(s) && Sealed(s)
    requires B == set n | n in Region(s) && Reachable(s.traced, Region(s), RegionRoots(s), n)
    requires rcG.Keys == s.rc.Keys == rc1.Keys == color1.Keys
    requires forall m :: m in s.rc ==> rcG[m] + InCount(s.traced, Region(s), m) == s.rc[m]
    requires forall m :: m in s.rc ==> rcG[m] + InCount(s.traced, B, m) == rc1[m]
    requires forall m :: m in s.rc ==> color1[m] == if m in B then Black else White
    ensures ScanInv(s.traced, Region(s), B, rcG, rc1, color1)
  {
    var R := Region(s);
    RegionClosed(s);
    assert External(R, rcG) == RegionRoots(s);
    forall m, i | m in B && m in s.traced && 0 <= i < |s.traced[m]| && s.traced[m][i].Ref?
      ensures s.traced[m][i].id in B
    {
      var k := s.traced[m][i].id;
      forall C: set<Id> | Closed(s.traced, R, C) && RegionRoots(s) <= C ensures k in C {
        assert m in C;
      }
    }
  }
}
