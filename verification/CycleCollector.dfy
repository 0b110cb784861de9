/** A heap of reference-counted objects with synchronous trial-deletion cycle collection. */
module CycleCollector {
  import opened HeapGraph
  import opened CycleState
  import opened HeapState
  import opened CollectPhases

  /** The headers of all allocated objects (count, colour, buffer flag and position), the slots they own, and the
      collector's own buffers. Addresses are identities. */
  class Collector {
    var traced: map<Id, seq<Slot>>
    var owned: map<Id, seq<Slot>>
    var rc: map<Id, nat>
    var color: map<Id, Color>
    var buffered: map<Id, bool>
    var bufIndex: map<Id, nat>
    var roots: seq<Id>
    var white: seq<Id>
    var collecting: bool
    const threshold: nat
    ghost var held: multiset<Id>
    ghost var dying: set<Id>

    ghost function St(): State
      reads this
    {
      State(traced, owned, rc, color, buffered, bufIndex, roots, held, dying)
    }

    /** An empty heap. */
    constructor (threshold: nat)
      ensures Ok(St()) && rc == map[] && held == multiset{} && !collecting && this.threshold == threshold
    {
      traced, owned, rc, color, buffered, bufIndex := map[], map[], map[], map[], map[], map[];
      roots, white, collecting := [], [], false;
      this.threshold := threshold;
      held, dying := multiset{}, {};
    }

    // -------------------------------------------------------------------------------------------------------
    // Trial deletion

    /** Trial-deletes one edge, then everything below it. */
    method MgVisit(s: Slot, ghost act: set<Id>, ghost todo: set<Id>) returns (ghost S: set<Id>)
      requires Ready(traced, act, todo, color, rc, Gray) && InAct(s, act)
      requires todo <= traced.Keys && Covers(traced, todo, [s], rc, act)
      modifies `rc, `color
      ensures rc.Keys == old(rc.Keys)
      ensures SlotDone(traced, act, todo, s, S, old(color), color, rc, old(rc), Gray)
      decreases todo, 1
    {
      hide Ready, Covers, SlotDone, Done;
      if s.Ref? {
        ReadyDomain(traced, act, todo, color, rc, Gray, s.id);
        EdgeIsCounted(traced, todo, s, rc, act);
        rc := rc[s.id := rc[s.id] - 1];
        ReadyCounts(traced, act, todo, color, old(rc), rc, Gray);
        ghost var rc1 := rc;
        S := MarkGray(s.id, act, todo);
        EdgeThenBelow(traced, act, todo, s.id, S, old(color), color, rc, rc1, old(rc), Gray);
      } else {
        S := {};
        NothingToVisit(traced, act, todo, s, color, rc, Gray);
      }
    }

    /** `scr_mark_gray`. */
    method MarkGray(n: Id, ghost act: set<Id>, ghost todo: set<Id>) returns (ghost S: set<Id>)
      requires Ready(traced, act, todo, color, rc, Gray) && n in act
      requires todo <= traced.Keys && Covers(traced, todo, [], rc, act)
      modifies `rc, `color
      ensures rc.Keys == old(rc.Keys)
      ensures Done(traced, act, todo, n, S, old(color), color, rc, old(rc), Gray)
      decreases todo, 0
    {
      hide Ready, Covers, SlotDone, Done, Walked, InAct;
      S := {};
      ReadyDomain(traced, act, todo, color, rc, Gray, n);
      if color[n] == Gray {
        AlreadyDone(traced, act, todo, n, color, rc, Gray);
        return;
      }
      color := color[n := Gray];
      WalkStart(traced, act, todo, n, old(color), color, rc, Gray);
      var i := 0;
      while i < |traced[n]|
        invariant i <= |traced[n]| && rc.Keys == old(rc.Keys)
        invariant Walked(traced, act, todo, n, S, i, old(color), color, rc, old(rc), Gray)
      {
        ghost var rc1, color1 := rc, color;
        WalkReady(traced, act, todo, n, S, i, old(color), color, rc, old(rc), old(rc), Gray);
        WalkCovered(traced, act, todo, n, S, i, old(color), color, rc, old(rc), Gray);
        ghost var T := MgVisit(traced[n][i], act, todo - {n} - S);
        WalkDown(traced, act, todo, n, S, T, i, old(color), color1, color, rc, rc1, old(rc), Gray);
        S := S + T;
        i := i + 1;
      }
      WalkEnd(traced, act, todo, n, S, old(color), color, rc, old(rc), Gray);
      S := S + {n};
    }

    // -------------------------------------------------------------------------------------------------------
    // Restoring what is externally referenced

    /** Restores one edge, then everything below it that is not black yet. */
    method SbVisit(s: Slot, ghost act: set<Id>, ghost todo: set<Id>) returns (ghost S: set<Id>)
      requires Ready(traced, act, todo, color, rc, Black) && InAct(s, act)
      modifies `rc, `color
      ensures rc.Keys == old(rc.Keys)
      ensures SlotDone(traced, act, todo, s, S, old(color), color, old(rc), rc, Black)
      decreases todo, 1
    {
      hide Ready, SlotDone, Done;
      S := {};
      if s.Ref? {
        ReadyDomain(traced, act, todo, color, rc, Black, s.id);
        rc := rc[s.id := rc[s.id] + 1];
        ghost var rc1 := rc;
        if color[s.id] != Black {
          ReadyCounts(traced, act, todo, color, old(rc), rc, Black);
          S := ScanBlack(s.id, act, todo);
        } else {
          AlreadyDone(traced, act, todo, s.id, color, rc, Black);
        }
        EdgeThenAbove(traced, act, todo, s.id, S, old(color), color, old(rc), rc1, rc, Black);
      } else {
        NothingToVisit(traced, act, todo, s, color, rc, Black);
      }
    }

    method ScanBlack(n: Id, ghost act: set<Id>, ghost todo: set<Id>) returns (ghost S: set<Id>)
      requires Ready(traced, act, todo, color, rc, Black) && n in act && n in todo
      modifies `rc, `color
      ensures rc.Keys == old(rc.Keys)
      ensures n in S && Done(traced, act, todo, n, S, old(color), color, old(rc), rc, Black)
      decreases todo, 0
    {
      hide Ready, SlotDone, Done, Walked, InAct;
      S := {};
      ReadyDomain(traced, act, todo, color, rc, Black, n);
      color := color[n := Black];
      WalkStart(traced, act, todo, n, old(color), color, rc, Black);
      var i := 0;
      while i < |traced[n]|
        invariant i <= |traced[n]| && rc.Keys == old(rc.Keys)
        invariant Walked(traced, act, todo, n, S, i, old(color), color, old(rc), rc, Black)
      {
        ghost var rc1, color1 := rc, color;
        WalkReady(traced, act, todo, n, S, i, old(color), color, old(rc), rc, old(rc), Black);
        ghost var T := SbVisit(traced[n][i], act, todo - {n} - S);
        WalkUp(traced, act, todo, n, S, T, i, old(color), color1, color, old(rc), rc1, rc, Black);
        S := S + T;
        i := i + 1;
      }
      WalkEnd(traced, act, todo, n, S, old(color), color, old(rc), rc, Black);
      S := S + {n};
    }

    /** Decides one grey object: still counted means externally referenced, so its whole subgraph goes back to
        black; otherwise it turns white and its children are decided. */
    method Scan(n: Id, ghost R: set<Id>, ghost B: set<Id>, ghost rcG: Counts, ghost grays: set<Id>)
      returns (ghost B': set<Id>)
      requires ScanReady(traced, R, color, rc, grays) && n in R
      requires ScanInv(traced, R, B, rcG, rc, color)
      modifies `rc, `color
      ensures rc.Keys == old(rc.Keys) && R <= traced.Keys && color.Keys == old(color.Keys)
      ensures ScanInv(traced, R, B', rcG, rc, color)
      ensures Ungrayed(traced, R, {}, old(color), color)
      ensures n in color && color[n] != Gray
      decreases grays
    {
      hide ScanReady, ScanInv, Ungrayed, Done, Ready, SlotsNotGray;
      B' := B;
      ScanDomain(traced, R, color, rc, grays, n);
      UngrayedStart(traced, R, color, n);
      if color[n] != Gray { return; }
      if rc[n] > 0 {
        ScanReadyBlack(traced, R, B, color, rc, grays, rcG);
        ghost var S := ScanBlack(n, R, R - B);
        ScanBlackened(traced, R, B, S, rcG, old(rc), rc, old(color), color, n);
        B' := B + S;
        return;
      }
      ScanWhite(traced, R, B, rcG, rc, color, n);
      color := color[n := White];
      var i := 0;
      NoSlots(traced[n], color);
      while i < |traced[n]|
        invariant i <= |traced[n]| && rc.Keys == old(rc.Keys) && color.Keys == old(color.Keys)
        invariant ScanInv(traced, R, B', rcG, rc, color)
        invariant Ungrayed(traced, R, {n}, old(color), color) && color[n] != Gray
        invariant SlotsNotGray(traced[n][..i], color)
      {
        ghost var color1 := color;
        if traced[n][i].Ref? {
          ScanReadyStill(traced, R, n, old(color), color, old(rc), rc, grays);
          B' := Scan(traced[n][i].id, R, B', rcG, grays - {n});
          UngrayedTrans(traced, R, {n}, old(color), color1, color);
        } else {
          UngrayedStart(traced, R, color, n);
        }
        SlotsNotGrayMore(traced[n], i, traced, R, color1, color);
        i := i + 1;
      }
      UngrayedEnd(traced, R, n, old(color), color);
    }

    /** Gathers a white object and everything white below it, children first. */
    method CollectWhite(n: Id, ghost R: set<Id>, ghost whites: set<Id>)
      requires WhiteReady(traced, R, color, buffered, white, whites) && n in R
      modifies `color, `white
      ensures R <= traced.Keys && Harvested(traced, R, {}, old(color), color, old(white), white)
      ensures n in color && color[n] != White && color.Keys == old(color.Keys)
      decreases whites
    {
      hide WhiteReady, Harvested, SlotsNotWhite;
      WhiteDomain(traced, R, color, buffered, white, whites, n);
      HarvestStart(traced, R, color, buffered, white, whites, n);
      if color[n] != White || buffered[n] { return; }
      color := color[n := Black];
      var i := 0;
      while i < |traced[n]|
        invariant i <= |traced[n]| && color.Keys == old(color.Keys) && color[n] != White
        invariant Harvested(traced, R, {n}, old(color), color, old(white), white)
        invariant SlotsNotWhite(traced[n][..i], color)
      {
        ghost var color1, white1 := color, white;
        if traced[n][i].Ref? {
          HarvestReady(traced, R, n, old(color), color, buffered, old(white), white, whites);
          CollectWhite(traced[n][i].id, R, whites - {n});
          HarvestTrans(traced, R, {n}, old(color), color1, color, old(white), white1, white);
        }
        SlotsNotWhiteMore(traced[n], i, color1, color);
        i := i + 1;
      }
      HarvestEnd(traced, R, n, old(color), color, buffered, old(white), white, whites);
      white := white + [n];
    }

    // -------------------------------------------------------------------------------------------------------
    // One collection

    /** Marks from the entries still purple and compacts the buffer to them. */
    method MarkRoots() returns (ghost R: set<Id>)
      requires Ok(St())
      modifies `rc, `color, `roots, `buffered, `bufIndex
      ensures rc.Keys == old(rc.Keys)
      ensures Marking(old(St()), |old(roots)|, roots, R, color, rc)
      ensures BufferOk(roots, buffered, bufIndex) && buffered.Keys == old(buffered.Keys)
    {
      ghost var s := St();
      R := {};
      hide Marking, Compacting, Done, Ready, Covers, BufferOk, Sealed, Settled, Exact, Covered, Positive, Shape;
      MarkingStart(s);
      CompactStart(roots, buffered, bufIndex);
      var out, i := 0, 0;
      assert roots[..out] == [];
      while i < |roots|
        invariant out <= i <= |roots| == |s.roots| && rc.Keys == old(rc.Keys)
        invariant Marking(s, i, roots[..out], R, color, rc)
        invariant Compacting(s.roots, out, i, roots, buffered, bufIndex) && buffered.Keys == old(buffered.Keys)
      {
        var obj := roots[i];
        CompactEntry(s.roots, out, i, roots, buffered, bufIndex);
        MarkingReady(s, i, roots[..out], R, color, rc);
        if color[obj] == Purple {
          ghost var color1, rc1 := color, rc;
          CompactKeep(s.roots, out, i, roots, buffered, bufIndex);
          ghost var T := MarkGray(obj, s.Act(), s.Act() - R);
          MarkingMore(s, i, roots[..out], R, T, color1, color, rc1, rc);
          R := R + T;
          bufIndex := bufIndex[obj := out];
          roots := roots[out := obj];
          out := out + 1;
        } else {
          CompactDrop(s.roots, out, i, roots, buffered, bufIndex);
          MarkingSkip(s, i, roots[..out], R, color, rc);
          buffered := buffered[obj := false];
        }
        i := i + 1;
      }
      CompactEnd(s.roots, out, roots, buffered, bufIndex);
      roots := roots[..out];
    }

    method ScanRoots(ghost s: State, ghost R: set<Id>) returns (ghost B: set<Id>)
      requires Ok(s) && traced == s.traced && Marking(s, |s.roots|, roots, R, color, rc)
      modifies `rc, `color
      ensures rc.Keys == old(rc.Keys) && color.Keys == old(color.Keys)
      ensures ScanInv(traced, R, B, old(rc), rc, color)
      ensures R <= traced.Keys && Ungrayed(traced, R, {}, old(color), color)
      ensures forall m :: m in R ==> m in color && color[m] != Gray
    {
      B := {};
      hide Marking, ScanReady, ScanInv, Ungrayed, Ok;
      ScanStart(s, roots, R, color, rc);
      RootsInRegion(s, roots, R, color, rc);
      var i := 0;
      while i < |roots|
        invariant i <= |roots| && rc.Keys == old(rc.Keys) && color.Keys == old(color.Keys)
        invariant ScanInv(traced, R, B, old(rc), rc, color)
        invariant Ungrayed(traced, R, {}, old(color), color)
        invariant forall k :: 0 <= k < i ==> roots[k] in color && color[roots[k]] != Gray
      {
        ghost var color1 := color;
        ScanReadyAgain(traced, R, old(color), color, old(rc), rc);
        B := Scan(roots[i], R, B, old(rc), R);
        UngrayedTrans(traced, R, {}, old(color), color1, color);
        i := i + 1;
      }
      ScanEnd(s, roots, R, old(color), old(rc), color);
    }

    /** Empties the buffer and clears the flag of everything in it. */
    method DrainBuffer() returns (cands: seq<Id>)
      requires BufferOk(roots, buffered, bufIndex)
      modifies `roots, `buffered
      ensures cands == old(roots) && roots == [] && buffered.Keys == old(buffered.Keys)
      ensures BufferOk([], buffered, bufIndex) && forall n :: n in buffered ==> !buffered[n]
    {
      hide Draining, BufferOk;
      cands := roots;
      DrainStart(roots, buffered, bufIndex);
      roots := [];
      var i := 0;
      while i < |cands|
        invariant i <= |cands| && Draining(cands, i, buffered) && buffered.Keys == old(buffered.Keys)
        modifies `buffered
      {
        DrainMore(cands, i, buffered);
        buffered := buffered[cands[i] := false];
        i := i + 1;
      }
      DrainEnd(cands, buffered, bufIndex);
    }

    /** Gathers the white objects below the candidates. */
    method GatherWhite(cands: seq<Id>, ghost R: set<Id>)
      requires WhiteReady(traced, R, color, buffered, [], R)
      requires R <= traced.Keys && Harvested(traced, R, {}, color, color, [], [])
      requires forall m :: m in cands ==> m in R
      modifies `color, `white
      ensures R <= traced.Keys && Harvested(traced, R, {}, old(color), color, [], white)
      ensures forall m :: m in cands ==> m in color && color[m] != White
    {
      hide WhiteReady, Harvested;
      white := [];
      var i := 0;
      while i < |cands|
        invariant i <= |cands| && color.Keys == old(color.Keys)
        invariant R <= traced.Keys && Harvested(traced, R, {}, old(color), color, [], white)
        invariant forall k :: 0 <= k < i ==> cands[k] in color && color[cands[k]] != White
      {
        ghost var color1, white1 := color, white;
        WhiteReadyAgain(traced, R, old(color), color, buffered, white);
        CollectWhite(cands[i], R, R);
        HarvestTrans(traced, R, {}, old(color), color1, color, [], white1, white);
        i := i + 1;
      }
    }

    /** Marks, scans and gathers: afterwards `white` lists exactly the garbage, every survivor gave up exactly the
        garbage's references, and the buffer is empty. */
    method GatherGarbage()
      requires Ok(St())
      modifies `rc, `color, `roots, `buffered, `bufIndex, `white, `held, `dying
      ensures GarbageGathered(old(St()), St(), white)
    {
      hide Marking, ScanInv, Ungrayed, Harvested, WhiteReady, BufferOk, Garbage, Gathered, Ok, OkBut, Closed, Reachable,
        Candidates, GatherGhost, Elements, OwnedBag, GarbageGathered, Gathering;
      ghost var s := St();
      ghost var R := MarkRoots();
      ghost var color1, rc1, kept := color, rc, roots;
      ghost var B := ScanRoots(s, R);
      ghost var color2 := color;
      var cands := DrainBuffer();
      GatherStart(s, kept, R, B, color1, rc1, rc, color, buffered);
      GatherWhite(cands, R);
      GatherComplete(s, kept, R, B, color1, rc1, color2, color, white, St());
      GatherOk(s, St(), white);
      dying := dying + Elements(white);
      held := held + OwnedBag(owned, white);
    }

    // -------------------------------------------------------------------------------------------------------
    // Releases, teardown and the candidate buffer

    /** `scr_cyc_on_dead`: swap the last entry into the hole. */
    method OnDead(n: Id)
      requires BufferOk(roots, buffered, bufIndex) && n in buffered
      modifies `roots, `buffered, `bufIndex
      ensures BufferOk(roots, buffered, bufIndex) && buffered.Keys == old(buffered.Keys)
      ensures forall m :: m in roots <==> m in old(roots) && m != n
    {
      if !buffered[n] { return; }
      var i := bufIndex[n];
      var last := roots[|roots|-1];
      ghost var roots0 := roots;
      roots := roots[i := last];
      roots := roots[..|roots|-1];
      if last != n { bufIndex := bufIndex[last := i]; }
      buffered := buffered[n := false];
      forall m ensures m in roots <==> m in roots0 && m != n {
        if m in roots0 && m != n {
          var k := bufIndex[m];
          if m == last { assert roots[i] == m; } else { assert roots0[k] == m && roots[k] == m; }
        }
        if m in roots {
          var k :| 0 <= k < |roots| && roots[k] == m;
        }
      }
    }

    /** Frees the block of a torn-down object. */
    method Free(n: Id)
      requires Ok(St()) && n in dying
      modifies `traced, `owned, `rc, `color, `buffered, `bufIndex, `dying
      ensures Ok(St()) && St() == Freed(old(St()), n)
      ensures Shrunk(old(St()), St(), {n}) && Quiet(old(St()), St())
    {
      hide Ok, Shrunk, Quiet;
      ghost var s := St();
      FreedOk(s, n);
      FreedShrinks(s, n);
      traced, owned, rc := traced - {n}, owned - {n}, rc - {n};
      color, buffered, bufIndex := color - {n}, buffered - {n}, bufIndex - {n};
      dying := dying - {n};
    }

    /** Releases every reference one of the two slot runs of a dying object holds, in order. */
    method ReleaseSlots(n: Id, untraced: bool)
      requires Ok(St()) && n in dying && n in traced && n in owned
      requires SlotBag(if untraced then owned[n] else traced[n]) <= held
      modifies this
      ensures GaveUp(old(St()), St(), SlotBag(if untraced then old(owned)[n] else old(traced)[n]))
      ensures collecting == old(collecting) && (collecting ==> white == old(white))
      ensures n in traced && n in owned && traced[n] == old(traced)[n] && owned[n] == old(owned)[n]
      decreases if collecting then 0 else 1, St().Act(), 3
    {
      hide Ok, SlotBag, GaveUp, Released, Quiet, Shrunk;
      ghost var s := St();
      ghost var slots := if untraced then owned[n] else traced[n];
      var i := 0;
      GaveUpNothing(s);
      NoSlotsNoBag(slots);
      while i < if untraced then |owned[n]| else |traced[n]|
        invariant n in traced && n in owned && traced[n] == s.traced[n] && owned[n] == s.owned[n]
        invariant i <= |slots| && GaveUp(s, St(), SlotBag(slots[..i])) && Ok(St())
        invariant collecting == old(collecting) && (collecting ==> white == old(white))
      {
        ghost var t := St();
        var slot := if untraced then owned[n][i] else traced[n][i];
        BagPrefix(slots, i);
        if slot.Ref? {
          GaveUpStill(s, t, slots, i);
          Release(slot.id);
          GaveUpMore(s, t, St(), SlotBag(slots[..i]), slot.id);
          GaveUpKeeps(s, St(), SlotBag(slots[..i]) + multiset{slot.id}, n);
        }
        i := i + 1;
      }
      assert slots[..i] == slots;
    }

    /** An object with no references left leaves the buffer; what it owns is now in the releasing hands. */
    method StartDying(n: Id, ghost s: State)
      requires Ok(s) && n in s.held && n in s.rc && s.rc[n] == 1 && St() == s.(rc := s.rc[n := 0])
      modifies `roots, `buffered, `bufIndex, `dying, `held
      ensures Ok(St()) && Died(s, St(), n)
    {
      hide Ok, OkBut, BufferOk, Shape, Died, InHand;
      ReleaseDomain(s, n);
      OnDead(n);
      UnbufferedOk(s, St().(rc := s.rc), n);
      DieOk(St().(rc := s.rc), n);
      dying := dying + {n};
      held := InHand(held, n, traced[n], owned[n]);
      Dead(s, St(), n);
    }

    /** Tears down an object whose last reference was given up: unbuffer it, release everything it owns, free it. */
    method TearDown(n: Id, ghost s: State)
      requires Ok(s) && n in s.held && n in s.rc && s.rc[n] == 1 && St() == s.(rc := s.rc[n := 0])
      modifies this
      ensures Released(s, St(), n)
      ensures collecting == old(collecting) && (collecting ==> white == old(white))
      decreases if collecting then 0 else 1, s.Act(), 1
    {
      hide Ok, OkBut, SlotBag, GaveUp, Released, Quiet, Shrunk, BufferOk, Shape, Died, HalfDead, InHand;
      StartDying(n, s);
      ghost var t := St();
      DiedDomain(s, t, n);
      ReleaseSlots(n, false);
      ghost var u := St();
      DeadHalf(s, t, u, n);
      ReleaseSlots(n, true);
      ghost var v := St();
      GaveUpFree(u, v, n);
      Free(n);
      DeadWhole(s, t, u, v, St(), n);
    }

    /** `scr_arr_release` and its kind: one reference less; the last one tears the object down, any other leaves a
        possible cycle root behind, and below the threshold does nothing else. */
    method Release(n: Id)
      requires Ok(St()) && n in held
      modifies this
      ensures Released(old(St()), St(), n)
      ensures collecting == old(collecting) && (collecting ==> white == old(white))
      ensures n in old(rc) && old(rc)[n] > 1 && (collecting || old(|roots|) + 1 < threshold) ==>
        rc == old(rc)[n := old(rc)[n] - 1] && color == old(color)[n := Purple] && n in roots
      decreases if collecting then 0 else 1, St().Act(), 2
    {
      hide Ok, OkBut, Released, Shrunk, BufferOk, Shape;
      ghost var s := St();
      ReleaseDomain(s, n);
      rc := rc[n := rc[n] - 1];
      if rc[n] == 0 {
        TearDown(n, s);
      } else {
        DropOk(s, n);
        held := held - multiset{n};
        ghost var t := St();
        OnRelease(n);
        DropDone(s, t, St(), n);
      }
    }

    /** `scr_cyc_on_release`: buffers a possible cycle root, and collects when the buffer is full. */
    method OnRelease(n: Id)
      requires OkBut(St(), {n}) && n in St().Act()
      modifies this
      ensures Ok(St()) && Shrunk(old(St()), St(), {}) && held == old(held)
      ensures collecting == old(collecting) && (collecting ==> white == old(white))
      ensures n in Candidate(old(St()), n).roots
      ensures if collecting || |Candidate(old(St()), n).roots| < threshold then St() == Candidate(old(St()), n)
              else Collected(Candidate(old(St()), n), St())
      decreases if collecting then 0 else 1, St().Act(), 1
    {
      hide Ok, OkBut, BufferOk, Shrunk, Shape, Collected;
      ghost var s := St();
      CandidateDomain(s, n);
      color := color[n := Purple];
      if !buffered[n] {
        BufferMore(roots, buffered, bufIndex, n);
        buffered := buffered[n := true];
        bufIndex := bufIndex[n := |roots|];
        roots := roots + [n];
        assert roots[|roots|-1] == n;
      }
      PurpleOk(s, n, St());
      ghost var t := St();
      SameHeap(s, t);
      assert t == Candidate(s, n);
      if !collecting && |roots| >= threshold {
        CollectCycles();
        CollectedShrinks(s, t, St());
      }
    }

    /** `scr_collect_cycles`. */
    method CollectCycles()
      requires Ok(St())
      modifies this
      ensures collecting == old(collecting) && (collecting ==> St() == old(St()) && white == old(white))
      ensures !collecting ==> Collected(old(St()), St())
      decreases if collecting then 0 else 1, St().Act(), 0
    {
      hide Ok, OkBut, Collected, GarbageGathered, Freeing, OwnedBag, Garbage;
      if collecting { return; }
      if |roots| == 0 {
        NothingToCollect(St());
        return;
      }
      ghost var s := St();
      collecting := true;
      GatherGarbage();
      ghost var t, w := St(), white;
      GatheredMayFree(s, t, white);
      FreeWhite();
      CollectDone(s, t, St(), w);
      white := [];
      collecting := false;
    }

    /** Tears the gathered objects down: each releases what it owns outside the traced edges, then its block. */
    method FreeWhite()
      requires Ok(St()) && collecting && NoDuplicates(white) && (forall n :: n in white ==> n in owned && n in dying)
      requires OwnedBag(owned, white) <= held
      modifies this
      ensures Ok(St()) && Shrunk(old(St()), St(), Elements(white)) && white == old(white) && collecting
      ensures held == old(held) - old(OwnedBag(owned, white))
      ensures old(OwnedBag(owned, white)) == multiset{} ==> Quiet(old(St()), St())
      decreases 0, St().Act(), 5
    {
      hide Ok, Freeing, GaveUp, SlotBag, OwnedBag, Elements, NoDuplicates;
      ghost var s := St();
      FreeingStart(s, white);
      var i := 0;
      while i < |white|
        invariant i <= |white| && Freeing(s, St(), white, i) && Ok(St()) && St().Act() <= s.Act()
        invariant collecting && white == old(white)
      {
        var w := white[i];
        ghost var t := St();
        FreeingNext(s, t, white, i);
        FreeOne(w);
        FreeingMore(s, t, St(), white, i);
        FreeingOk(s, St(), white, i + 1);
        i := i + 1;
      }
      FreeingEnd(s, St(), white);
    }

    /** Releases what a gathered object owns untraced, and frees it. */
    method FreeOne(w: Id)
      requires Ok(St()) && collecting && w in dying && w in traced && w in owned && SlotBag(owned[w]) <= held
      modifies this
      ensures Ok(St()) && Shrunk(old(St()), St(), {w}) && white == old(white) && collecting
      ensures held == old(held) - old(SlotBag(owned[w]))
      ensures old(SlotBag(owned[w])) == multiset{} ==> Quiet(old(St()), St())
      decreases 0, St().Act(), 4
    {
      hide Ok, GaveUp, SlotBag, Shrunk, Quiet;
      ghost var t := St();
      ReleaseSlots(w, true);
      ghost var u := St();
      GaveUpFree(t, u, w);
      Free(w);
      TornDown(t, u, St(), w);
    }

    // -------------------------------------------------------------------------------------------------------
    // Mutators

    /** A new object at the address the allocator answered, with no references yet, held by the caller. */
    method Alloc(n: Id)
      requires Ok(St()) && n !in rc
      modifies this
      ensures St() == Allocated(old(St()), n) && Ok(St())
      ensures collecting == old(collecting) && white == old(white)
    {
      hide Ok;
      AllocatedOk(St(), n);
      traced, owned, rc := traced[n := []], owned[n := []], rc[n := 1];
      color, buffered, bufIndex := color[n := Black], buffered[n := false], bufIndex[n := 0];
      held := held + multiset{n};
    }

    /** One more reference: a retained candidate is certainly not garbage. */
    method Retain(n: Id)
      requires Ok(St()) && n in St().Act()
      modifies `rc, `color, `held
      ensures n in old(rc) && St() == Retained(old(St()), n) && Ok(St())
    {
      hide Ok, OkBut, Sealed, Exact, Covered;
      RetainOk(St(), n);
      rc := rc[n := rc[n] + 1];
      color := color[n := Black];
      held := held + multiset{n};
    }

    /** `scr_box_set_ref` and the overwriting arm of `scr_arr_set_slot`: the slot holds the new value before the old
        one's release runs, so a collection inside that release sees no edge whose count was given up. The caller's
        reference to `v` moves into the slot. */
    method SetSlot(o: Id, i: nat, v: Slot)
      requires Ok(St()) && o in traced && i < |traced[o]|
      requires Holds(held, o, v)
      modifies this
      ensures Ok(St()) && held == old(held) - OneBag(v) && dying == old(dying) && collecting == old(collecting)
      ensures St().Act() <= old(St()).Act()
      ensures forall m :: m in traced ==>
        m in old(traced) && traced[m] == if m == o then old(traced)[o][i := v] else old(traced)[m]
      ensures forall m :: m in owned ==> m in old(owned) && owned[m] == old(owned)[m]
      ensures o in traced
    {
      hide Ok, Released, Relinked, Shrunk, OneBag, Swapped, Holds;
      ghost var s := St();
      var replaced := traced[o][i];
      traced := traced[o := traced[o][i := v]];
      held := Swapped(held, v, replaced);
      ghost var t := St();
      StoreRelinks(s, t, o, i, v);
      RelinkedOk(s, t, o, s.traced[o][i := v]);
      if replaced.Ref? {
        Release(replaced.id);
        ReleasedKeeps(t, St(), replaced.id, o);
      } else {
        NoReference(held, replaced);
      }
    }

    /** Gives an object a property table or an original it was wrapped from: counted references that only its teardown
        releases. */
    method Attach(o: Id, v: Slot)
      requires Ok(St()) && o in owned && Holds(held, o, v)
      modifies `owned, `held
      ensures Ok(St()) && St() == Attached(old(St()), o, v) && o in held
    {
      hide Ok, OneBag;
      AttachedLive(St(), o, v);
      AttachedOk(St(), o, v);
      owned := owned[o := owned[o] + [v]];
      held := held - OneBag(v);
    }
  }
}
