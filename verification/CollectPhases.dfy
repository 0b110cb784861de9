/** How the phases of one collection fit together: marking the roots, scanning them, gathering the white set. */
module CollectPhases {
  import opened HeapGraph
  import opened CycleState
  import opened HeapState

  // ---------------------------------------------------------------------------------------------------------
  // Marking the roots

  /** Everything in `R` is reachable from `kept`. */
  ghost predicate Spanned(g: Graph, act: set<Id>, kept: seq<Id>, R: set<Id>) {
    forall C: set<Id> :: Closed(g, act, C) && (forall m :: m in kept ==> m in C) ==> R <= C
  }

  /** After `i` buffer entries: `R` is what was marked, `kept` the candidates it was marked from. */
  ghost predicate Marking(s: State, i: nat, kept: seq<Id>, R: set<Id>, color: Colors, rc: Counts) {
    && Shape(s) && i <= |s.roots| && R <= s.Act()
    && Recolored(s.color, color, R, Gray)
    && Differ(s.traced, R, [], rc, s.rc)
    && ChildrenColored(s.traced, R, color, Gray)
    && (forall k :: 0 <= k < i && s.roots[k] in Candidates(s) ==> s.roots[k] in R)
    && (forall m :: m in kept ==> m in Candidates(s) && m in R)
    && Spanned(s.traced, s.Act(), kept, R)
  }

  lemma MarkingStart(s: State)
    requires Ok(s)
    ensures Marking(s, 0, [], {}, s.color, s.rc)
  {
  }

  lemma MarkingReady(s: State, i: nat, kept: seq<Id>, R: set<Id>, color: Colors, rc: Counts)
    requires Shape(s) && Sealed(s) && Settled(s) && Exact(s)
    requires Marking(s, i, kept, R, color, rc) && i < |s.roots|
    ensures Ready(s.traced, s.Act(), s.Act() - R, color, rc, Gray)
    ensures s.Act() - R <= s.traced.Keys && Covers(s.traced, s.Act() - R, [], rc, s.Act())
    ensures s.roots[i] in s.Act() && s.roots[i] in color
  {
    hide Covers, Exact, InCount, Spanned;
    MarkingCovers(s, i, kept, R, color, rc);
  }

  lemma MarkingCovers(s: State, i: nat, kept: seq<Id>, R: set<Id>, color: Colors, rc: Counts)
    requires Shape(s) && Exact(s) && Marking(s, i, kept, R, color, rc)
    ensures Covers(s.traced, s.Act() - R, [], rc, s.Act())
  {
    hide Spanned, Recolored, ChildrenColored, InCount;
    forall m | m in s.Act() && m in rc ensures InCount(s.traced, s.Act() - R, m) + SlotCount([], m) <= rc[m] {
      InCountDiff(s.traced, s.Act(), R, m);
    }
  }

  lemma MarkingSkip(s: State, i: nat, kept: seq<Id>, R: set<Id>, color: Colors, rc: Counts)
    requires Marking(s, i, kept, R, color, rc) && i < |s.roots|
    requires s.roots[i] in color && color[s.roots[i]] != Purple
    ensures Marking(s, i + 1, kept, R, color, rc)
  {
  }

  lemma SpannedMore(g: Graph, act: set<Id>, kept: seq<Id>, R: set<Id>, n: Id, T: set<Id>)
    requires Spanned(g, act, kept, R) && Within(g, act, n, T)
    ensures Spanned(g, act, kept + [n], R + T)
  {
    forall C: set<Id> | Closed(g, act, C) && (forall m :: m in kept + [n] ==> m in C) ensures R + T <= C {
      assert n in kept + [n];
      assert forall m :: m in kept ==> m in kept + [n];
    }
  }

  lemma MarkingMore(s: State, i: nat, kept: seq<Id>, R: set<Id>, T: set<Id>,
                    color1: Colors, color2: Colors, rc1: Counts, rc2: Counts)
    requires Marking(s, i, kept, R, color1, rc1) && i < |s.roots|
    requires s.roots[i] in color1 && color1[s.roots[i]] == Purple
    requires Done(s.traced, s.Act(), s.Act() - R, s.roots[i], T, color1, color2, rc2, rc1, Gray)
    ensures Marking(s, i + 1, kept + [s.roots[i]], R + T, color2, rc2)
  {
    hide Spanned, Differ, ChildrenColored;
    var obj := s.roots[i];
    assert obj in T && obj in Candidates(s);
    SpannedMore(s.traced, s.Act(), kept, R, obj, T);
    hide Within;
    MarkingCounts(s, R, T, rc1, rc2);
    MarkingColors(s, R, T, color1, color2);
    hide Recolored;
  }

  lemma MarkingCounts(s: State, R: set<Id>, T: set<Id>, rc1: Counts, rc2: Counts)
    requires R <= s.traced.Keys && T <= s.traced.Keys && R !! T
    requires Differ(s.traced, R, [], rc1, s.rc) && Differ(s.traced, T, [], rc2, rc1)
    ensures Differ(s.traced, R + T, [], rc2, s.rc)
  {
    hide InCount, SlotCount;
    forall m | m in rc2 ensures rc2[m] + InCount(s.traced, R + T, m) + SlotCount([], m) == s.rc[m] {
      InCountUnion(s.traced, R, T, m);
      NoSlotCount(m);
    }
  }

  lemma NoSlotCount(m: Id)
    ensures SlotCount([], m) == 0
  {
  }

  lemma MarkingColors(s: State, R: set<Id>, T: set<Id>, color1: Colors, color2: Colors)
    requires Recolored(s.color, color1, R, Gray) && Recolored(color1, color2, T, Gray)
    requires ChildrenColored(s.traced, R, color1, Gray) && ChildrenColored(s.traced, T, color2, Gray)
    ensures Recolored(s.color, color2, R + T, Gray) && ChildrenColored(s.traced, R + T, color2, Gray)
  {
  }

  /** The buffer while it is compacted in place: entries below `out` are kept, entries from `i` on untouched. */
  ghost predicate Compacting(roots0: seq<Id>, out: nat, i: nat, roots: seq<Id>, buffered: map<Id, bool>,
                             bufIndex: map<Id, nat>) {
    && out <= i <= |roots| == |roots0| && roots[i..] == roots0[i..]
    && buffered.Keys == bufIndex.Keys
    && (forall k :: 0 <= k < |roots| ==> roots[k] in buffered)
    && (forall k :: 0 <= k < |roots| && (k < out || i <= k) ==> bufIndex[roots[k]] == k)
    && (forall n :: n in buffered ==> (buffered[n] <==> n in roots[..out] || n in roots[i..]))
  }

  lemma CompactStart(roots: seq<Id>, buffered: map<Id, bool>, bufIndex: map<Id, nat>)
    requires BufferOk(roots, buffered, bufIndex)
    ensures Compacting(roots, 0, 0, roots, buffered, bufIndex)
  {
    assert roots[0..] == roots;
  }

  lemma CompactEntry(roots0: seq<Id>, out: nat, i: nat, roots: seq<Id>, buffered: map<Id, bool>, bufIndex: map<Id, nat>)
    requires Compacting(roots0, out, i, roots, buffered, bufIndex) && i < |roots|
    ensures |roots| == |roots0| && roots[i] == roots0[i]
    ensures roots[i] in buffered && buffered[roots[i] := false].Keys == buffered.Keys
  {
    assert roots[i..][0] == roots0[i..][0];
  }

  lemma CompactKeep(roots0: seq<Id>, out: nat, i: nat, roots: seq<Id>, buffered: map<Id, bool>, bufIndex: map<Id, nat>)
    requires Compacting(roots0, out, i, roots, buffered, bufIndex) && i < |roots|
    ensures roots[i] == roots0[i] && roots[i] in bufIndex
    ensures roots[out := roots[i]][..out+1] == roots[..out] + [roots[i]]
    ensures Compacting(roots0, out + 1, i + 1, roots[out := roots[i]], buffered, bufIndex[roots[i] := out])
  {
    var obj := roots[i];
    var roots' := roots[out := obj];
    assert roots[i..] == [obj] + roots[i+1..];
    assert roots'[i+1..] == roots[i+1..] == roots0[i+1..];
    assert roots'[..out+1] == roots[..out] + [obj];
    assert roots[i..][0] == roots0[i..][0];
    forall k | 0 <= k < |roots'| && (k < out + 1 || i + 1 <= k) ensures bufIndex[obj := out][roots'[k]] == k {
      assert bufIndex[obj] == i;
    }
  }

  lemma CompactDrop(roots0: seq<Id>, out: nat, i: nat, roots: seq<Id>, buffered: map<Id, bool>, bufIndex: map<Id, nat>)
    requires Compacting(roots0, out, i, roots, buffered, bufIndex) && i < |roots|
    ensures roots[i] == roots0[i] && roots[i] in buffered
    ensures Compacting(roots0, out, i + 1, roots, buffered[roots[i] := false], bufIndex)
  {
    var obj := roots[i];
    assert roots[i..] == [obj] + roots[i+1..];
    assert roots[i..][0] == roots0[i..][0];
    assert roots[i+1..] == roots[i..][1..] == roots0[i+1..];
    forall k | i + 1 <= k < |roots| ensures roots[k] != obj {
      assert bufIndex[roots[k]] == k && bufIndex[obj] == i;
    }
    forall k | 0 <= k < out ensures roots[k] != obj {
      assert bufIndex[roots[k]] == k && bufIndex[obj] == i;
    }
  }

  lemma CompactEnd(roots0: seq<Id>, out: nat, roots: seq<Id>, buffered: map<Id, bool>, bufIndex: map<Id, nat>)
    requires Compacting(roots0, out, |roots0|, roots, buffered, bufIndex)
    ensures BufferOk(roots[..out], buffered, bufIndex)
  {
    assert roots[|roots0|..] == [];
  }

  /** What marking leaves behind: the region, all grey, is everything the candidates reach. */
  lemma MarkingEnd(s: State, kept: seq<Id>, R: set<Id>, color: Colors, rc: Counts)
    requires Ok(s) && Marking(s, |s.roots|, kept, R, color, rc)
    ensures Candidates(s) <= R && Closed(s.traced, s.Act(), R) && Closed(s.traced, R, R)
    ensures forall C: set<Id> :: Closed(s.traced, s.Act(), C) && Candidates(s) <= C ==> R <= C
    ensures forall m :: m in R ==> m in color && color[m] == Gray
  {
    forall m, i | m in R && m in s.traced && 0 <= i < |s.traced[m]| && s.traced[m][i].Ref?
      ensures s.traced[m][i].id in R
    {
      var k := s.traced[m][i].id;
      assert color[k] == Gray;
      assert k in s.Act();
    }
    forall n | n in Candidates(s) ensures n in R {
      var k :| 0 <= k < |s.roots| && s.roots[k] == n;
    }
  }

  lemma RootsInRegion(s: State, kept: seq<Id>, R: set<Id>, color: Colors, rc: Counts)
    requires Marking(s, |s.roots|, kept, R, color, rc)
    ensures forall m :: m in kept ==> m in R
  {
  }

  // ---------------------------------------------------------------------------------------------------------
  // Scanning and gathering

  lemma ScanStart(s: State, kept: seq<Id>, R: set<Id>, color: Colors, rc: Counts)
    requires Ok(s) && Marking(s, |s.roots|, kept, R, color, rc)
    ensures ScanInv(s.traced, R, {}, rc, rc, color)
    ensures ScanReady(s.traced, R, color, rc, R)
    ensures R <= s.traced.Keys && Ungrayed(s.traced, R, {}, color, color)
  {
    MarkingEnd(s, kept, R, color, rc);
  }

  lemma ScanReadyAgain(g: Graph, R: set<Id>, color0: Colors, color1: Colors, rc0: Counts, rc1: Counts)
    requires ScanReady(g, R, color0, rc0, R) && R <= g.Keys
    requires Ungrayed(g, R, {}, color0, color1) && rc0.Keys == rc1.Keys
    ensures ScanReady(g, R, color1, rc1, R)
  {
  }

  /** Once every kept candidate was scanned, nothing in the region is grey. */
  lemma ScanEnd(s: State, kept: seq<Id>, R: set<Id>, color: Colors, rc: Counts, color1: Colors)
    requires Ok(s) && Marking(s, |s.roots|, kept, R, color, rc)
    requires R <= s.traced.Keys && Ungrayed(s.traced, R, {}, color, color1)
    requires forall m :: m in kept ==> m in color1 && color1[m] != Gray
    ensures forall m :: m in R ==> m in color1 && color1[m] != Gray
  {
    MarkingEnd(s, kept, R, color, rc);
    hide Ok, Marking;
    var C := set m | m in R && color1[m] != Gray;
    forall m, i | m in C && m in s.traced && 0 <= i < |s.traced[m]| && s.traced[m][i].Ref?
      ensures s.traced[m][i].id in C
    {
      assert SlotsNotGray(s.traced[m], color1);
    }
    assert Closed(s.traced, s.Act(), C);
  }

  /** Once gathering ran from every kept candidate, nothing in the region is white: the list is all of it. */
  lemma HarvestComplete(s: State, kept: seq<Id>, R: set<Id>, B: set<Id>, color: Colors, rc: Counts,
                        rc1: Counts, color1: Colors, color2: Colors, white: seq<Id>)
    requires Ok(s) && Marking(s, |s.roots|, kept, R, color, rc)
    requires ScanInv(s.traced, R, B, rc, rc1, color1) && (forall m :: m in R ==> color1[m] != Gray)
    requires R <= s.traced.Keys && Harvested(s.traced, R, {}, color1, color2, [], white)
    requires forall m :: m in kept ==> m in color2 && color2[m] != White
    ensures forall m :: m in R ==> m in color2 && color2[m] == Black
    ensures forall m :: m in white <==> m in R - B
  {
    MarkingEnd(s, kept, R, color, rc);
    hide Ok;
    assert R <= s.Act() && Spanned(s.traced, s.Act(), kept, R) && forall m :: m in kept ==> m in R;
    HarvestSpanned(s.traced, s.Act(), kept, R, B, rc, rc1, color1, color2, white);
    hide *;
    HarvestList(s.traced, R, B, rc, rc1, color1, color2, white);
  }

  lemma HarvestSpanned(g: Graph, act: set<Id>, kept: seq<Id>, R: set<Id>, B: set<Id>, rc: Counts, rc1: Counts,
                       color1: Colors, color2: Colors, white: seq<Id>)
    requires ScanInv(g, R, B, rc, rc1, color1) && (forall m :: m in R ==> color1[m] != Gray)
    requires R <= act && Closed(g, act, R) && Closed(g, R, R) && Spanned(g, act, kept, R)
    requires R <= g.Keys && Harvested(g, R, {}, color1, color2, [], white)
    requires forall m :: m in kept ==> m in R && m in color2 && color2[m] != White
    ensures forall m :: m in R ==> m in color2 && color2[m] != White
  {
    var C := set m | m in R && m in color2 && color2[m] != White;
    forall m, i | m in C && m in g && 0 <= i < |g[m]| && g[m][i].Ref? ensures g[m][i].id in C {
      if m in B { assert g[m][i].id in B; } else { assert SlotsNotWhite(g[m], color2); }
    }
    assert Closed(g, act, C);
  }

  lemma HarvestList(g: Graph, R: set<Id>, B: set<Id>, rc: Counts, rc1: Counts, color1: Colors, color2: Colors,
                    white: seq<Id>)
    requires ScanInv(g, R, B, rc, rc1, color1) && (forall m :: m in R ==> color1[m] != Gray)
    requires R <= g.Keys && Harvested(g, R, {}, color1, color2, [], white)
    requires forall m :: m in R ==> m in color2 && color2[m] != White
    ensures forall m :: m in R ==> m in color2 && color2[m] == Black
    ensures forall m :: m in white <==> m in R - B
  {
  }

  lemma MarkedPartition(s: State, kept: seq<Id>, R: set<Id>, B: set<Id>, color: Colors, rc: Counts, rc1: Counts,
                        color1: Colors)
    requires Ok(s) && Marking(s, |s.roots|, kept, R, color, rc)
    requires ScanInv(s.traced, R, B, rc, rc1, color1) && (forall m :: m in R ==> color1[m] != Gray)
    ensures Partition(s, R, B, rc, rc1, color1)
  {
    MarkingEnd(s, kept, R, color, rc);
  }

  // ---------------------------------------------------------------------------------------------------------
  // What the garbage owns

  /** The references owned by the listed objects, as a bag. */
  ghost function OwnedBag(g: Graph, w: seq<Id>): multiset<Id>
    requires forall n :: n in w ==> n in g
  {
    if w == [] then multiset{} else SlotBag(g[w[0]]) + OwnedBag(g, w[1..])
  }

  ghost function Elements(w: seq<Id>): set<Id> {
    set n | n in w
  }

  lemma {:induction false} OwnedBagCount(g: Graph, w: seq<Id>, m: Id)
    requires (forall n :: n in w ==> n in g) && NoDuplicates(w)
    ensures Elements(w) <= g.Keys && OwnedBag(g, w)[m] == InCount(g, Elements(w), m)
  {
    if w == [] {
      assert Elements(w) == {};
    } else {
      OwnedBagCount(g, w[1..], m);
      assert w == [w[0]] + w[1..];
      assert Elements(w) - {w[0]} == Elements(w[1..]) by { NoDuplicatesTail(w); }
      InCountRemove(g, Elements(w), w[0], m);
      SlotBagCount(g[w[0]], m);
    }
  }

  lemma NoDuplicatesTail(w: seq<Id>)
    requires NoDuplicates(w) && w != []
    ensures NoDuplicates(w[1..]) && w[0] !in w[1..]
  {
  }

  lemma {:induction false} OwnedBagAgree(g: Graph, h: Graph, w: seq<Id>)
    requires forall n :: n in w ==> n in g && n in h && g[n] == h[n]
    ensures OwnedBag(g, w) == OwnedBag(h, w)
  {
    if w != [] { OwnedBagAgree(g, h, w[1..]); }
  }

  /** Clearing the flags of the drained buffer. */
  ghost predicate Draining(cands: seq<Id>, i: nat, buffered: map<Id, bool>) {
    && (forall n :: n in cands ==> n in buffered)
    && (forall n :: n in buffered && buffered[n] ==> exists k :: i <= k < |cands| && cands[k] == n)
  }

  lemma DrainStart(roots: seq<Id>, buffered: map<Id, bool>, bufIndex: map<Id, nat>)
    requires BufferOk(roots, buffered, bufIndex)
    ensures Draining(roots, 0, buffered) && buffered.Keys == bufIndex.Keys
  {
  }

  lemma DrainMore(cands: seq<Id>, i: nat, buffered: map<Id, bool>)
    requires Draining(cands, i, buffered) && i < |cands|
    ensures cands[i] in buffered && buffered[cands[i] := false].Keys == buffered.Keys
    ensures Draining(cands, i + 1, buffered[cands[i] := false])
  {
  }

  lemma DrainEnd(cands: seq<Id>, buffered: map<Id, bool>, bufIndex: map<Id, nat>)
    requires Draining(cands, |cands|, buffered) && buffered.Keys == bufIndex.Keys
    ensures BufferOk([], buffered, bufIndex) && forall n :: n in buffered ==> !buffered[n]
  {
  }

  lemma WhiteStart(g: Graph, R: set<Id>, B: set<Id>, rcG: Counts, rc: Counts, color: Colors, buffered: map<Id, bool>)
    requires ScanInv(g, R, B, rcG, rc, color) && Closed(g, R, R) && R <= buffered.Keys
    requires forall n :: n in buffered ==> !buffered[n]
    ensures WhiteReady(g, R, color, buffered, [], R)
    ensures R <= g.Keys && Harvested(g, R, {}, color, color, [], [])
  {
  }

  lemma WhiteReadyAgain(g: Graph, R: set<Id>, color0: Colors, color1: Colors, buffered: map<Id, bool>, w1: seq<Id>)
    requires WhiteReady(g, R, color0, buffered, [], R) && R <= g.Keys && Harvested(g, R, {}, color0, color1, [], w1)
    ensures WhiteReady(g, R, color1, buffered, w1, R)
  {
  }

  /** The three phases together gather exactly the garbage. */
  lemma GatherComplete(s: State, kept: seq<Id>, R: set<Id>, B: set<Id>, color1: Colors, rc1: Counts,
                       color2: Colors, color3: Colors, white: seq<Id>, t: State)
    requires Ok(s) && Marking(s, |s.roots|, kept, R, color1, rc1)
    requires ScanInv(s.traced, R, B, rc1, t.rc, color2) && (forall m :: m in R ==> m in color2 && color2[m] != Gray)
    requires R <= s.traced.Keys && Ungrayed(s.traced, R, {}, color1, color2)
    requires Harvested(s.traced, R, {}, color2, color3, [], white)
    requires forall m :: m in kept ==> m in color3 && color3[m] != White
    requires t.buffered.Keys == s.buffered.Keys && BufferOk([], t.buffered, t.bufIndex)
    requires t == s.(rc := t.rc, color := color3, buffered := t.buffered, bufIndex := t.bufIndex, roots := [])
    ensures Gathering(s, t, white)
  {
    hide BufferOk, Marking, ScanInv, Ungrayed, Harvested, Ok, OkBut, Garbage, Elements, OwnedBag, Gathered, GatherGhost,
      NoDuplicates;
    GatherWhich(s, kept, R, B, color1, rc1, color2, color3, white, t.rc);
    GatherColors(s, kept, R, color1, rc1, color2, color3, white);
    GatherCounts(s, kept, R, B, color1, rc1, color2, white, t.rc);
    GatherAssemble(s, R - B, white, t);
  }

  lemma GatherWhich(s: State, kept: seq<Id>, R: set<Id>, B: set<Id>, color1: Colors, rc1: Counts,
                    color2: Colors, color3: Colors, white: seq<Id>, rc2: Counts)
    requires Ok(s) && Marking(s, |s.roots|, kept, R, color1, rc1)
    requires ScanInv(s.traced, R, B, rc1, rc2, color2) && (forall m :: m in R ==> m in color2 && color2[m] != Gray)
    requires R <= s.traced.Keys && Harvested(s.traced, R, {}, color2, color3, [], white)
    requires forall m :: m in kept ==> m in color3 && color3[m] != White
    ensures Shape(s) && Elements(white) == Garbage(s) == R - B && NoDuplicates(white)
    ensures forall m :: m in R ==> m in color3 && color3[m] == Black
  {
    hide Marking, ScanInv, Closed, Reachable, Sealed, Covered, Positive, Exact, Garbage;
    HarvestComplete(s, kept, R, B, color1, rc1, rc2, color2, color3, white);
    MarkedPartition(s, kept, R, B, color1, rc1, rc2, color2);
    PartitionGarbage(s, R, B, rc1, rc2, color2);
  }

  lemma GatherCounts(s: State, kept: seq<Id>, R: set<Id>, B: set<Id>, color1: Colors, rc1: Counts,
                     color2: Colors, white: seq<Id>, rc2: Counts)
    requires Ok(s) && Marking(s, |s.roots|, kept, R, color1, rc1)
    requires ScanInv(s.traced, R, B, rc1, rc2, color2) && (forall m :: m in R ==> m in color2 && color2[m] != Gray)
    requires Elements(white) == R - B && NoDuplicates(white)
    ensures Shape(s) && R <= s.Act() && rc2.Keys == s.rc.Keys
    ensures forall m :: m in s.rc ==> m in rc2 && rc2[m] + InCount(s.traced, R - B, m) == s.rc[m]
    ensures forall n :: n in white ==> n in s.owned
    ensures forall m :: OwnedBag(s.owned, white)[m] == InCount(s.owned, R - B, m)
  {
    MarkedPartition(s, kept, R, B, color1, rc1, rc2, color2);
    assert rc2.Keys == s.rc.Keys;
    hide Marking, ScanInv, Sealed, Covered, Positive, Exact, Settled;
    assert Shape(s) && R <= s.Act();
    forall m | m in s.rc ensures m in rc2 && rc2[m] + InCount(s.traced, R - B, m) == s.rc[m] {
      PartitionCounts(s, R, B, rc1, rc2, color2, m);
    }
    hide Partition;
    forall n | n in white ensures n in s.owned {
      assert n in Elements(white);
    }
    forall m ensures OwnedBag(s.owned, white)[m] == InCount(s.owned, R - B, m) {
      OwnedBagCount(s.owned, white, m);
    }
  }

  lemma GatherAssemble(s: State, D: set<Id>, white: seq<Id>, t: State)
    requires Shape(s) && D <= s.Act() && Elements(white) == D && t.rc.Keys == s.rc.Keys
    requires forall m :: m in s.rc ==> m in t.rc && t.rc[m] + InCount(s.traced, D, m) == s.rc[m]
    requires forall n :: n in white ==> n in s.owned
    requires forall m :: OwnedBag(s.owned, white)[m] == InCount(s.owned, D, m)
    requires t.color.Keys == s.color.Keys
    requires forall m :: m in s.Act() && m in t.color ==> t.color[m] == Black || t.color[m] == Purple
    requires t.buffered.Keys == s.buffered.Keys && BufferOk([], t.buffered, t.bufIndex)
    requires t == s.(rc := t.rc, color := t.color, buffered := t.buffered, bufIndex := t.bufIndex, roots := [])
    ensures Gathered(s, D, GatherGhost(s, t, white))
  {
    var u := GatherGhost(s, t, white);
    assert u.Act() <= s.Act();
    hide BufferOk;
  }

  lemma GatherColors(s: State, kept: seq<Id>, R: set<Id>, color1: Colors, rc1: Counts, color2: Colors, color3: Colors,
                     white: seq<Id>)
    requires Ok(s) && Marking(s, |s.roots|, kept, R, color1, rc1)
    requires R <= s.traced.Keys && Ungrayed(s.traced, R, {}, color1, color2)
    requires Harvested(s.traced, R, {}, color2, color3, [], white)
    requires forall m :: m in R ==> m in color3 && color3[m] == Black
    ensures color3.Keys == s.color.Keys
    ensures forall m :: m in s.Act() && m in color3 ==> color3[m] == Black || color3[m] == Purple
  {
  }

  /** The ghost side of gathering: the garbage is dying and what it owned is in hand. */
  ghost function GatherGhost(s: State, t: State, white: seq<Id>): State
    requires forall n :: n in white ==> n in s.owned
  {
    t.(dying := s.dying + Elements(white), held := s.held + OwnedBag(s.owned, white))
  }

  ghost predicate Gathering(s: State, t: State, white: seq<Id>) {
    && Shape(s) && Elements(white) == Garbage(s) && NoDuplicates(white)
    && (forall n :: n in white ==> n in s.owned)
    && Gathered(s, Garbage(s), GatherGhost(s, t, white))
  }

  /** `white` lists exactly the garbage of `s`, once each; in `t` it is dying, what it owned is in hand, the buffer is
      empty, and every count gave up exactly the references traced from the garbage. */
  ghost predicate GarbageGathered(s: State, t: State, white: seq<Id>) {
    && Shape(s) && Ok(t)
    && t.traced == s.traced && t.owned == s.owned && t.rc.Keys == s.rc.Keys && t.roots == []
    && NoDuplicates(white) && Elements(white) == Garbage(s)
    && (forall n :: n in white ==> n in s.owned)
    && t.held == s.held + OwnedBag(s.owned, white)
    && t.dying == s.dying + Garbage(s) && t.Act() == s.Act() - Garbage(s)
    && (forall n :: n in s.rc ==> t.rc[n] + InCount(s.traced, Garbage(s), n) == s.rc[n])
  }

  lemma GatherStart(s: State, kept: seq<Id>, R: set<Id>, B: set<Id>, color1: Colors, rc1: Counts,
                    rc: Counts, color: Colors, buffered: map<Id, bool>)
    requires Ok(s) && Marking(s, |s.roots|, kept, R, color1, rc1) && ScanInv(s.traced, R, B, rc1, rc, color)
    requires buffered.Keys == s.buffered.Keys && forall n :: n in buffered ==> !buffered[n]
    ensures WhiteReady(s.traced, R, color, buffered, [], R)
    ensures R <= s.traced.Keys && Harvested(s.traced, R, {}, color, color, [], [])
    ensures forall m :: m in kept ==> m in R
  {
    MarkingEnd(s, kept, R, color1, rc1);
    RootsInRegion(s, kept, R, color1, rc1);
    assert R <= buffered.Keys;
    WhiteStart(s.traced, R, B, rc1, rc, color, buffered);
    hide Ok, Marking, ScanInv, WhiteReady, Harvested;
  }

  lemma GatherOk(s: State, u: State, white: seq<Id>)
    requires Ok(s) && Gathering(s, u, white)
    requires u.traced == s.traced && u.owned == s.owned && u.held == s.held && u.dying == s.dying && u.roots == []
    ensures forall n :: n in white ==> n in u.owned
    ensures GarbageGathered(s, u.(dying := u.dying + Elements(white), held := u.held + OwnedBag(u.owned, white)), white)
  {
    var t := GatherGhost(s, u, white);
    GatheredOk(s, Garbage(s), t);
    assert t.rc.Keys == s.rc.Keys;
    hide Ok, OkBut, Garbage;
  }

  // ---------------------------------------------------------------------------------------------------------
  // Freeing the gathered objects

  lemma {:induction false} OwnedBagEmpty(g: Graph, w: seq<Id>)
    requires forall n :: n in w ==> n in g && SlotBag(g[n]) == multiset{}
    ensures OwnedBag(g, w) == multiset{}
  {
    if w != [] { OwnedBagEmpty(g, w[1..]); }
  }

  lemma OwnedBagStep(g: Graph, w: seq<Id>, i: nat)
    requires i < |w| && forall n :: n in w ==> n in g
    ensures (forall n :: n in w[i..] ==> n in g) && forall n :: n in w[i+1..] ==> n in g
    ensures OwnedBag(g, w[i..]) == SlotBag(g[w[i]]) + OwnedBag(g, w[i+1..])
  {
    assert w[i..][1..] == w[i+1..];
  }

  /** The teardown loop after `i` objects, started in `s`. */
  ghost predicate Freeing(s: State, t: State, w: seq<Id>, i: nat) {
    && i <= |w| && NoDuplicates(w) && (forall n :: n in w ==> n in s.owned && n in s.dying)
    && Ok(t) && Shrunk(s, t, Elements(w[..i]))
    && OwnedBag(s.owned, w) <= s.held
    && t.held == s.held - OwnedBag(s.owned, w) + OwnedBag(s.owned, w[i..])
    && (OwnedBag(s.owned, w) == multiset{} ==> Quiet(s, t))
  }

  lemma FreeingStart(s: State, w: seq<Id>)
    requires Ok(s) && NoDuplicates(w) && (forall n :: n in w ==> n in s.owned && n in s.dying)
    requires OwnedBag(s.owned, w) <= s.held
    ensures Freeing(s, s, w, 0)
  {
    hide Ok, NoDuplicates, OwnedBag, Shrunk, Quiet;
    assert w[0..] == w && w[..0] == [];
    assert Elements(w[..0]) == {};
    ShrunkSame(s);
    GivenBack(s.held, OwnedBag(s.owned, w));
  }

  lemma ShrunkSame(s: State)
    ensures Ok(s) ==> Shrunk(s, s, {}) && Quiet(s, s)
  {
    hide Sealed, Exact, Positive, Settled, BufferOk, Covered;
  }

  lemma GivenBack(b: multiset<Id>, c: multiset<Id>)
    requires c <= b
    ensures b - c + c == b
  {
  }

  lemma FreeingNext(s: State, t: State, w: seq<Id>, i: nat)
    requires Freeing(s, t, w, i) && i < |w|
    ensures w[i] in t.dying && w[i] in t.owned && t.owned[w[i]] == s.owned[w[i]]
    ensures SlotBag(t.owned[w[i]]) <= t.held && Shape(t)
  {
    OwnedBagStep(s.owned, w, i);
    assert w[i] !in Elements(w[..i]);
    assert Shape(t);
    hide Ok, OkBut;
  }

  lemma FreeingMore(s: State, t: State, u: State, w: seq<Id>, i: nat)
    requires Freeing(s, t, w, i) && i < |w| && w[i] in s.owned
    requires Ok(u) && Shrunk(t, u, {w[i]}) && t.owned.Keys >= {w[i]} && t.owned[w[i]] == s.owned[w[i]]
    requires SlotBag(s.owned[w[i]]) <= t.held
    requires u.held == t.held - SlotBag(s.owned[w[i]])
    requires SlotBag(s.owned[w[i]]) == multiset{} ==> Quiet(t, u)
    ensures Freeing(s, u, w, i + 1)
  {
    hide Ok, Shrunk, OwnedBag, SlotBag, NoDuplicates, Quiet;
    OwnedBagStep(s.owned, w, i);
    ShrunkTrans(s, t, u, Elements(w[..i]), {w[i]});
    assert Elements(w[..i]) + {w[i]} == Elements(w[..i+1]);
    BagRest(s.held - OwnedBag(s.owned, w), SlotBag(s.owned[w[i]]), OwnedBag(s.owned, w[i+1..]));
    FreeingQuiet(s.owned, w, i);
    if OwnedBag(s.owned, w) == multiset{} { QuietTrans(s, t, u); }
    hide Elements;
  }

  lemma QuietTrans(s: State, t: State, u: State)
    requires Quiet(s, t) && Quiet(t, u)
    ensures Quiet(s, u)
  {
  }

  lemma BagRest(h: multiset<Id>, a: multiset<Id>, b: multiset<Id>)
    ensures h + (a + b) - a == h + b
  {
  }

  lemma FreeingQuiet(g: Graph, w: seq<Id>, i: nat)
    requires i < |w| && forall n :: n in w ==> n in g
    ensures OwnedBag(g, w) == multiset{} ==> SlotBag(g[w[i]]) == multiset{}
    decreases i
  {
    OwnedBagStep(g, w, 0);
    assert w[0..] == w;
    if i > 0 { FreeingQuiet(g, w[1..], i - 1); }
  }

  lemma FreeingEnd(s: State, t: State, w: seq<Id>)
    requires Freeing(s, t, w, |w|)
    ensures Ok(t) && Shrunk(s, t, Elements(w)) && t.held == s.held - OwnedBag(s.owned, w)
    ensures OwnedBag(s.owned, w) == multiset{} ==> Quiet(s, t)
  {
    assert w[..|w|] == w && w[|w|..] == [];
    hide Ok, Shrunk, Quiet;
  }

  /** Gathering, then freeing what was gathered, is one collection. */
  lemma CollectDone(s: State, t: State, u: State, w: seq<Id>)
    requires Ok(s) && GarbageGathered(s, t, w)
    requires Ok(u) && Shrunk(t, u, Elements(w))
    requires (forall n :: n in w ==> n in t.owned) && u.held == t.held - OwnedBag(t.owned, w)
    requires OwnedBag(t.owned, w) == multiset{} ==> Quiet(t, u)
    ensures Collected(s, u)
  {
    hide Ok, Garbage, OwnedBag, NoDuplicates, SlotBag;
    BagBack(s.held, OwnedBag(t.owned, w));
    GarbageIsLive(s);
    assert s.dying + Garbage(s) - Garbage(s) == s.dying;
    assert Shrunk(s, u, {}) by { hide Quiet; }
    if forall n :: n in Garbage(s) && n in s.owned ==> SlotBag(s.owned[n]) == multiset{} {
      forall n | n in w ensures SlotBag(s.owned[n]) == multiset{} { assert n in Elements(w); }
      OwnedBagEmpty(s.owned, w);
    }
    hide Elements;
  }

  lemma GarbageIsLive(s: State)
    requires Shape(s)
    ensures Garbage(s) <= s.Act() && Garbage(s) !! s.dying
  {
  }

  lemma BagBack(h: multiset<Id>, a: multiset<Id>)
    ensures h + a - a == h
  {
  }

  lemma GatheredMayFree(s: State, t: State, w: seq<Id>)
    requires GarbageGathered(s, t, w)
    ensures Ok(t) && NoDuplicates(w) && forall n :: n in w ==> n in t.owned && n in t.dying
    ensures OwnedBag(t.owned, w) <= t.held
  {
    forall n | n in w ensures n in t.owned && n in t.dying { assert n in Elements(w); }
    hide Ok;
  }

  lemma NothingToCollect(s: State)
    requires Ok(s) && s.roots == []
    ensures Collected(s, s)
  {
    NoCandidatesNoGarbage(s);
    forall n ensures InCount(s.traced, {}, n) == 0 {}
    hide Garbage;
  }

  lemma FreeingOk(s: State, t: State, w: seq<Id>, i: nat)
    requires Freeing(s, t, w, i)
    ensures Ok(t) && t.Act() <= s.Act()
  {
    hide Ok;
  }

  // ---------------------------------------------------------------------------------------------------------
  // One release

  lemma NoSlotsNoBag(s: seq<Slot>)
    ensures SlotBag(s[..0]) == multiset{}
  {
  }

  lemma BagPrefix(s: seq<Slot>, i: nat)
    requires i < |s|
    ensures SlotBag(s[..i+1]) == if s[i].Ref? then SlotBag(s[..i]) + multiset{s[i].id} else SlotBag(s[..i])
  {
    assert s[..i+1][..i] == s[..i];
  }

  /** The next slot's reference is still in hand. */
  lemma GaveUpStill(s: State, t: State, slots: seq<Slot>, i: nat)
    requires i < |slots| && slots[i].Ref? && SlotBag(slots) <= s.held && GaveUp(s, t, SlotBag(slots[..i]))
    ensures slots[i].id in t.held && t.Act() <= s.Act()
  {
    var n := slots[i].id;
    hide Ok, Quiet;
    SlotBagCount(slots, n);
    SlotBagCount(slots[..i], n);
    SlotCountStep(slots, i, n);
    hide SlotBag;
    assert SlotBag(slots)[n] > SlotBag(slots[..i])[n];
  }

  lemma GaveUpKeeps(s: State, t: State, gone: multiset<Id>, n: Id)
    requires GaveUp(s, t, gone) && n in s.dying && n in s.traced && n in s.owned
    ensures n in t.traced && n in t.owned && t.traced[n] == s.traced[n] && t.owned[n] == s.owned[n] && Ok(t)
  {
    assert Shape(t);
    hide Ok, OkBut;
  }

  lemma ReleaseDomain(s: State, n: Id)
    requires Ok(s) && n in s.held
    ensures n in s.Act() && n in s.rc && s.rc[n] > 0 && n in s.traced && n in s.owned && n in s.buffered
    ensures BufferOk(s.roots, s.buffered, s.bufIndex) && n !in s.dying && Shape(s)
  {
    hide Covered, Exact, BufferOk;
  }

  /** Leaving the buffer is harmless for an object whose last reference is in hand. */
  lemma UnbufferedOk(s: State, t: State, n: Id)
    requires Ok(s) && n in s.Act()
    requires t == s.(roots := t.roots, buffered := t.buffered, bufIndex := t.bufIndex)
    requires t.buffered.Keys == s.buffered.Keys && BufferOk(t.roots, t.buffered, t.bufIndex)
    requires forall m :: m in t.roots <==> m in s.roots && m != n
    ensures OkBut(t, {n}) && n !in t.roots && t.Act() == s.Act()
  {
    assert t.Act() == s.Act() && Anchors(t) == Anchors(s);
    forall C: set<Id> | Closed(t.traced, t.Act(), C) && Anchors(t) + Candidates(t) + {n} <= C ensures t.Act() <= C {
      assert Candidates(s) <= Candidates(t) + {n};
      assert Anchors(s) + Candidates(s) + {} <= C;
    }
    hide Covered;
  }

  /** Between `s` and `t` the last reference to `n` was given up; `t` holds what `n` owned. */
  ghost predicate Died(s: State, t: State, n: Id) {
    && Shape(s) && n in s.Act() && n in s.held && n in s.traced && n in s.owned
    && t.traced == s.traced && t.owned == s.owned && t.rc.Keys == s.rc.Keys && t.dying == s.dying + {n}
    && t.held == InHand(s.held, n, s.traced[n], s.owned[n])
  }

  lemma Dead(s: State, t: State, n: Id)
    requires Shape(s) && n in s.Act() && n in s.held
    requires t.buffered.Keys == s.buffered.Keys == t.bufIndex.Keys
    requires t == Die(s.(roots := t.roots, buffered := t.buffered, bufIndex := t.bufIndex), n)
    ensures Died(s, t, n)
  {
    hide SlotBag;
  }

  lemma DiedDomain(s: State, t: State, n: Id)
    requires Died(s, t, n)
    ensures n in t.dying && n in t.traced && n in t.owned && t.traced[n] == s.traced[n] && t.owned[n] == s.owned[n]
    ensures SlotBag(t.traced[n]) <= t.held && t.Act() < s.Act()
  {
    hide SlotBag;
    assert t.Act() == s.Act() - {n};
  }

  ghost predicate HalfDead(s: State, u: State, n: Id) {
    n in s.owned && u.held == s.held - multiset{n} + SlotBag(s.owned[n])
  }

  lemma DeadHalf(s: State, t: State, u: State, n: Id)
    requires Died(s, t, n) && GaveUp(t, u, SlotBag(s.traced[n]))
    ensures n in u.dying && n in u.owned && u.owned[n] == s.owned[n]
    ensures SlotBag(u.owned[n]) <= u.held && u.Act() < s.Act()
    ensures HalfDead(s, u, n) && Shrunk(t, u, {}) && Ok(u)
  {
    DiedDomain(s, t, n);
    GaveUpKeeps(t, u, SlotBag(s.traced[n]), n);
    hide SlotBag, Ok, Quiet;
    BagMiddle(s.held - multiset{n}, SlotBag(s.traced[n]), SlotBag(s.owned[n]));
  }

  lemma BagMiddle(h: multiset<Id>, a: multiset<Id>, b: multiset<Id>)
    ensures h + a + b - a == h + b
    ensures h + b - b == h
  {
  }

  lemma DeadWhole(s: State, t: State, u: State, v: State, w: State, n: Id)
    requires Ok(s) && Died(s, t, n) && Shrunk(t, u, {}) && HalfDead(s, u, n) && GaveUp(u, v, SlotBag(s.owned[n]))
    requires Ok(w) && Shrunk(v, w, {n}) && w.held == v.held
    ensures Released(s, w, n)
  {
    hide SlotBag, Ok, Quiet, Shrunk;
    BagMiddle(s.held - multiset{n}, multiset{}, SlotBag(s.owned[n]));
    ShrunkTrans(t, u, v, {}, {});
    ShrunkTrans(t, v, w, {} + {}, {n});
    assert {} + {} + {n} == {n};
    DiedShrunk(s, t, w, n);
    hide Died;
  }

  lemma DiedShrunk(s: State, t: State, w: State, n: Id)
    requires Died(s, t, n) && Shrunk(t, w, {n})
    ensures Shrunk(s, w, {})
  {
    assert s.dying + {n} - {n} == s.dying;
    assert t.Act() <= s.Act();
  }

  lemma DropDone(s: State, t: State, u: State, n: Id)
    requires Ok(s) && n in s.rc && s.rc[n] > 0 && n in s.held && t == Drop(s, n)
    requires Ok(u) && Shrunk(t, u, {}) && u.held == t.held
    ensures Released(s, u, n)
  {
    hide Ok;
    assert t.Act() == s.Act();
  }

  lemma SameHeap(s: State, t: State)
    requires Shape(s)
    requires t == s.(color := t.color, roots := t.roots, buffered := t.buffered, bufIndex := t.bufIndex)
    ensures Shrunk(s, t, {})
  {
    assert t.Act() == s.Act();
  }

  lemma CollectedShrinks(s: State, t: State, u: State)
    requires Shrunk(s, t, {}) && t.held == s.held && Collected(t, u)
    ensures Shrunk(s, u, {}) && Ok(u) && u.held == s.held
  {
    hide Ok, Garbage, SlotBag;
    ShrunkTrans(s, t, u, {}, {});
    var none: set<Id> := {};
    assert none + none == none;
  }

  /** A flagged, listed candidate. */
  lemma BufferMore(roots: seq<Id>, buffered: map<Id, bool>, bufIndex: map<Id, nat>, n: Id)
    requires BufferOk(roots, buffered, bufIndex) && n in buffered && !buffered[n]
    ensures BufferOk(roots + [n], buffered[n := true], bufIndex[n := |roots|])
    ensures buffered[n := true].Keys == buffered.Keys
    ensures forall m :: m in roots + [n] <==> m in roots || m == n
  {
  }

  /** A surviving object as a candidate: purple, and listed once. */
  ghost function Candidate(s: State, n: Id): State {
    var t := s.(color := s.color[n := Purple]);
    if n in s.buffered && s.buffered[n] then t
    else t.(roots := s.roots + [n], buffered := s.buffered[n := true], bufIndex := s.bufIndex[n := |s.roots|])
  }

  lemma CandidateDomain(s: State, n: Id)
    requires OkBut(s, {n}) && n in s.Act()
    ensures BufferOk(s.roots, s.buffered, s.bufIndex) && n in s.buffered && s.buffered.Keys == s.rc.Keys
    ensures (s.buffered[n] ==> n in s.roots) && Shape(s)
  {
    hide Covered, Exact;
  }

  /** Tearing one gathered object down. */
  lemma GaveUpFree(t: State, u: State, w: Id)
    requires w in t.dying && w in t.owned && w in t.traced && GaveUp(t, u, SlotBag(t.owned[w]))
    ensures Ok(u) && w in u.dying
  {
    GaveUpKeeps(t, u, SlotBag(t.owned[w]), w);
    hide Ok, SlotBag;
  }

  lemma TornDown(t: State, u: State, v: State, w: Id)
    requires w in t.dying && w in t.owned && w in t.traced && GaveUp(t, u, SlotBag(t.owned[w]))
    requires Ok(v) && Shrunk(u, v, {w}) && Quiet(u, v) && v.held == u.held
    ensures Shrunk(t, v, {w}) && v.held == t.held - SlotBag(t.owned[w])
    ensures SlotBag(t.owned[w]) == multiset{} ==> Quiet(t, v)
  {
    hide Ok, SlotBag;
    ShrunkTrans(t, u, v, {}, {w});
    assert {} + {w} == {w};
  }

  // ---------------------------------------------------------------------------------------------------------
  // Stores

  /** The hands after giving one slot value away and taking another over. */
  ghost function Swapped(held: multiset<Id>, gave: Slot, got: Slot): multiset<Id> {
    held - OneBag(gave) + OneBag(got)
  }

  ghost predicate Holds(held: multiset<Id>, o: Id, v: Slot) {
    multiset{o} + OneBag(v) <= held
  }

  lemma SwappedCount(held: multiset<Id>, o: Id, gave: Slot, got: Slot, m: Id)
    requires Holds(held, o, gave)
    ensures Swapped(held, gave, got)[m] + OneSlot(gave, m) == held[m] + OneSlot(got, m)
    ensures held[o] > OneSlot(gave, o)
    ensures Swapped(held, gave, got) - OneBag(got) == held - OneBag(gave)
    ensures o in held - OneBag(gave)
  {
    HoldsCount(held, o, gave);
    SwappedOne(held, o, gave, got, m);
    AddedBack(held - OneBag(gave), OneBag(got));
  }

  lemma SwappedOne(held: multiset<Id>, o: Id, gave: Slot, got: Slot, m: Id)
    requires Holds(held, o, gave)
    ensures Swapped(held, gave, got)[m] + OneSlot(gave, m) == held[m] + OneSlot(got, m)
  {
    HoldsOthers(held, o, gave, m);
    hide Holds;
  }

  lemma HoldsOthers(held: multiset<Id>, o: Id, v: Slot, m: Id)
    requires Holds(held, o, v)
    ensures held[m] >= OneSlot(v, m)
  {
    assert (multiset{o} + OneBag(v))[m] <= held[m];
  }

  lemma AddedBack(b: multiset<Id>, c: multiset<Id>)
    ensures b + c - c == b
  {
  }

  lemma StoreRelinks(s: State, t: State, o: Id, i: nat, v: Slot)
    requires Ok(s) && o in s.traced && i < |s.traced[o]| && Holds(s.held, o, v)
    requires t == s.(traced := s.traced[o := s.traced[o][i := v]], held := Swapped(s.held, v, s.traced[o][i]))
    ensures Relinked(s, t, o, s.traced[o][i := v])
    ensures s.traced[o][i].Ref? ==> s.traced[o][i].id in t.held
    ensures t.held - OneBag(s.traced[o][i]) == s.held - OneBag(v) && o in s.held - OneBag(v)
  {
    hide Ok, Swapped, Holds, OneBag;
    var was := s.traced[o][i];
    SwappedCount(s.held, o, v, was, o);
    if was.Ref? {
      SwappedCount(s.held, o, v, was, was.id);
      HoldsOthers(s.held, o, v, was.id);
    }
    HeldIsLive(s, o);
    forall m ensures t.held[m] + SlotCount(s.traced[o][i := v], m) == s.held[m] + SlotCount(s.traced[o], m) {
      SwappedCount(s.held, o, v, was, m);
      SlotCountUpdate(s.traced[o], i, v, m);
    }
  }

  lemma AttachedLive(s: State, o: Id, v: Slot)
    requires Ok(s) && Holds(s.held, o, v)
    ensures o in s.Act() && OneBag(v) <= s.held && o in s.held - OneBag(v)
  {
    HoldsCount(s.held, o, v);
    assert OneBag(v) <= multiset{o} + OneBag(v);
    HeldIsLive(s, o);
  }

  lemma HoldsCount(held: multiset<Id>, o: Id, v: Slot)
    requires Holds(held, o, v)
    ensures (held - OneBag(v))[o] >= 1 && o in held
  {
    assert (multiset{o} + OneBag(v))[o] <= held[o];
  }

  lemma NoReference(held: multiset<Id>, s: Slot)
    requires !s.Ref?
    ensures held - OneBag(s) == held
  {
  }

  lemma HeldIsLive(s: State, o: Id)
    requires Ok(s) && o in s.held
    ensures o in s.Act() && o in s.traced
  {
    hide Covered, Exact;
  }

  /** A released reference leaves every still-held object, and all slots, in place. */
  lemma ReleasedKeeps(t: State, u: State, n: Id, o: Id)
    requires Released(t, u, n) && o in t.held - OneBag(Ref(n))
    ensures o in u.traced && u.Act() <= t.Act() && u.dying == t.dying && Ok(u) && u.held == t.held - OneBag(Ref(n))
    ensures forall m :: m in u.traced ==> m in t.traced && u.traced[m] == t.traced[m]
    ensures forall m :: m in u.owned ==> m in t.owned && u.owned[m] == t.owned[m]
  {
    HeldIsLive(u, o);
    hide Ok;
  }
}
