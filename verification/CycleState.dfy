/** The collector's view of the heap: counts, colours and the candidate buffer, and the vocabulary in which the
    recursive visits are specified. */
module CycleState {
  import opened HeapGraph

  datatype Color = Black | Purple | Gray | White

  type Counts = map<Id, nat>
  type Colors = map<Id, Color>

  // ---------------------------------------------------------------------------------------------------------
  // Vocabulary of the depth-first visits

  /** `todo` is what of `act` does not have colour `c` yet. */
  ghost predicate Pending(color: Colors, act: set<Id>, todo: set<Id>, c: Color) {
    && todo <= act
    && forall m :: m in act && m in color ==> (m in todo <==> color[m] != c)
  }

  ghost predicate SlotsColored(s: seq<Slot>, color: Colors, c: Color) {
    forall k :: 0 <= k < |s| && s[k].Ref? ==> s[k].id in color && color[s[k].id] == c
  }

  ghost predicate ChildrenColored(g: Graph, S: set<Id>, color: Colors, c: Color) {
    forall n, i {:trigger g[n][i]} :: n in S && n in g && 0 <= i < |g[n]| && g[n][i].Ref? ==>
      g[n][i].id in color && color[g[n][i].id] == c
  }

  ghost predicate Recolored(color0: Colors, color1: Colors, S: set<Id>, c: Color) {
    && color0.Keys == color1.Keys
    && S <= color1.Keys
    && (forall m :: m in S ==> color1[m] == c)
    && (forall m :: m in color0 && m !in S ==> color1[m] == color0[m])
  }

  /** `hi` holds the counts of `lo` plus one for every reference owned by `S` or held in `s`. */
  ghost predicate Differ(g: Graph, S: set<Id>, s: seq<Slot>, lo: Counts, hi: Counts)
    requires S <= g.Keys
  {
    lo.Keys == hi.Keys && forall m :: m in lo ==> lo[m] + InCount(g, S, m) + SlotCount(s, m) == hi[m]
  }

  /** Every object of `act` has at least one count for each reference owned by `S` or held in `s`. */
  ghost predicate Covers(g: Graph, S: set<Id>, s: seq<Slot>, rc: Counts, act: set<Id>)
    requires S <= g.Keys
  {
    forall m :: m in act && m in rc ==> InCount(g, S, m) + SlotCount(s, m) <= rc[m]
  }

  /** Everything in `S` can be reached from `n`. */
  ghost predicate Within(g: Graph, act: set<Id>, n: Id, S: set<Id>) {
    forall C: set<Id> :: Closed(g, act, C) && n in C ==> S <= C
  }

  /** A visit may start: `act` is closed, all of it has headers, and `todo` is its part not coloured `c`. */
  ghost predicate Ready(g: Graph, act: set<Id>, todo: set<Id>, color: Colors, rc: Counts, c: Color) {
    && act <= g.Keys && act <= rc.Keys && act <= color.Keys && todo <= act
    && Closed(g, act, act)
    && Pending(color, act, todo, c)
  }

  ghost predicate InAct(s: Slot, act: set<Id>) {
    s.Ref? ==> s.id in act
  }

  /** What visiting one slot did: `S` is fresh, recoloured, closed in colour and reachable through the slot, and the
      counts of `lo` and `hi` are apart by the references of `S` and of the slot itself. */
  ghost predicate SlotDone(g: Graph, act: set<Id>, todo: set<Id>, s: Slot, S: set<Id>, color0: Colors, color1: Colors,
                           lo: Counts, hi: Counts, c: Color)
  {
    && S <= todo && S <= g.Keys
    && Recolored(color0, color1, S, c)
    && Differ(g, S, [s], lo, hi)
    && ChildrenColored(g, S, color1, c)
    && (if s.Ref? then s.id in color1 && color1[s.id] == c && Within(g, act, s.id, S) else S == {})
  }

  /** What visiting one object did. */
  ghost predicate Done(g: Graph, act: set<Id>, todo: set<Id>, n: Id, S: set<Id>, color0: Colors, color1: Colors,
                       lo: Counts, hi: Counts, c: Color)
  {
    && S <= todo && S <= g.Keys
    && Recolored(color0, color1, S, c)
    && Differ(g, S, [], lo, hi)
    && ChildrenColored(g, S, color1, c)
    && Within(g, act, n, S)
    && n in color1 && color1[n] == c
  }

  /** A visit of `n` that has handled its first `i` slots, `S` being what it recoloured below `n`. */
  ghost predicate Walked(g: Graph, act: set<Id>, todo: set<Id>, n: Id, S: set<Id>, i: nat, color0: Colors,
                         color: Colors, lo: Counts, hi: Counts, c: Color)
  {
    && n in g && i <= |g[n]| && S <= g.Keys && S <= todo - {n} && n in todo
    && Recolored(color0, color, S + {n}, c)
    && Differ(g, S, g[n][..i], lo, hi)
    && ChildrenColored(g, S, color, c)
    && SlotsColored(g[n][..i], color, c)
    && Within(g, act, n, S)
  }

  lemma AlreadyDone(g: Graph, act: set<Id>, todo: set<Id>, n: Id, color: Colors, rc: Counts, c: Color)
    requires n in color && color[n] == c
    ensures Done(g, act, todo, n, {}, color, color, rc, rc, c)
  {
  }

  lemma NothingToVisit(g: Graph, act: set<Id>, todo: set<Id>, s: Slot, color: Colors, rc: Counts, c: Color)
    requires !s.Ref?
    ensures SlotDone(g, act, todo, s, {}, color, color, rc, rc, c)
  {
    forall m ensures SlotCount([s], m) == 0 { SingleSlot(s, m); }
  }

  lemma ReadyDomain(g: Graph, act: set<Id>, todo: set<Id>, color: Colors, rc: Counts, c: Color, n: Id)
    requires Ready(g, act, todo, color, rc, c) && n in act
    ensures n in g && n in rc && n in color && (n in todo <==> color[n] != c)
    ensures forall i :: 0 <= i < |g[n]| ==> InAct(g[n][i], act)
  {
  }

  lemma ReadyCounts(g: Graph, act: set<Id>, todo: set<Id>, color: Colors, rc: Counts, rc': Counts, c: Color)
    requires Ready(g, act, todo, color, rc, c) && rc.Keys == rc'.Keys
    ensures Ready(g, act, todo, color, rc', c)
  {
  }

  lemma WalkStart(g: Graph, act: set<Id>, todo: set<Id>, n: Id, color0: Colors, color: Colors, rc: Counts, c: Color)
    requires Ready(g, act, todo, color0, rc, c) && n in todo && n in color0 && color == color0[n := c]
    ensures Walked(g, act, todo, n, {}, 0, color0, color, rc, rc, c)
  {
  }

  /** Between two slots, what is left to colour is what neither the object nor the part below it covers. */
  lemma WalkReady(g: Graph, act: set<Id>, todo: set<Id>, n: Id, S: set<Id>, i: nat, color0: Colors, color: Colors,
                  lo: Counts, hi: Counts, rc: Counts, c: Color)
    requires Ready(g, act, todo, color0, rc, c) && rc.Keys == lo.Keys
    requires Walked(g, act, todo, n, S, i, color0, color, lo, hi, c)
    ensures Ready(g, act, todo - {n} - S, color, lo, c)
    ensures Ready(g, act, todo - {n} - S, color, hi, c)
    ensures n in g && forall k :: 0 <= k < |g[n]| ==> InAct(g[n][k], act)
  {
  }

  /** The edge out of slot `i` still has its count: no two visits take the same one. */
  lemma WalkCovered(g: Graph, act: set<Id>, todo: set<Id>, n: Id, S: set<Id>, i: nat, color0: Colors, color: Colors,
                    lo: Counts, hi: Counts, c: Color)
    requires todo <= g.Keys && n in g && i < |g[n]|
    requires Walked(g, act, todo, n, S, i, color0, color, lo, hi, c) && Covers(g, todo, [], hi, act)
    ensures todo - {n} - S <= g.Keys && Covers(g, todo - {n} - S, [g[n][i]], lo, act)
  {
    var rest := todo - {n} - S;
    forall m | m in act && m in lo ensures InCount(g, rest, m) + SlotCount([g[n][i]], m) <= lo[m] {
      InCountRemove(g, todo, n, m);
      InCountDiff(g, todo - {n}, S, m);
      SlotCountStep(g[n], i, m);
      SingleSlot(g[n][i], m);
    }
  }

  /** Visiting one more slot moves the lower counts from `mid` down to `lo`. */
  lemma WalkDown(g: Graph, act: set<Id>, todo: set<Id>, n: Id, S: set<Id>, T: set<Id>, i: nat,
                 color0: Colors, color1: Colors, color2: Colors, lo: Counts, mid: Counts, hi: Counts, c: Color)
    requires n in act && n in g && i < |g[n]|
    requires Walked(g, act, todo, n, S, i, color0, color1, mid, hi, c)
    requires SlotDone(g, act, todo - {n} - S, g[n][i], T, color1, color2, lo, mid, c)
    ensures Walked(g, act, todo, n, S + T, i + 1, color0, color2, lo, hi, c)
  {
    DifferMore(g, S, T, g[n], i, lo, mid, hi);
    WalkColors(g, act, n, S, T, i, color0, color1, color2, c);
  }

  /** The same step when the visit moves the upper counts from `mid` up to `hi`. */
  lemma WalkUp(g: Graph, act: set<Id>, todo: set<Id>, n: Id, S: set<Id>, T: set<Id>, i: nat,
               color0: Colors, color1: Colors, color2: Colors, lo: Counts, mid: Counts, hi: Counts, c: Color)
    requires n in act && n in g && i < |g[n]|
    requires Walked(g, act, todo, n, S, i, color0, color1, lo, mid, c)
    requires SlotDone(g, act, todo - {n} - S, g[n][i], T, color1, color2, mid, hi, c)
    ensures Walked(g, act, todo, n, S + T, i + 1, color0, color2, lo, hi, c)
  {
    DifferMoreUp(g, S, T, g[n], i, lo, mid, hi);
    WalkColors(g, act, n, S, T, i, color0, color1, color2, c);
  }

  lemma WalkColors(g: Graph, act: set<Id>, n: Id, S: set<Id>, T: set<Id>, i: nat,
                   color0: Colors, color1: Colors, color2: Colors, c: Color)
    requires n in act && n in g && i < |g[n]|
    requires Recolored(color0, color1, S + {n}, c) && Recolored(color1, color2, T, c)
    requires ChildrenColored(g, S, color1, c) && ChildrenColored(g, T, color2, c)
    requires SlotsColored(g[n][..i], color1, c) && Within(g, act, n, S)
    requires g[n][i].Ref? ==> g[n][i].id in color2 && color2[g[n][i].id] == c && Within(g, act, g[n][i].id, T)
    requires g[n][i].Ref? || T == {}
    ensures Recolored(color0, color2, S + T + {n}, c)
    ensures ChildrenColored(g, S + T, color2, c)
    ensures SlotsColored(g[n][..i+1], color2, c)
    ensures Within(g, act, n, S + T)
  {
    forall C: set<Id> | Closed(g, act, C) && n in C ensures T <= C {
      if g[n][i].Ref? { assert g[n][i].id in C; }
    }
    forall k | 0 <= k < i + 1 && g[n][k].Ref? ensures g[n][k].id in color2 && color2[g[n][k].id] == c {
      if k < i { assert g[n][..i][k] == g[n][k]; }
    }
  }

  lemma WalkEnd(g: Graph, act: set<Id>, todo: set<Id>, n: Id, S: set<Id>, color0: Colors, color: Colors,
                lo: Counts, hi: Counts, c: Color)
    requires n in g && Walked(g, act, todo, n, S, |g[n]|, color0, color, lo, hi, c)
    ensures Done(g, act, todo, n, S + {n}, color0, color, lo, hi, c)
  {
    assert g[n][..|g[n]|] == g[n];
    forall m | m in lo ensures lo[m] + InCount(g, S + {n}, m) + SlotCount([], m) == hi[m] {
      InCountRemove(g, S + {n}, n, m);
      assert S + {n} - {n} == S;
    }
  }

  /** One edge taken out of `hi`, then everything below it. */
  lemma EdgeThenBelow(g: Graph, act: set<Id>, todo: set<Id>, n: Id, S: set<Id>, color0: Colors, color1: Colors,
                      lo: Counts, mid: Counts, hi: Counts, c: Color)
    requires n in mid && hi == mid[n := mid[n] + 1]
    requires Done(g, act, todo, n, S, color0, color1, lo, mid, c)
    ensures SlotDone(g, act, todo, Ref(n), S, color0, color1, lo, hi, c)
  {
    forall m ensures SlotCount([Ref(n)], m) == OneSlot(Ref(n), m) { SingleSlot(Ref(n), m); }
  }

  /** One edge put back into `lo`, then everything below it. */
  lemma EdgeThenAbove(g: Graph, act: set<Id>, todo: set<Id>, n: Id, S: set<Id>, color0: Colors, color1: Colors,
                      lo: Counts, mid: Counts, hi: Counts, c: Color)
    requires n in lo && mid == lo[n := lo[n] + 1]
    requires Done(g, act, todo, n, S, color0, color1, mid, hi, c)
    ensures SlotDone(g, act, todo, Ref(n), S, color0, color1, lo, hi, c)
  {
    forall m ensures SlotCount([Ref(n)], m) == OneSlot(Ref(n), m) { SingleSlot(Ref(n), m); }
  }

  lemma EdgeIsCounted(g: Graph, todo: set<Id>, s: Slot, rc: Counts, act: set<Id>)
    requires todo <= g.Keys && s.Ref? && s.id in act && s.id in rc && Covers(g, todo, [s], rc, act)
    ensures rc[s.id] > 0
    ensures Covers(g, todo, [], rc[s.id := rc[s.id] - 1], act)
  {
    forall m ensures SlotCount([s], m) == OneSlot(s, m) { SingleSlot(s, m); }
  }

  lemma SingleSlot(s: Slot, m: Id)
    ensures SlotCount([s], m) == OneSlot(s, m)
  {
    SlotCountAppend([], s, m);
    assert [] + [s] == [s];
  }

  lemma DifferMore(g: Graph, S: set<Id>, T: set<Id>, s: seq<Slot>, i: nat, lo: Counts, mid: Counts, hi: Counts)
    requires S <= g.Keys && T <= g.Keys && S !! T && i < |s|
    requires Differ(g, S, s[..i], mid, hi) && Differ(g, T, [s[i]], lo, mid)
    ensures Differ(g, S + T, s[..i+1], lo, hi)
  {
    forall m | m in lo ensures lo[m] + InCount(g, S + T, m) + SlotCount(s[..i+1], m) == hi[m] {
      SlotCountStep(s, i, m);
      SingleSlot(s[i], m);
      InCountUnion(g, S, T, m);
    }
  }

  lemma DifferMoreUp(g: Graph, S: set<Id>, T: set<Id>, s: seq<Slot>, i: nat, lo: Counts, mid: Counts, hi: Counts)
    requires S <= g.Keys && T <= g.Keys && S !! T && i < |s|
    requires Differ(g, S, s[..i], lo, mid) && Differ(g, T, [s[i]], mid, hi)
    ensures Differ(g, S + T, s[..i+1], lo, hi)
  {
    forall m | m in lo ensures lo[m] + InCount(g, S + T, m) + SlotCount(s[..i+1], m) == hi[m] {
      SlotCountStep(s, i, m);
      SingleSlot(s[i], m);
      InCountUnion(g, S, T, m);
    }
  }

  // ---------------------------------------------------------------------------------------------------------
  // The scan phase, over the region `R` reachable from the kept candidates

  /** The region's objects that still have counts after every edge inside the region was trial-deleted. */
  ghost function External(R: set<Id>, rcG: Counts): set<Id> {
    set m | m in R && m in rcG && rcG[m] > 0
  }

  /** The region has headers, is closed, and every one of its grey objects is in `grays`. */
  ghost predicate ScanReady(g: Graph, R: set<Id>, color: Colors, rc: Counts, grays: set<Id>) {
    && R <= g.Keys && R <= rc.Keys && R <= color.Keys && Closed(g, R, R)
    && forall m :: m in R && color[m] == Gray ==> m in grays
  }

  lemma ScanDomain(g: Graph, R: set<Id>, color: Colors, rc: Counts, grays: set<Id>, n: Id)
    requires ScanReady(g, R, color, rc, grays) && n in R
    ensures n in g && n in rc && n in color && R <= g.Keys && (color[n] == Gray ==> n in grays)
    ensures forall i :: 0 <= i < |g[n]| ==> InAct(g[n][i], R)
  {
  }

  lemma ScanReadyBlack(g: Graph, R: set<Id>, B: set<Id>, color: Colors, rc: Counts, grays: set<Id>, rcG: Counts)
    requires ScanReady(g, R, color, rc, grays) && ScanInv(g, R, B, rcG, rc, color)
    ensures Ready(g, R, R - B, color, rc, Black)
    ensures forall n :: n in R && color[n] == Gray ==> n in R - B
  {
  }

  /** Scanning stays ready as colours move away from grey, `n` being the object in progress. */
  lemma ScanReadyStill(g: Graph, R: set<Id>, n: Id, color0: Colors, color1: Colors, rc0: Counts, rc1: Counts,
                       grays: set<Id>)
    requires ScanReady(g, R, color0, rc0, grays) && Ungrayed(g, R, {n}, color0, color1) && rc0.Keys == rc1.Keys
    requires n in color1 && color1[n] != Gray
    ensures ScanReady(g, R, color1, rc1, grays - {n})
  {
  }

  lemma UngrayedStart(g: Graph, R: set<Id>, color: Colors, n: Id)
    requires R <= g.Keys && n in color && n in R
    ensures Ungrayed(g, R, {}, color, color)
    ensures Ungrayed(g, R, {n}, color, color[n := White])
  {
  }

  lemma UngrayedEnd(g: Graph, R: set<Id>, n: Id, color0: Colors, color1: Colors)
    requires R <= g.Keys && n in R && Ungrayed(g, R, {n}, color0, color1) && SlotsNotGray(g[n][..|g[n]|], color1)
    ensures Ungrayed(g, R, {}, color0, color1)
  {
    assert g[n][..|g[n]|] == g[n];
  }

  /** `B` is the blackened part of the region: closed, reachable from externally held objects, with exactly its own
      edges restored; and nothing white has an external reference. `rcG` are the counts after trial deletion. */
  ghost predicate ScanInv(g: Graph, R: set<Id>, B: set<Id>, rcG: Counts, rc: Counts, color: Colors) {
    && B <= R <= g.Keys && R <= rcG.Keys && R <= color.Keys
    && Closed(g, R, B)
    && Differ(g, B, [], rcG, rc)
    && (forall m :: m in R ==> color[m] != Purple && (m in B <==> color[m] == Black))
    && (forall m :: m in R && color[m] == White ==> rcG[m] == 0)
    && (forall C: set<Id> :: Closed(g, R, C) && External(R, rcG) <= C ==> B <= C)
  }

  ghost predicate SlotsNotGray(s: seq<Slot>, color: Colors) {
    forall k :: 0 <= k < |s| && s[k].Ref? && s[k].id in color ==> color[s[k].id] != Gray
  }

  /** From `color0` to `color1` only region objects change colour, none becomes grey, and those that left grey
      (`except` aside) have no grey children. */
  ghost predicate Ungrayed(g: Graph, R: set<Id>, except: set<Id>, color0: Colors, color1: Colors)
    requires R <= g.Keys
  {
    && color0.Keys == color1.Keys
    && (forall m :: m in color0 && m !in R ==> color1[m] == color0[m])
    && (forall m :: m in color0 && color0[m] != Gray ==> color1[m] != Gray)
    && (forall m :: m in color0 && m in R && m !in except && color0[m] == Gray && color1[m] != Gray
          ==> SlotsNotGray(g[m], color1))
  }

  lemma NoSlots(s: seq<Slot>, color: Colors)
    ensures SlotsNotGray(s[..0], color)
  {
  }

  lemma UngrayedTrans(g: Graph, R: set<Id>, except: set<Id>, color0: Colors, color1: Colors, color2: Colors)
    requires R <= g.Keys && Ungrayed(g, R, except, color0, color1) && Ungrayed(g, R, {}, color1, color2)
    ensures Ungrayed(g, R, except, color0, color2)
    ensures forall m :: m in color1 && color1[m] != Gray ==> m in color2 && color2[m] != Gray
  {
    forall m | m in color0 && m in R && m !in except && color0[m] == Gray && color2[m] != Gray
      ensures SlotsNotGray(g[m], color2)
    {
      if color1[m] != Gray { assert SlotsNotGray(g[m], color1); }
    }
  }

  lemma SlotsNotGrayMore(s: seq<Slot>, i: nat, g: Graph, R: set<Id>, color1: Colors, color2: Colors)
    requires i < |s| && R <= g.Keys && Ungrayed(g, R, {}, color1, color2) && SlotsNotGray(s[..i], color1)
    requires s[i].Ref? && s[i].id in color2 ==> color2[s[i].id] != Gray
    ensures SlotsNotGray(s[..i+1], color2)
  {
    forall k | 0 <= k < i + 1 && s[k].Ref? && s[k].id in color2 ensures color2[s[k].id] != Gray {
      if k < i { assert s[..i][k] == s[k]; }
    }
  }

  lemma NoReferenceOut(g: Graph, R: set<Id>, B: set<Id>, n: Id)
    requires B <= R <= g.Keys && Closed(g, R, B) && n !in B
    ensures InCount(g, B, n) == 0
  {
    InCountHas(g, B, n);
  }

  /** A grey object with no count left has no external reference, whatever was restored so far. */
  lemma ScanWhite(g: Graph, R: set<Id>, B: set<Id>, rcG: Counts, rc: Counts, color: Colors, n: Id)
    requires ScanInv(g, R, B, rcG, rc, color) && n in R && color[n] == Gray && n in rc && rc[n] == 0
    ensures ScanInv(g, R, B, rcG, rc, color[n := White])
  {
  }

  /** A grey object that kept a count is externally held, so everything the restore walk blackened is reachable
      from an externally held object. */
  lemma ScanBlackened(g: Graph, R: set<Id>, B: set<Id>, S: set<Id>, rcG: Counts, rc0: Counts, rc1: Counts,
                      color0: Colors, color1: Colors, n: Id)
    requires ScanInv(g, R, B, rcG, rc0, color0) && n in R && n in rc0 && color0[n] == Gray && rc0[n] > 0
    requires Done(g, R, R - B, n, S, color0, color1, rc0, rc1, Black) && Closed(g, R, R)
    ensures ScanInv(g, R, B + S, rcG, rc1, color1)
    ensures Ungrayed(g, R, {}, color0, color1)
  {
    assert n in S;
    NoReferenceOut(g, R, B, n);
    assert n in External(R, rcG);
    forall C: set<Id> | Closed(g, R, C) && External(R, rcG) <= C ensures B + S <= C {
    }
    forall m, i | m in B + S && m in R && m in g && 0 <= i < |g[m]| && g[m][i].Ref? ensures g[m][i].id in B + S {
      if m in S { assert color1[g[m][i].id] == Black; }
    }
    forall m | m in rcG ensures rcG[m] + InCount(g, B + S, m) + SlotCount([], m) == rc1[m] {
      InCountUnion(g, B, S, m);
    }
    forall m | m in color0 && m in R && color0[m] == Gray && color1[m] != Gray ensures SlotsNotGray(g[m], color1) {
      assert m in S;
    }
  }

  // ---------------------------------------------------------------------------------------------------------
  // Gathering the white set

  ghost predicate NoDuplicates(w: seq<Id>) {
    forall i, j :: 0 <= i < j < |w| ==> w[i] != w[j]
  }

  ghost predicate SlotsNotWhite(s: seq<Slot>, color: Colors) {
    forall k :: 0 <= k < |s| && s[k].Ref? && s[k].id in color ==> color[s[k].id] != White
  }

  ghost predicate WhiteReady(g: Graph, R: set<Id>, color: Colors, buffered: map<Id, bool>, white: seq<Id>,
                             whites: set<Id>) {
    && R <= g.Keys && R <= color.Keys && R <= buffered.Keys && Closed(g, R, R)
    && (forall m :: m in R ==> !buffered[m])
    && (forall m :: m in R && color[m] == White ==> m in whites)
    && (forall m :: m in white ==> m in color && color[m] != White)
    && NoDuplicates(white)
  }

  /** From one moment to the next, only white objects of the region changed, to black; those (`except` aside) are
      exactly what joined the list, and none of their children is white. */
  ghost predicate Harvested(g: Graph, R: set<Id>, except: set<Id>, color0: Colors, color1: Colors, w0: seq<Id>,
                            w1: seq<Id>)
    requires R <= g.Keys
  {
    && color0.Keys == color1.Keys && NoDuplicates(w1)
    && (forall m :: m in color0 ==> color1[m] == color0[m] || (m in R && color0[m] == White && color1[m] == Black))
    && (forall m :: m in w1 <==> m in w0 || (m in color0 && m !in except && color0[m] == White && color1[m] == Black))
    && (forall m :: m in R && m !in except && m in color0 && color0[m] == White && color1[m] == Black ==>
          SlotsNotWhite(g[m], color1))
  }

  lemma WhiteDomain(g: Graph, R: set<Id>, color: Colors, buffered: map<Id, bool>, white: seq<Id>, whites: set<Id>,
                    n: Id)
    requires WhiteReady(g, R, color, buffered, white, whites) && n in R
    ensures n in g && n in color && n in buffered && !buffered[n] && R <= g.Keys && (color[n] == White ==> n in whites)
    ensures forall i :: 0 <= i < |g[n]| ==> InAct(g[n][i], R)
  {
  }

  lemma HarvestStart(g: Graph, R: set<Id>, color: Colors, buffered: map<Id, bool>, white: seq<Id>, whites: set<Id>,
                     n: Id)
    requires WhiteReady(g, R, color, buffered, white, whites) && n in R && n in color
    ensures R <= g.Keys && Harvested(g, R, {}, color, color, white, white)
    ensures color[n] == White ==> Harvested(g, R, {n}, color, color[n := Black], white, white)
    ensures SlotsNotWhite(g[n][..0], color[n := Black])
  {
  }

  lemma HarvestReady(g: Graph, R: set<Id>, n: Id, color0: Colors, color1: Colors, buffered: map<Id, bool>,
                     w0: seq<Id>, w1: seq<Id>, whites: set<Id>)
    requires WhiteReady(g, R, color0, buffered, w0, whites)
    requires R <= g.Keys && Harvested(g, R, {n}, color0, color1, w0, w1)
    requires n in color1 && color1[n] != White
    ensures WhiteReady(g, R, color1, buffered, w1, whites - {n})
  {
  }

  lemma HarvestTrans(g: Graph, R: set<Id>, except: set<Id>, color0: Colors, color1: Colors, color2: Colors,
                     w0: seq<Id>, w1: seq<Id>, w2: seq<Id>)
    requires R <= g.Keys && Harvested(g, R, except, color0, color1, w0, w1)
    requires Harvested(g, R, {}, color1, color2, w1, w2)
    requires forall m :: m in except && m in color1 ==> color1[m] != White
    ensures Harvested(g, R, except, color0, color2, w0, w2)
    ensures forall m :: m in color1 && color1[m] != White ==> m in color2 && color2[m] != White
  {
    forall m | m in R && m !in except && m in color0 && color0[m] == White && color2[m] == Black
      ensures SlotsNotWhite(g[m], color2)
    {
      if color1[m] == Black { assert SlotsNotWhite(g[m], color1); }
    }
  }

  lemma SlotsNotWhiteMore(s: seq<Slot>, i: nat, color1: Colors, color2: Colors)
    requires i < |s| && SlotsNotWhite(s[..i], color1) && color1.Keys == color2.Keys
    requires forall m :: m in color1 && color1[m] != White ==> color2[m] != White
    requires s[i].Ref? && s[i].id in color2 ==> color2[s[i].id] != White
    ensures SlotsNotWhite(s[..i+1], color2)
  {
    forall k | 0 <= k < i + 1 && s[k].Ref? && s[k].id in color2 ensures color2[s[k].id] != White {
      if k < i { assert s[..i][k] == s[k]; }
    }
  }

  /** The object joins the list after everything below it. */
  lemma HarvestEnd(g: Graph, R: set<Id>, n: Id, color0: Colors, color1: Colors, buffered: map<Id, bool>,
                   w0: seq<Id>, w1: seq<Id>, whites: set<Id>)
    requires WhiteReady(g, R, color0, buffered, w0, whites)
    requires R <= g.Keys && n in R && Harvested(g, R, {n}, color0, color1, w0, w1)
    requires n in color0 && color0[n] == White && color1[n] != White && SlotsNotWhite(g[n][..|g[n]|], color1)
    ensures Harvested(g, R, {}, color0, color1, w0, w1 + [n])
  {
    assert g[n][..|g[n]|] == g[n];
    assert n !in w1;
  }
}
