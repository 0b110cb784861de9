/** What the comparison of possibly cyclic values decides. Two values are alike when no path tells them apart: when
    their unfoldings, finite or not, are the same tree. */
module DeepEqualMeaning {
  import opened DeepEquality

  datatype Place = Nowhere | At(ref: Ref)

  /** Where a path of child positions leads. */
  ghost function Follow(h: Heap, a: Ref, path: seq<nat>): (r: Place)
    requires Sound(h) && a in h
    ensures r.At? ==> r.ref in h
    decreases |path|
  {
    if path == [] then At(a)
    else if path[0] < |h[a].kids| then Follow(h, h[a].kids[path[0]], path[1..])
    else Nowhere
  }

  datatype View = Hidden | Shows(leaves: int, kids: nat)

  /** What a reader sees at the end of a path. */
  ghost function Seen(h: Heap, a: Ref, path: seq<nat>): View
    requires Sound(h) && a in h
  {
    match Follow(h, a, path) case Nowhere => Hidden case At(n) => Shows(h[n].leaves, |h[n].kids|)
  }

  ghost predicate Alike(h: Heap, a: Ref, b: Ref)
    requires Sound(h) && a in h && b in h
  {
    forall path: seq<nat> :: Seen(h, a, path) == Seen(h, b, path)
  }

  /** Some path that is not empty leads from `a` to `b`. */
  ghost predicate Below(h: Heap, a: Ref, b: Ref)
    requires Sound(h) && a in h && b in h
  {
    exists p: seq<nat> :: p != [] && Follow(h, a, p) == At(b)
  }

  /** Nothing that can be reached from `a` contains itself. */
  ghost predicate NoCycle(h: Heap, a: Ref)
    requires Sound(h) && a in h
  {
    !Below(h, a, a) && forall n :: n in h && Below(h, a, n) ==> !Below(h, n, n)
  }

  lemma {:induction false} FollowConcat(h: Heap, a: Ref, p: seq<nat>, q: seq<nat>)
    requires Sound(h) && a in h
    ensures Follow(h, a, p + q) == if Follow(h, a, p).At? then Follow(h, Follow(h, a, p).ref, q) else Nowhere
    decreases |p|
  {
    if p == [] {
      assert p + q == q;
    } else if p[0] < |h[a].kids| {
      assert (p + q)[1..] == p[1..] + q;
      FollowConcat(h, h[a].kids[p[0]], p[1..], q);
    }
  }

  lemma BelowTrans(h: Heap, a: Ref, b: Ref, c: Ref)
    requires Sound(h) && a in h && b in h && c in h && Below(h, a, b) && Below(h, b, c)
    ensures Below(h, a, c)
  {
    var p: seq<nat> :| p != [] && Follow(h, a, p) == At(b);
    var q: seq<nat> :| q != [] && Follow(h, b, q) == At(c);
    FollowConcat(h, a, p, q);
    assert p + q != [];
  }

  lemma BelowKid(h: Heap, a: Ref, i: nat)
    requires Sound(h) && a in h && i < |h[a].kids|
    ensures Below(h, a, h[a].kids[i])
  {
    var p: seq<nat> := [i];
    assert p[1..] == [];
    assert Follow(h, a, p) == At(h[a].kids[i]);
  }

  lemma NoCycleBelow(h: Heap, a: Ref, b: Ref)
    requires Sound(h) && a in h && b in h && NoCycle(h, a) && Below(h, a, b)
    ensures NoCycle(h, b)
  {
    forall n | n in h && Below(h, b, n) ensures !Below(h, n, n) { BelowTrans(h, a, b, n); }
  }

  /** Alike values show alike, and so do whatever a path leads to in both. */
  lemma AlikeFollow(h: Heap, a: Ref, b: Ref, p: seq<nat>)
    requires Sound(h) && a in h && b in h && Alike(h, a, b)
    ensures Follow(h, a, p).At? <==> Follow(h, b, p).At?
    ensures Follow(h, a, p).At? ==> Alike(h, Follow(h, a, p).ref, Follow(h, b, p).ref)
  {
    assert Seen(h, a, p) == Seen(h, b, p);
    if Follow(h, a, p).At? {
      forall q: seq<nat> ensures Seen(h, Follow(h, a, p).ref, q) == Seen(h, Follow(h, b, p).ref, q) {
        assert Seen(h, a, p + q) == Seen(h, b, p + q);
        FollowConcat(h, a, p, q);
        FollowConcat(h, b, p, q);
      }
    }
  }

  /** The children from the `i`-th on are alike, one by one. */
  ghost predicate AlikeKids(h: Heap, a: Ref, b: Ref, i: nat)
    requires Sound(h) && a in h && b in h && |h[a].kids| == |h[b].kids|
  {
    forall k :: i <= k < |h[a].kids| ==> Alike(h, h[a].kids[k], h[b].kids[k])
  }

  lemma AlikeByKids(h: Heap, a: Ref, b: Ref)
    requires Sound(h) && a in h && b in h
    ensures Alike(h, a, b) <==> h[a].leaves == h[b].leaves && |h[a].kids| == |h[b].kids| && AlikeKids(h, a, b, 0)
  {
    if Alike(h, a, b) {
      assert Seen(h, a, []) == Seen(h, b, []);
      forall k: nat | k < |h[a].kids| ensures Alike(h, h[a].kids[k], h[b].kids[k]) {
        var p: seq<nat> := [k];
        assert p[1..] == [];
        AlikeFollow(h, a, b, p);
      }
    }
    if h[a].leaves == h[b].leaves && |h[a].kids| == |h[b].kids| && AlikeKids(h, a, b, 0) {
      forall p: seq<nat> ensures Seen(h, a, p) == Seen(h, b, p) {
        if p != [] && p[0] < |h[a].kids| {
          assert Seen(h, h[a].kids[p[0]], p[1..]) == Seen(h, h[b].kids[p[0]], p[1..]);
        }
      }
    }
  }

  // ---------------------------------------------------------------------------------------------------------
  // One operand without cycles

  /** The path `p` leads from one of the two to the other, or from `y` back to itself. */
  ghost predicate Orbit(h: Heap, x: Ref, y: Ref, p: seq<nat>)
    requires Sound(h) && x in h && y in h
  {
    Follow(h, x, p) == At(y) || Follow(h, y, p) == At(x) || Follow(h, y, p) == At(y)
  }

  /** A value without cycles is alike to nothing of the kind: following the path for ever would pass through ever new
      values of a finite heap. `seen` are those passed. */
  lemma {:induction false} NoOrbit(h: Heap, x: Ref, y: Ref, p: seq<nat>, seen: set<Ref>)
    requires Sound(h) && x in h && y in h && p != [] && NoCycle(h, x)
    requires seen <= h.Keys && forall s :: s in seen ==> Below(h, s, x)
    ensures !(Orbit(h, x, y, p) && Alike(h, x, y))
    decreases h.Keys - seen
  {
    if Orbit(h, x, y, p) && Alike(h, x, y) {
      AlikeFollow(h, x, y, p);
      var x', y' := Follow(h, x, p).ref, Follow(h, y, p).ref;
      assert Below(h, x, x');
      NoCycleBelow(h, x, x');
      forall s | s in seen + {x} ensures Below(h, s, x') { if s in seen { BelowTrans(h, s, x, x'); } }
      assert x !in seen;
      NoOrbit(h, x', y', p, seen + {x});
    }
  }

  /** The operands being compared lie strictly below their side of every open pair. */
  ghost predicate Inside(h: Heap, open: seq<Pair>, x: Ref, y: Ref)
    requires Sound(h) && Good(h, open) && x in h && y in h
  {
    forall i :: 0 <= i < |open| ==> Below(h, open[i].0, x) && Below(h, open[i].1, y)
  }

  /** With no cycle on the left the rule never answers equal, and answers unequal only for values that differ. */
  lemma RuleIsSound(h: Heap, open: seq<Pair>, promoted: bool, x: Ref, y: Ref)
    requires Sound(h) && Good(h, open) && x in h && y in h && NoCycle(h, x) && Inside(h, open, x, y)
    ensures Rule(open, promoted, x, y) != Equal
    ensures Rule(open, promoted, x, y) == Unequal ==> !Alike(h, x, y)
  {
    if i :| 0 <= i < |open| && open[i].1 == x {
      NoCycleBelow(h, x, y);
      NotAlike(h, x, y, x, y);
      forall j | 0 <= j < |open| ensures open[j].0 != y && open[j].1 != y {
        if open[j].0 == y { BelowTrans(h, x, y, x); }
      }
    }
    if j :| 0 <= j < |open| && open[j].0 == y { NotAlike(h, x, y, y, x); }
    if j :| 0 <= j < |open| && open[j].1 == y { NotAlike(h, x, y, y, y); }
  }

  lemma NotAlike(h: Heap, x: Ref, y: Ref, from: Ref, to: Ref)
    requires Sound(h) && x in h && y in h && NoCycle(h, x) && from in h && to in h && Below(h, from, to)
    requires (from == x && to == y) || (from == y && to == x) || (from == y && to == y)
    ensures !Alike(h, x, y)
  {
    var p: seq<nat> :| p != [] && Follow(h, from, p) == At(to);
    NoOrbit(h, x, y, p, {});
  }

  /** At any point of a comparison with no cycle left of it, the answer is whether the two are alike. */
  lemma {:induction false} CompareLeft(h: Heap, open: seq<Pair>, promoted: bool, x: Ref, y: Ref)
    requires Sound(h) && Good(h, open) && x in h && y in h && NoCycle(h, x) && Inside(h, open, x, y)
    ensures Compare(h, open, promoted, x, y).0 <==> Alike(h, x, y)
    decreases Room(h, open), 1, 0
  {
    if x != y {
      RuleIsSound(h, open, promoted, x, y);
      AlikeByKids(h, x, y);
      if Rule(open, promoted, x, y) == Walk && h[x].leaves == h[y].leaves && |h[x].kids| == |h[y].kids| {
        GoodMore(h, open, promoted, x, y);
        var p := promoted || Promotes(open, promoted);
        assert h[x].kids[0..] == h[x].kids && h[y].kids[0..] == h[y].kids;
        CompareKidsLeft(h, open, open + [(x, y)], p, x, y, 0);
      }
    }
  }

  lemma {:induction false} CompareKidsLeft(h: Heap, before: seq<Pair>, open: seq<Pair>, promoted: bool, x: Ref, y: Ref,
                                           i: nat)
    requires Sound(h) && x in h && y in h && Good(h, before) && open == before + [(x, y)] && Good(h, open)
    requires NoCycle(h, x) && Inside(h, before, x, y) && |h[x].kids| == |h[y].kids| && i <= |h[x].kids|
    ensures CompareKids(h, open, promoted, h[x].kids[i..], h[y].kids[i..]).0 <==> AlikeKids(h, x, y, i)
    decreases Room(h, open), 2, |h[x].kids| - i
  {
    if i < |h[x].kids| {
      var a, b := h[x].kids[i], h[y].kids[i];
      InsideKids(h, before, open, x, y, i);
      CompareLeft(h, open, promoted, a, b);
      var (r, p) := Compare(h, open, promoted, a, b);
      assert h[x].kids[i..][1..] == h[x].kids[i + 1..] && h[y].kids[i..][1..] == h[y].kids[i + 1..];
      CompareKidsLeft(h, before, open, p, x, y, i + 1);
    }
  }

  lemma InsideKids(h: Heap, before: seq<Pair>, open: seq<Pair>, x: Ref, y: Ref, i: nat)
    requires Sound(h) && x in h && y in h && Good(h, before) && open == before + [(x, y)] && Good(h, open)
    requires NoCycle(h, x) && Inside(h, before, x, y) && i < |h[x].kids| && i < |h[y].kids|
    ensures NoCycle(h, h[x].kids[i]) && Inside(h, open, h[x].kids[i], h[y].kids[i])
  {
    var a, b := h[x].kids[i], h[y].kids[i];
    BelowKid(h, x, i);
    BelowKid(h, y, i);
    NoCycleBelow(h, x, a);
    forall k | 0 <= k < |open| ensures Below(h, open[k].0, a) && Below(h, open[k].1, b) {
      if k < |before| {
        BelowTrans(h, before[k].0, x, a);
        BelowTrans(h, before[k].1, y, b);
      }
    }
  }

  // The comparison does not tell its sides apart

  ghost function Swapped(open: seq<Pair>): (r: seq<Pair>)
    ensures |r| == |open| && forall i :: 0 <= i < |open| ==> r[i] == (open[i].1, open[i].0)
  {
    seq(|open|, i requires 0 <= i < |open| => (open[i].1, open[i].0))
  }

  lemma SwappedRule(open: seq<Pair>, promoted: bool, a: Ref, b: Ref)
    ensures Rule(Swapped(open), promoted, b, a) == Rule(open, promoted, a, b)
  {
    SwappedPresent(open, a);
    SwappedPresent(open, b);
  }

  lemma SwappedPresent(open: seq<Pair>, v: Ref)
    ensures Present(Swapped(open), v) <==> Present(open, v)
  {
    var s := Swapped(open);
    if i :| 0 <= i < |open| && (open[i].0 == v || open[i].1 == v) { assert s[i].0 == v || s[i].1 == v; }
    if i :| 0 <= i < |s| && (s[i].0 == v || s[i].1 == v) { assert open[i].0 == v || open[i].1 == v; }
  }

  lemma {:induction false} CompareSwapped(h: Heap, open: seq<Pair>, promoted: bool, a: Ref, b: Ref)
    requires Sound(h) && Good(h, open) && a in h && b in h
    ensures Good(h, Swapped(open)) && Compare(h, Swapped(open), promoted, b, a) == Compare(h, open, promoted, a, b)
    decreases Room(h, open), 1, 0
  {
    SwappedRule(open, promoted, a, b);
    if a != b && Rule(open, promoted, a, b) == Walk && h[a].leaves == h[b].leaves && |h[a].kids| == |h[b].kids| {
      GoodMore(h, open, promoted, a, b);
      assert Swapped(open + [(a, b)]) == Swapped(open) + [(b, a)];
      CompareKidsSwapped(h, open + [(a, b)], promoted || Promotes(open, promoted), h[a].kids, h[b].kids);
    }
  }

  lemma {:induction false} CompareKidsSwapped(h: Heap, open: seq<Pair>, promoted: bool, ka: seq<Ref>, kb: seq<Ref>)
    requires Sound(h) && Good(h, open) && |ka| == |kb|
    requires forall i :: 0 <= i < |ka| ==> ka[i] in h && kb[i] in h
    ensures Good(h, Swapped(open))
    ensures CompareKids(h, Swapped(open), promoted, kb, ka) == CompareKids(h, open, promoted, ka, kb)
    decreases Room(h, open), 2, |ka|
  {
    if ka != [] {
      CompareSwapped(h, open, promoted, ka[0], kb[0]);
      CompareKidsSwapped(h, open, Compare(h, open, promoted, ka[0], kb[0]).1, ka[1..], kb[1..]);
    }
  }

  lemma AlikeSwapped(h: Heap, a: Ref, b: Ref)
    requires Sound(h) && a in h && b in h
    ensures Alike(h, a, b) <==> Alike(h, b, a)
  {
  }

  /** Where one of the operands reaches no cycle, whatever else the heap holds, the comparison decides exactly whether
      the two are alike. */
  lemma CompareIsEquality(h: Heap, a: Ref, b: Ref)
    requires Sound(h) && a in h && b in h && (NoCycle(h, a) || NoCycle(h, b))
    ensures Compare(h, [], false, a, b).0 <==> Alike(h, a, b)
  {
    if NoCycle(h, a) {
      CompareLeft(h, [], false, a, b);
    } else {
      CompareLeft(h, [], false, b, a);
      CompareSwapped(h, [], false, a, b);
      assert Swapped([]) == [];
      AlikeSwapped(h, a, b);
    }
  }
}
