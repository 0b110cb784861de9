/** The comparison where both operands reach cycles: copies are found equal, and a difference can be missed only
    behind a value that occurred before; but alike values may be told apart, and different ones may not. */
module DeepEqualCycles {
  import opened DeepEquality
  import opened DeepEqualMeaning

  /** `f` copies part of the heap, shape and all; whatever the copy and the original share, it leaves as it is. */
  ghost predicate Copies(h: Heap, f: map<Ref, Ref>) {
    && (forall x :: x in f ==> x in h && f[x] in h && h[f[x]].leaves == h[x].leaves)
    && (forall x :: x in f && x in h && f[x] in h ==> CopiesKids(h, f, x))
    && (forall x, y :: x in f && y in f && f[x] == f[y] ==> x == y)
    && (forall x, y :: x in f && y in f && f[y] == x ==> x == y)
  }

  ghost predicate CopiesKids(h: Heap, f: map<Ref, Ref>, x: Ref)
    requires x in f && x in h && f[x] in h
  {
    && |h[f[x]].kids| == |h[x].kids|
    && forall i :: 0 <= i < |h[x].kids| ==> h[x].kids[i] in f && h[f[x]].kids[i] == f[h[x].kids[i]]
  }

  /** Every open pair is a value and its copy. */
  ghost predicate Matched(f: map<Ref, Ref>, open: seq<Pair>) {
    forall i :: 0 <= i < |open| ==> open[i].0 in f && open[i].1 == f[open[i].0] && open[i].0 != open[i].1
  }

  lemma RuleOnCopies(h: Heap, f: map<Ref, Ref>, open: seq<Pair>, promoted: bool, a: Ref)
    requires Copies(h, f) && Matched(f, open) && a in f && f[a] != a
    ensures Rule(open, promoted, a, f[a]) != Unequal
  {
    if i :| 0 <= i < |open| && (open[i].0 == a || open[i].1 == a) { assert open[i].0 == a && open[i].1 == f[a]; }
    if i :| 0 <= i < |open| && (open[i].0 == f[a] || open[i].1 == f[a]) {
      assert open[i].1 == f[a];
      assert open[i].0 == a;
    }
  }

  /** A value and its copy are equal, whatever cycles they contain. */
  lemma {:induction false} CopiesAreEqual(h: Heap, f: map<Ref, Ref>, open: seq<Pair>, promoted: bool, a: Ref)
    requires Sound(h) && Copies(h, f) && Good(h, open) && Matched(f, open) && a in f
    ensures f[a] in h && Compare(h, open, promoted, a, f[a]).0
    decreases Room(h, open), 1, 0
  {
    if f[a] != a {
      RuleOnCopies(h, f, open, promoted, a);
      if Rule(open, promoted, a, f[a]) == Walk {
        GoodMore(h, open, promoted, a, f[a]);
        assert CopiesKids(h, f, a);
        CopiedKids(h, f, open + [(a, f[a])], promoted || Promotes(open, promoted), h[a].kids, h[f[a]].kids);
      }
    }
  }

  lemma {:induction false} CopiedKids(h: Heap, f: map<Ref, Ref>, open: seq<Pair>, promoted: bool, ka: seq<Ref>,
                                      kb: seq<Ref>)
    requires Sound(h) && Copies(h, f) && Good(h, open) && Matched(f, open) && |ka| == |kb|
    requires forall i :: 0 <= i < |ka| ==> ka[i] in h && kb[i] in h && ka[i] in f && kb[i] == f[ka[i]]
    ensures CompareKids(h, open, promoted, ka, kb).0
    decreases Room(h, open), 2, |ka|
  {
    if ka != [] {
      CopiesAreEqual(h, f, open, promoted, ka[0]);
      CopiedKids(h, f, open, Compare(h, open, promoted, ka[0], kb[0]).1, ka[1..], kb[1..]);
    }
  }

  // What an answer of equal means in any case ---------------------------------------------------------------

  /** On the way down this path no value of either side occurred before, until the two sides meet. */
  ghost predicate Unrepeated(h: Heap, open: seq<Pair>, x: Ref, y: Ref, path: seq<nat>)
    requires Sound(h) && x in h && y in h
    decreases |path|
  {
    x == y || (!Present(open, x) && !Present(open, y)
      && (path != [] && path[0] < |h[x].kids| && path[0] < |h[y].kids| ==>
            Unrepeated(h, open + [(x, y)], h[x].kids[path[0]], h[y].kids[path[0]], path[1..])))
  }

  /** Values found equal show alike along every such path: a difference is missed only behind a repeated value. */
  lemma {:induction false} EqualUntilRepeated(h: Heap, open: seq<Pair>, promoted: bool, x: Ref, y: Ref, path: seq<nat>)
    requires Sound(h) && Good(h, open) && x in h && y in h
    requires Compare(h, open, promoted, x, y).0 && Unrepeated(h, open, x, y, path)
    ensures Seen(h, x, path) == Seen(h, y, path)
    decreases |path|
  {
    if x != y {
      FreshIsWalked(open, promoted, x, y);
      GoodMore(h, open, promoted, x, y);
      if path != [] && path[0] < |h[x].kids| {
        var p := KidCompared(h, open + [(x, y)], promoted || Promotes(open, promoted), h[x].kids, h[y].kids, path[0]);
        EqualUntilRepeated(h, open + [(x, y)], p, h[x].kids[path[0]], h[y].kids[path[0]], path[1..]);
      }
    }
  }

  lemma FreshIsWalked(open: seq<Pair>, promoted: bool, x: Ref, y: Ref)
    requires !Present(open, x) && !Present(open, y)
    ensures Rule(open, promoted, x, y) == Walk
  {
  }

  /** Where all children were found equal, so was each of them. */
  lemma {:induction false} KidCompared(h: Heap, open: seq<Pair>, promoted: bool, ka: seq<Ref>, kb: seq<Ref>, i: nat)
    returns (p: bool)
    requires Sound(h) && Good(h, open) && |ka| == |kb| && i < |ka|
    requires forall k :: 0 <= k < |ka| ==> ka[k] in h && kb[k] in h
    requires CompareKids(h, open, promoted, ka, kb).0
    ensures Compare(h, open, p, ka[i], kb[i]).0
    decreases |ka|
  {
    if i == 0 {
      p := promoted;
    } else {
      p := KidCompared(h, open, Compare(h, open, promoted, ka[0], kb[0]).1, ka[1..], kb[1..], i - 1);
    }
  }

  // The second level ----------------------------------------------------------------------------------------

  /** Under one open pair only that pair counts, column by column: another pair is walked even if its operands occurred,
      in the other column or crosswise, and it is equal exactly when what it contains is. */
  lemma SecondLevelWalks(h: Heap, x: Ref, y: Ref, a: Ref, b: Ref)
    requires Sound(h) && x in h && y in h && x != y && a in h && b in h && a != b && a != x && b != y
    ensures Good(h, [(x, y)]) && Good(h, [(x, y), (a, b)])
    ensures Compare(h, [(x, y)], false, a, b).0 <==>
      h[a].leaves == h[b].leaves && |h[a].kids| == |h[b].kids|
      && CompareKids(h, [(x, y), (a, b)], false, h[a].kids, h[b].kids).0
  {
    assert [(x, y)] + [(a, b)] == [(x, y), (a, b)];
  }

  /** A ring of three alike nodes. */
  function Ring(): Heap {
    map[0 := Record(7, [1]), 1 := Record(7, [2]), 2 := Record(7, [0])]
  }

  /** Neighbours on the ring are found equal, though at the second level one operand occurred in the other column; a
      set of all values seen so far, from the start, would tell them apart. */
  lemma RingIsEqual()
    ensures Sound(Ring()) && Compare(Ring(), [], false, 0, 1).0 && Alike(Ring(), 0, 1)
  {
    var h := Ring();
    assert [] + [(0, 1)] == [(0, 1)];
    RingSecond();
    assert CompareKids(h, [(0, 1)], false, [1], [2]).0;
    forall p: seq<nat> ensures Seen(h, 0, p) == Seen(h, 1, p) { RingShows(p, 0, 1); }
  }

  lemma RingSecond()
    ensures Good(Ring(), [(0, 1)]) && Compare(Ring(), [(0, 1)], false, 1, 2).0
  {
    var h, open := Ring(), [(0, 1), (1, 2)];
    SecondLevelWalks(h, 0, 1, 1, 2);
    assert Compare(h, open, false, 2, 0).0 by {
      assert open[1].1 == 2 && open[0].0 == 0;
    }
    assert CompareKids(h, open, false, [2], [0]).0;
  }

  lemma {:induction false} RingShows(p: seq<nat>, a: Ref, b: Ref)
    requires a in Ring() && b in Ring()
    ensures Seen(Ring(), a, p) == Seen(Ring(), b, p)
    decreases |p|
  {
    if p != [] && p[0] == 0 { RingShows(p[1..], Ring()[a].kids[0], Ring()[b].kids[0]); }
  }

  // Wrong answers on cyclic values --------------------------------------------------------------------------

  function Tangle(): Heap {
    map[0 := Record(0, [1]), 1 := Record(1, [2]), 2 := Record(2, [1]),
        3 := Record(0, [4]), 4 := Record(1, [5]), 5 := Record(2, [3])]
  }

  /** Different values found equal: once both operands occur somewhere among the open pairs the memo answers equal. */
  lemma CyclicValuesMayDiffer()
    ensures Sound(Tangle()) && Compare(Tangle(), [], false, 0, 3).0 && !Alike(Tangle(), 0, 3)
  {
    TangleSecond();
    assert [] + [(0, 3)] == [(0, 3)];
    var h := Tangle();
    assert CompareKids(h, [(0, 3)], false, [1], [4]) == (true, true);
    TanglePaths();
  }

  lemma TanglePaths()
    ensures Seen(Tangle(), 0, [0, 0, 0]) != Seen(Tangle(), 3, [0, 0, 0])
  {
    var p3, p2, p1: seq<nat> := [0, 0, 0], [0, 0], [0];
    assert p3[1..] == p2 && p2[1..] == p1 && p1[1..] == [];
    assert Follow(Tangle(), 2, p1) == At(1) && Follow(Tangle(), 5, p1) == At(3);
    assert Follow(Tangle(), 1, p2) == At(1) && Follow(Tangle(), 4, p2) == At(3);
  }

  lemma TangleSecond()
    ensures Good(Tangle(), [(0, 3)]) && Compare(Tangle(), [(0, 3)], false, 1, 4) == (true, true)
  {
    TangleThird();
    assert [(0, 3)] + [(1, 4)] == [(0, 3), (1, 4)];
    assert CompareKids(Tangle(), [(0, 3), (1, 4)], false, [2], [5]) == (true, true);
  }

  lemma TangleThird()
    ensures Good(Tangle(), [(0, 3), (1, 4)]) && Compare(Tangle(), [(0, 3), (1, 4)], false, 2, 5) == (true, true)
  {
    assert [(0, 3), (1, 4)] + [(2, 5)] == [(0, 3), (1, 4), (2, 5)];
    TangleCrossed();
    hide CompareKids;
  }

  /** The set rule takes values that occurred crosswise for equal. */
  lemma TangleCrossed()
    ensures Good(Tangle(), [(0, 3), (1, 4), (2, 5)])
    ensures CompareKids(Tangle(), [(0, 3), (1, 4), (2, 5)], true, [1], [3]) == (true, true)
  {
    var open := [(0, 3), (1, 4), (2, 5)];
    assert open[1].0 == 1 && open[0].1 == 3;
    assert Rule(open, true, 1, 3) == Equal;
    hide Rule;
  }

  /** A loop of one and a loop of two. */
  function Loops(): Heap {
    map[0 := Record(7, [0]), 1 := Record(7, [2]), 2 := Record(7, [1])]
  }

  /** Alike values found different: their cycles have different periods. */
  lemma AlikeValuesMayBeUnequal()
    ensures Sound(Loops()) && !Compare(Loops(), [], false, 0, 1).0 && Alike(Loops(), 0, 1)
  {
    var h := Loops();
    assert [] + [(0, 1)] == [(0, 1)];
    assert Rule([(0, 1)], false, 0, 2) == Unequal;
    assert !CompareKids(h, [(0, 1)], false, [0], [2]).0;
    forall p: seq<nat> ensures Seen(h, 0, p) == Seen(h, 1, p) { LoopsShow(p, 0, 1); }
  }

  lemma {:induction false} LoopsShow(p: seq<nat>, a: Ref, b: Ref)
    requires a in Loops() && b in Loops()
    ensures Seen(Loops(), a, p) == Seen(Loops(), b, p)
    decreases |p|
  {
    if p != [] && p[0] == 0 { LoopsShow(p[1..], Loops()[a].kids[0], Loops()[b].kids[0]); }
  }

  /** The comparison answers rightly for this pair. */
  ghost predicate Right(h: Heap, a: Ref, b: Ref)
    requires Sound(h) && a in h && b in h
  {
    Compare(h, [], false, a, b).0 <==> Alike(h, a, b)
  }

  /** For cyclic operands no condition on one operand and one on the other, joined by "and" or by "or", says when the
      answer is right: in `Tangle` it is right for 0 with itself and for 3 with itself, and wrong for 0 with 3, either
      way round. */
  lemma NoGuardByOperand(p: Ref -> bool, q: Ref -> bool)
    ensures Sound(Tangle())
    ensures !(forall a, b :: a in Tangle() && b in Tangle() ==> (Right(Tangle(), a, b) <==> p(a) && q(b)))
    ensures !(forall a, b :: a in Tangle() && b in Tangle() ==> (Right(Tangle(), a, b) <==> p(a) || q(b)))
  {
    var h := Tangle();
    CyclicValuesMayDiffer();
    CompareSwapped(h, [], false, 0, 3);
    assert DeepEqualMeaning.Swapped([]) == [];
    AlikeSwapped(h, 0, 3);
    assert Right(h, 0, 0) && Right(h, 3, 3) && !Right(h, 0, 3) && !Right(h, 3, 0);
  }

  /** A condition on what the operands look like. */
  ghost predicate ByLooks(h: Heap, g: (Ref, Ref) -> bool)
    requires Sound(h)
  {
    forall a, b, c, d :: a in h && b in h && c in h && d in h && Alike(h, a, c) && Alike(h, b, d) ==> g(a, b) == g(c, d)
  }

  /** Nor does any condition on what the operands look like: alike operands can be arranged so that the answer is right,
      and so that it is wrong. */
  lemma NoGuardByLooks(g: (Ref, Ref) -> bool)
    ensures Sound(Loops())
    ensures ByLooks(Loops(), g) ==>
      exists a, b :: a in Loops() && b in Loops() && !(Right(Loops(), a, b) <==> g(a, b))
  {
    AlikeValuesMayBeUnequal();
    assert Right(Loops(), 0, 0) && !Right(Loops(), 0, 1);
    assert Alike(Loops(), 0, 0);
  }
}
