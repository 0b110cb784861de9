/** Deep equality over possibly cyclic values, as a function of the comparison's open pairs and one mode bit. */
module DeepEquality {
  type Ref = nat

  /** A container: `leaves` stands for its leaf fields, union tags and length, `kids` are its nested containers. */
  datatype Record = Record(leaves: int, kids: seq<Ref>)

  type Heap = map<Ref, Record>

  type Pair = (Ref, Ref)

  datatype Verdict = Walk | Equal | Unequal

  ghost predicate Sound(h: Heap) {
    forall n, i {:trigger h[n].kids[i]} :: n in h && 0 <= i < |h[n].kids| ==> h[n].kids[i] in h
  }

  /** `v` occurs in either column of the open pairs. */
  predicate Present(open: seq<Pair>, v: Ref) {
    exists i :: 0 <= i < |open| && (open[i].0 == v || open[i].1 == v)
  }

  /** The verdict for a pair, given the pairs being walked and whether some walk has reached the third level. */
  ghost function Rule(open: seq<Pair>, promoted: bool, a: Ref, b: Ref): Verdict {
    if open == [] then Walk
    else if |open| == 1 && !promoted then
      if a == open[0].0 then (if b == open[0].1 then Equal else Unequal)
      else if b == open[0].1 then Unequal
      else Walk
    else if Present(open, a) && Present(open, b) then Equal
    else if Present(open, a) || Present(open, b) then Unequal
    else Walk
  }

  ghost predicate Promotes(open: seq<Pair>, promoted: bool) {
    open != [] && (promoted || |open| >= 2)
  }

  /** Open pairs relate distinct values, and from the third on they are new. */
  ghost predicate Good(h: Heap, open: seq<Pair>) {
    && (forall i :: 0 <= i < |open| ==> open[i].0 in h && open[i].1 in h && open[i].0 != open[i].1)
    && (forall i, j :: 0 <= i < j < |open| && 2 <= j ==>
          open[i].0 != open[j].0 && open[i].0 != open[j].1 && open[i].1 != open[j].0 && open[i].1 != open[j].1)
  }

  ghost function Values(open: seq<Pair>): set<Ref> {
    if open == [] then {} else Values(open[..|open|-1]) + {open[|open|-1].0, open[|open|-1].1}
  }

  lemma {:induction false} ValuesHas(open: seq<Pair>, v: Ref)
    ensures v in Values(open) <==> exists i :: 0 <= i < |open| && (open[i].0 == v || open[i].1 == v)
    decreases |open|
  {
    if open != [] {
      var rest := open[..|open|-1];
      ValuesHas(rest, v);
      if i :| 0 <= i < |rest| && (rest[i].0 == v || rest[i].1 == v) { assert open[i] == rest[i]; }
      if i :| 0 <= i < |open| && (open[i].0 == v || open[i].1 == v) { if i < |rest| { assert rest[i] == open[i]; } }
    }
  }

  /** Nesting is bounded: every level from the third on takes two values of the heap for itself. */
  lemma NestingBound(h: Heap, open: seq<Pair>)
    requires Good(h, open)
    ensures 2 * |open| <= |h| + 2
  {
    ValuesCount(h, open);
    forall v | v in Values(open) ensures v in h.Keys { ValuesHas(open, v); }
    SubsetSize(Values(open), h.Keys);
  }

  lemma {:induction false} ValuesCount(h: Heap, open: seq<Pair>)
    requires Good(h, open)
    ensures 2 * |open| <= |Values(open)| + 2
    decreases |open|
  {
    if |open| > 0 {
      var n := |open| - 1;
      var rest := open[..n];
      var last := {open[n].0, open[n].1};
      ValuesCount(h, rest);
      if n < 2 {
        SubsetSize(last, Values(open));
      } else {
        forall v | v in last ensures v !in Values(rest) { ValuesHas(rest, v); }
        assert Values(open) == Values(rest) + last && Values(rest) !! last;
      }
    }
  }

  lemma {:induction false} SubsetSize(s: set<Ref>, t: set<Ref>)
    requires s <= t
    ensures |s| <= |t|
    decreases s
  {
    if s != {} {
      var x :| x in s;
      SubsetSize(s - {x}, t - {x});
    }
  }

  ghost function Room(h: Heap, open: seq<Pair>): nat
    requires Good(h, open)
  {
    NestingBound(h, open);
    |h| + 2 - 2 * |open|
  }

  lemma GoodMore(h: Heap, open: seq<Pair>, promoted: bool, a: Ref, b: Ref)
    requires Good(h, open) && a in h && b in h && a != b && Rule(open, promoted, a, b) == Walk
    ensures Good(h, open + [(a, b)])
  {
  }

  /** The comparison: identical references are equal; otherwise the rule decides or the containers are walked, with the
      pair open. Also returns whether the mode bit is set afterwards. */
  ghost function Compare(h: Heap, open: seq<Pair>, promoted: bool, a: Ref, b: Ref): (bool, bool)
    requires Sound(h) && Good(h, open) && a in h && b in h
    decreases Room(h, open), 1, 0
  {
    if a == b then (true, promoted)
    else
      var p := promoted || Promotes(open, promoted);
      match Rule(open, promoted, a, b)
      case Equal => (true, p)
      case Unequal => (false, p)
      case Walk =>
        GoodMore(h, open, promoted, a, b);
        if h[a].leaves != h[b].leaves || |h[a].kids| != |h[b].kids| then (false, p)
        else CompareKids(h, open + [(a, b)], p, h[a].kids, h[b].kids)
  }

  ghost function CompareKids(h: Heap, open: seq<Pair>, promoted: bool, ka: seq<Ref>, kb: seq<Ref>): (bool, bool)
    requires Sound(h) && Good(h, open) && |ka| == |kb|
    requires forall i :: 0 <= i < |ka| ==> ka[i] in h && kb[i] in h
    decreases Room(h, open), 2, |ka|
  {
    if ka == [] then (true, promoted)
    else
      var (r, p) := Compare(h, open, promoted, ka[0], kb[0]);
      if !r then (false, p) else CompareKids(h, open, p, ka[1..], kb[1..])
  }
}

/** The cycle memo of the assertion runtime: two remembered pairs, then a two-column stack. */
module DeepEqualMemo {
  import opened DeepEquality
  import opened DeepEqualMeaning

  class Memo {
    var stack: seq<Pair>
    var top: Pair
    var mid: Pair
    var deep: bool
    var setActive: bool
    var depth: nat
    /** The open pairs and the mode bit the fields stand for. */
    ghost var open: seq<Pair>
    ghost var promoted: bool

    ghost predicate Valid()
      reads this
    {
      && depth == |open|
      && (open == [] ==> stack == [] && !deep && !setActive)
      && (open != [] ==> top == open[0])
      && promoted == setActive
      && (setActive ==> stack == open)
      && (!setActive ==> stack == [] && |open| <= 2 && (deep <==> |open| == 2) && (deep ==> mid == open[1]))
    }

    constructor ()
      ensures Valid() && open == [] && !promoted
    {
      stack, top, mid, deep, setActive, depth := [], (0, 0), (0, 0), false, false, 0;
      open, promoted := [], false;
    }

    /** `scr_deq_present`: a flat scan of both columns. */
    method IsPresent(v: Ref) returns (r: bool)
      ensures r == Present(stack, v)
    {
      var i := 0;
      while i < |stack|
        invariant 0 <= i <= |stack|
        invariant forall k :: 0 <= k < i ==> stack[k].0 != v && stack[k].1 != v
      {
        if stack[i].0 == v || stack[i].1 == v { return true; }
        i := i + 1;
      }
      return false;
    }

    /** `scr_assert_deq_enter`: answers by the rule; a pair to be walked is opened. */
    method Enter(a: Ref, b: Ref) returns (v: Verdict)
      requires Valid()
      modifies this
      ensures Valid()
      ensures v == Rule(old(open), old(promoted), a, b)
      ensures old(open) == [] ==> v == Walk && !promoted
      ensures |old(open)| == 1 && !old(promoted) ==> (!promoted
        && (v == Equal <==> a == old(open)[0].0 && b == old(open)[0].1)
        && (v == Unequal <==> (a == old(open)[0].0) != (b == old(open)[0].1)))
      ensures |old(open)| >= 2 || old(promoted) ==> (promoted
        && (v == Equal <==> a in Values(old(open)) && b in Values(old(open)))
        && (v == Unequal <==> (a in Values(old(open))) != (b in Values(old(open)))))
      ensures open == if v == Walk then old(open) + [(a, b)] else old(open)
    {
      ValuesHas(open, a);
      ValuesHas(open, b);
      hide Values;
      if depth == 0 {
        top := (a, b);
        deep := false;
        setActive := false;
        depth := 1;
        open := [(a, b)];
        return Walk;
      }
      if !setActive {
        if !deep {
          if a == top.0 { return if b == top.1 then Equal else Unequal; }
          if b == top.1 { return Unequal; }
          mid := (a, b);
          deep := true;
          depth := depth + 1;
          open := open + [(a, b)];
          return Walk;
        }
        stack := stack + [top];
        stack := stack + [mid];
        setActive := true;
        promoted := true;
        assert open == [open[0], open[1]];
      }
      assert stack == open;
      hide Present;
      var aPresent := IsPresent(a);
      var bPresent := IsPresent(b);
      if aPresent && bPresent { return Equal; }
      if aPresent != bPresent { return Unequal; }
      stack := stack + [(a, b)];
      depth := depth + 1;
      open := open + [(a, b)];
      return Walk;
    }

    /** `scr_assert_deq_leave`: closes the innermost pair; closing the outermost one resets everything. */
    method Leave()
      requires Valid() && open != []
      modifies this
      ensures Valid()
      ensures open == old(open)[..|old(open)|-1]
      ensures promoted == (old(promoted) && |old(open)| > 1)
      ensures open == [] ==> stack == [] && !deep && !setActive && depth == 0
    {
      var d := depth;
      depth := d - 1;
      open := open[..|open|-1];
      if d == 1 {
        top := (0, 0);
        mid := (0, 0);
        deep := false;
        setActive := false;
        stack := [];
        promoted := false;
        return;
      }
      if d == 2 {
        deep := false;
        if setActive && |stack| > 0 { stack := stack[..|stack|-1]; }
        mid := (0, 0);
        return;
      }
      if |stack| > 0 { stack := stack[..|stack|-1]; }
    }

    /** The emitted comparison of two containers. It terminates on every finite heap, cyclic or not, computes
        `Compare`, and leaves the memo as it found it (fully reset after the outermost comparison). */
    method DeepEqual(h: Heap, a: Ref, b: Ref) returns (r: bool)
      requires Valid() && Sound(h) && Good(h, open) && a in h && b in h
      modifies this
      ensures Valid() && open == old(open)
      ensures r == Compare(h, old(open), old(promoted), a, b).0
      ensures promoted == (open != [] && Compare(h, old(open), old(promoted), a, b).1)
      ensures open == [] && (NoCycle(h, a) || NoCycle(h, b)) ==> (r <==> Alike(h, a, b))
      decreases Room(h, open), 1, 0
    {
      hide NoCycle, Alike;
      if open == [] && (NoCycle(h, a) || NoCycle(h, b)) { CompareIsEquality(h, a, b); }
      if a == b { return true; }
      ghost var open0, promoted0 := open, promoted;
      var v := Enter(a, b);
      if v == Equal { return true; }
      if v == Unequal { return false; }
      GoodMore(h, open0, promoted0, a, b);
      r := WalkKids(h, a, b);
      Leave();
      assert (open0 + [(a, b)])[..|open0|] == open0;
    }

    /** The emitted structural walk, first difference wins. */
    method WalkKids(h: Heap, a: Ref, b: Ref) returns (r: bool)
      requires Valid() && Sound(h) && Good(h, open) && open != [] && a in h && b in h
      modifies this
      ensures Valid() && open == old(open)
      ensures h[a].leaves != h[b].leaves || |h[a].kids| != |h[b].kids| ==> !r && promoted == old(promoted)
      ensures h[a].leaves == h[b].leaves && |h[a].kids| == |h[b].kids| ==>
        (r, promoted) == CompareKids(h, old(open), old(promoted), h[a].kids, h[b].kids)
      decreases Room(h, open), 3, 0
    {
      if h[a].leaves != h[b].leaves || |h[a].kids| != |h[b].kids| { return false; }
      var i := 0;
      ghost var open0 := open;
      assert h[a].kids[0..] == h[a].kids && h[b].kids[0..] == h[b].kids;
      while i < |h[a].kids|
        invariant 0 <= i <= |h[a].kids| && Valid() && open == open0
        invariant CompareKids(h, open0, promoted, h[a].kids[i..], h[b].kids[i..]) ==
                  CompareKids(h, open0, old(promoted), h[a].kids, h[b].kids)
      {
        assert h[a].kids[i..][1..] == h[a].kids[i+1..] && h[b].kids[i..][1..] == h[b].kids[i+1..];
        var eq := DeepEqual(h, h[a].kids[i], h[b].kids[i]);
        if !eq { return false; }
        i := i + 1;
      }
      return true;
    }
  }
}
