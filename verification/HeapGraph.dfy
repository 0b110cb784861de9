/** Object graphs of reference-counted heaps: the slots an object owns, the references a set of objects
    contributes to every other object's count, and what can be reached along slots. */
module HeapGraph {
  type Id = nat

  /** What an owned slot can hold. `Null` is an unassigned slot; `Immortal` is an interned static, which has no
      header and is skipped by every visitor; `Ref` is a counted reference to a headered object. */
  datatype Slot = Null | Immortal | Ref(id: Id)

  type Graph = map<Id, seq<Slot>>

  /** How many of the slots of `s` hold a counted reference to `n`. */
  ghost function SlotCount(s: seq<Slot>, n: Id): nat {
    if s == [] then 0
    else SlotCount(s[..|s|-1], n) + OneSlot(s[|s|-1], n)
  }

  ghost function OneSlot(s: Slot, n: Id): nat {
    if s == Ref(n) then 1 else 0
  }

  lemma SlotCountAppend(s: seq<Slot>, x: Slot, n: Id)
    ensures SlotCount(s + [x], n) == SlotCount(s, n) + OneSlot(x, n)
  {
    assert (s + [x])[..|s|] == s;
  }

  lemma {:induction false} SlotCountConcat(s: seq<Slot>, t: seq<Slot>, n: Id)
    ensures SlotCount(s + t, n) == SlotCount(s, n) + SlotCount(t, n)
  {
    if t == [] {
      assert s + t == s;
    } else {
      var t' := t[..|t|-1];
      assert s + t == (s + t') + [t[|t|-1]];
      SlotCountConcat(s, t', n);
      SlotCountAppend(s + t', t[|t|-1], n);
    }
  }

  lemma SlotCountStep(s: seq<Slot>, i: nat, n: Id)
    requires i < |s|
    ensures SlotCount(s, n) == SlotCount(s[..i], n) + SlotCount(s[i..], n)
    ensures SlotCount(s[i..], n) == OneSlot(s[i], n) + SlotCount(s[i+1..], n)
    ensures SlotCount(s[..i+1], n) == SlotCount(s[..i], n) + OneSlot(s[i], n)
  {
    assert s == s[..i] + s[i..];
    SlotCountConcat(s[..i], s[i..], n);
    assert s[..i+1] == s[..i] + [s[i]];
    SlotCountAppend(s[..i], s[i], n);
    assert s == s[..i+1] + s[i+1..];
    SlotCountConcat(s[..i+1], s[i+1..], n);
  }

  /** Overwriting one slot trades exactly one reference for another. */
  lemma SlotCountUpdate(s: seq<Slot>, i: nat, x: Slot, n: Id)
    requires i < |s|
    ensures SlotCount(s[i := x], n) + OneSlot(s[i], n) == SlotCount(s, n) + OneSlot(x, n)
  {
    var s' := s[i := x];
    SlotCountStep(s, i, n);
    SlotCountStep(s', i, n);
    assert s'[..i] == s[..i] && s'[i+1..] == s[i+1..];
  }

  /** The references a run of slots holds, as a bag. */
  ghost function SlotBag(s: seq<Slot>): multiset<Id> {
    if s == [] then multiset{} else SlotBag(s[..|s|-1]) + OneBag(s[|s|-1])
  }

  ghost function OneBag(s: Slot): multiset<Id> {
    if s.Ref? then multiset{s.id} else multiset{}
  }

  lemma {:induction false} SlotBagCount(s: seq<Slot>, n: Id)
    ensures SlotBag(s)[n] == SlotCount(s, n)
  {
    if s != [] { SlotBagCount(s[..|s|-1], n); }
  }

  /** A reference is counted exactly when some slot holds it. */
  lemma {:induction false} SlotCountHas(s: seq<Slot>, n: Id)
    ensures SlotCount(s, n) > 0 <==> exists i :: 0 <= i < |s| && s[i] == Ref(n)
  {
    if s != [] {
      var t := s[..|s|-1];
      SlotCountHas(t, n);
      if i :| 0 <= i < |t| && t[i] == Ref(n) { assert s[i] == Ref(n); }
      if i :| 0 <= i < |s| && s[i] == Ref(n) { if i < |t| { assert t[i] == Ref(n); } }
    }
  }

  /** How many counted references to `n` the objects of `S` own between them. */
  ghost function InCount(g: Graph, S: set<Id>, n: Id): nat
    requires S <= g.Keys
  {
    if S == {} then 0
    else var x :| x in S; SlotCount(g[x], n) + InCount(g, S - {x}, n)
  }

  lemma {:induction false} InCountRemove(g: Graph, S: set<Id>, x: Id, n: Id)
    requires S <= g.Keys && x in S
    ensures InCount(g, S, n) == SlotCount(g[x], n) + InCount(g, S - {x}, n)
    decreases S
  {
    var y :| y in S && InCount(g, S, n) == SlotCount(g[y], n) + InCount(g, S - {y}, n);
    if y != x {
      InCountRemove(g, S - {y}, x, n);
      InCountRemove(g, S - {x}, y, n);
      assert S - {y} - {x} == S - {x} - {y};
    }
  }

  /** Splitting a set of sources splits the references they own. */
  lemma {:induction false} InCountUnion(g: Graph, S: set<Id>, T: set<Id>, n: Id)
    requires S <= g.Keys && T <= g.Keys && S !! T
    ensures InCount(g, S + T, n) == InCount(g, S, n) + InCount(g, T, n)
    decreases S
  {
    if S == {} {
      assert S + T == T;
    } else {
      var x :| x in S;
      InCountRemove(g, S, x, n);
      InCountRemove(g, S + T, x, n);
      assert (S + T) - {x} == (S - {x}) + T;
      InCountUnion(g, S - {x}, T, n);
    }
  }

  lemma InCountDiff(g: Graph, S: set<Id>, T: set<Id>, n: Id)
    requires S <= g.Keys && T <= S
    ensures InCount(g, S, n) == InCount(g, T, n) + InCount(g, S - T, n)
  {
    assert T + (S - T) == S;
    InCountUnion(g, T, S - T, n);
  }

  lemma {:induction false} InCountAgree(g: Graph, h: Graph, S: set<Id>, n: Id)
    requires S <= g.Keys && S <= h.Keys
    requires forall m :: m in S ==> g[m] == h[m]
    ensures InCount(g, S, n) == InCount(h, S, n)
    decreases S
  {
    if S != {} {
      var x :| x in S;
      InCountRemove(g, S, x, n);
      InCountRemove(h, S, x, n);
      InCountAgree(g, h, S - {x}, n);
    }
  }

  /** An object is referenced from `S` exactly when some slot of a member of `S` holds it. */
  lemma {:induction false} InCountHas(g: Graph, S: set<Id>, n: Id)
    requires S <= g.Keys
    ensures InCount(g, S, n) > 0 <==> exists m, i :: m in S && 0 <= i < |g[m]| && g[m][i] == Ref(n)
    decreases S
  {
    if S != {} {
      var x :| x in S;
      InCountRemove(g, S, x, n);
      InCountHas(g, S - {x}, n);
      SlotCountHas(g[x], n);
    }
  }

  /** `C` is closed under the slots of the objects of `act`: whatever such a member points at is in `C`. */
  ghost predicate Closed(g: Graph, act: set<Id>, C: set<Id>) {
    forall n, i {:trigger g[n][i]} ::
      n in C && n in act && n in g && 0 <= i < |g[n]| && g[n][i].Ref? ==> g[n][i].id in C
  }

  /** Reachability, as membership in every closed set around the sources. `ReachableIffPath` below says that this
      is the same as being the end of a path. */
  ghost predicate Reachable(g: Graph, act: set<Id>, src: set<Id>, n: Id) {
    forall C: set<Id> :: Closed(g, act, C) && src <= C ==> n in C
  }

  /** A path of slots from `p[0]` to the last element of `p`, leaving only objects of `act`. */
  ghost predicate Path(g: Graph, act: set<Id>, p: seq<Id>) {
    && p != []
    && forall k :: 0 <= k < |p| - 1 ==> p[k] in act && p[k] in g && Ref(p[k+1]) in g[p[k]]
  }

  ghost predicate PathTo(g: Graph, act: set<Id>, src: set<Id>, p: seq<Id>, n: Id) {
    Path(g, act, p) && p[0] in src && p[|p|-1] == n
  }

  lemma {:induction false} PathStaysInClosed(g: Graph, act: set<Id>, C: set<Id>, p: seq<Id>)
    requires Path(g, act, p) && Closed(g, act, C) && p[0] in C
    ensures p[|p|-1] in C
  {
    if |p| > 1 {
      var q := p[..|p|-1];
      PathStaysInClosed(g, act, C, q);
      var k := |p| - 2;
      var i :| 0 <= i < |g[p[k]]| && g[p[k]][i] == Ref(p[k+1]);
      assert g[p[k]][i].id in C;
    }
  }

  lemma PathExtend(g: Graph, act: set<Id>, src: set<Id>, p: seq<Id>, n: Id, m: Id)
    requires PathTo(g, act, src, p, n) && n in act && n in g && Ref(m) in g[n]
    ensures PathTo(g, act, src, p + [m], m)
  {
    var q := p + [m];
    forall k | 0 <= k < |q| - 1 ensures q[k] in act && q[k] in g && Ref(q[k+1]) in g[q[k]] {
      if k < |p| - 1 { assert q[k] == p[k] && q[k+1] == p[k+1]; }
    }
  }

  /** Membership in every closed superset is the same as being the end of a path from a source. */
  lemma ReachableIffPath(g: Graph, act: set<Id>, src: set<Id>, n: Id)
    requires act <= g.Keys && src <= act && Closed(g, act, act)
    ensures Reachable(g, act, src, n) <==> exists p :: PathTo(g, act, src, p, n)
  {
    if p :| PathTo(g, act, src, p, n) {
      forall C: set<Id> | Closed(g, act, C) && src <= C ensures n in C {
        PathStaysInClosed(g, act, C, p);
      }
    }
    if Reachable(g, act, src, n) {
      var C := set m | m in act && exists p :: PathTo(g, act, src, p, m);
      forall m | m in src ensures m in C {
        assert PathTo(g, act, src, [m], m);
      }
      forall m, i | m in C && m in act && m in g && 0 <= i < |g[m]| && g[m][i].Ref? ensures g[m][i].id in C {
        var p :| PathTo(g, act, src, p, m);
        PathExtend(g, act, src, p, m, g[m][i].id);
      }
      assert Closed(g, act, C);
      assert n in C;
    }
  }
}
