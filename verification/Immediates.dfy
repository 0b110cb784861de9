/** The immediate queue: append-only slots with a head cursor, cleared in place. */
module Immediates {
  datatype Immediate = Immediate(id: nat, cb: int, live: bool, reffed: bool)

  function LiveCount(q: seq<Immediate>): nat {
    if q == [] then 0 else LiveCount(q[..|q| - 1]) + if q[|q| - 1].live then 1 else 0
  }

  function ReffedCount(q: seq<Immediate>): nat {
    if q == [] then 0 else ReffedCount(q[..|q| - 1]) + if q[|q| - 1].reffed then 1 else 0
  }

  lemma {:induction false} CountUpdate(q: seq<Immediate>, i: nat, m: Immediate)
    requires i < |q|
    ensures LiveCount(q[i := m]) == LiveCount(q) - (if q[i].live then 1 else 0) + (if m.live then 1 else 0)
    ensures ReffedCount(q[i := m]) == ReffedCount(q) - (if q[i].reffed then 1 else 0) + (if m.reffed then 1 else 0)
  {
    if i == |q| - 1 {
      assert q[i := m][..|q| - 1] == q[..|q| - 1];
    } else {
      assert q[i := m][..|q| - 1] == q[..|q| - 1][i := m];
      CountUpdate(q[..|q| - 1], i, m);
    }
  }

  lemma CountPush(q: seq<Immediate>, m: Immediate)
    ensures LiveCount(q + [m]) == LiveCount(q) + (if m.live then 1 else 0)
    ensures ReffedCount(q + [m]) == ReffedCount(q) + (if m.reffed then 1 else 0)
  {
    assert (q + [m])[..|q|] == q;
  }

  lemma {:induction false} CountNone(q: seq<Immediate>)
    requires forall i :: 0 <= i < |q| ==> !q[i].live && !q[i].reffed
    ensures LiveCount(q) == 0 && ReffedCount(q) == 0
  {
    if q != [] { CountNone(q[..|q| - 1]); }
  }

  lemma {:induction false} NoneReffed(q: seq<Immediate>)
    ensures ReffedCount(q) == 0 <==> forall i :: 0 <= i < |q| ==> !q[i].reffed
  {
    if q != [] {
      NoneReffed(q[..|q| - 1]);
      assert forall i :: 0 <= i < |q| ==> i == |q| - 1 || q[..|q| - 1][i] == q[i];
    }
  }

  /** The counters are true, slots behind the cursor are spent, and handles increase. */
  ghost predicate QueueOk(q: seq<Immediate>, head: nat, last: nat, pending: nat, reffed: nat) {
    && head <= |q| && (forall i :: 0 <= i < head ==> !q[i].live)
    && (forall i :: 0 <= i < |q| && q[i].reffed ==> q[i].live)
    && (forall i, j :: 0 <= i < j < |q| ==> q[i].id < q[j].id) && (forall i :: 0 <= i < |q| ==> 1 <= q[i].id <= last)
    && pending == LiveCount(q) && reffed == ReffedCount(q)
  }

  /** The handles of the live slots, in queue order. */
  ghost function LiveIds(q: seq<Immediate>): seq<nat> {
    if q == [] then [] else LiveIds(q[..|q| - 1]) + if q[|q| - 1].live then [q[|q| - 1].id] else []
  }

  ghost function Without(s: seq<nat>, x: nat): seq<nat> {
    if s == [] then [] else Without(s[..|s| - 1], x) + if s[|s| - 1] == x then [] else [s[|s| - 1]]
  }

  lemma {:induction false} WithoutAbsent(s: seq<nat>, x: nat)
    requires x !in s
    ensures Without(s, x) == s
  {
    if s != [] { WithoutAbsent(s[..|s| - 1], x); }
  }

  lemma {:induction false} WithoutConcat(s: seq<nat>, t: seq<nat>, x: nat)
    ensures Without(s + t, x) == Without(s, x) + Without(t, x)
  {
    if t == [] {
      assert s + t == s;
    } else {
      assert (s + t)[..|s + t| - 1] == s + t[..|t| - 1];
      WithoutConcat(s, t[..|t| - 1], x);
    }
  }

  lemma {:induction false} LiveConcat(a: seq<Immediate>, b: seq<Immediate>)
    ensures LiveIds(a + b) == LiveIds(a) + LiveIds(b)
  {
    if b == [] {
      assert a + b == a;
    } else {
      assert (a + b)[..|a + b| - 1] == a + b[..|b| - 1];
      LiveConcat(a, b[..|b| - 1]);
    }
  }

  lemma {:induction false} LiveHandle(q: seq<Immediate>, i: nat)
    requires i < |q| && q[i].live
    ensures q[i].id in LiveIds(q)
  {
    if i < |q| - 1 { LiveHandle(q[..|q| - 1], i); }
  }

  lemma {:induction false} NoHandle(q: seq<Immediate>, id: nat)
    requires forall i :: 0 <= i < |q| ==> q[i].id != id
    ensures id !in LiveIds(q)
  {
    if q != [] { NoHandle(q[..|q| - 1], id); }
  }

  lemma {:induction false} NoneLive(q: seq<Immediate>)
    requires forall i :: 0 <= i < |q| ==> !q[i].live
    ensures LiveIds(q) == []
  {
    if q != [] { NoneLive(q[..|q| - 1]); }
  }

  /** Something is queued exactly when the counter says so. */
  lemma SomeLive(q: seq<Immediate>, head: nat, last: nat, pending: nat, reffed: nat)
    requires QueueOk(q, head, last, pending, reffed)
    ensures pending > 0 <==> LiveIds(q[head..]) != []
  {
    assert q == q[..head] + q[head..];
    NoneLive(q[..head]);
    LiveConcat(q[..head], q[head..]);
    LiveLength(q);
  }

  lemma {:induction false} LiveLength(q: seq<Immediate>)
    ensures |LiveIds(q)| == LiveCount(q)
  {
    if q != [] { LiveLength(q[..|q| - 1]); }
  }

  /** Handles are those of distinct slots. */
  ghost predicate DistinctIds(q: seq<Immediate>) {
    forall i, j :: 0 <= i < j < |q| ==> q[i].id != q[j].id
  }

  ghost function LiveId(m: Immediate): seq<nat> {
    if m.live then [m.id] else []
  }

  lemma LiveParts(a: seq<Immediate>, m: Immediate, b: seq<Immediate>)
    ensures LiveIds(a + [m] + b) == LiveIds(a) + LiveId(m) + LiveIds(b)
  {
    LiveConcat(a + [m], b);
    assert (a + [m])[..|a|] == a;
  }

  lemma LiveCleared(q: seq<Immediate>, i: nat)
    requires i < |q| && DistinctIds(q)
    ensures LiveIds(q[i := q[i].(live := false, reffed := false)]) == Without(LiveIds(q), q[i].id)
  {
    var a, m, b := q[..i], q[i], q[i + 1..];
    assert q == a + [m] + b;
    assert q[i := m.(live := false, reffed := false)] == a + [m.(live := false, reffed := false)] + b;
    LiveParts(a, m, b);
    LiveParts(a, m.(live := false, reffed := false), b);
    NoHandle(a, m.id);
    NoHandle(b, m.id);
    assert Without(LiveId(m), m.id) == [] by { assert [m.id][..0] == []; }
    hide LiveIds, Without, DistinctIds;
    WithoutAbsent(LiveIds(a), m.id);
    WithoutAbsent(LiveIds(b), m.id);
    WithoutConcat(LiveIds(a) + LiveId(m), LiveIds(b), m.id);
    WithoutConcat(LiveIds(a), LiveId(m), m.id);
  }

  lemma {:induction false} LiveReffed(q: seq<Immediate>, i: nat, on: bool)
    requires i < |q|
    ensures LiveIds(q[i := q[i].(reffed := on)]) == LiveIds(q)
  {
    if i == |q| - 1 {
      assert q[i := q[i].(reffed := on)][..|q| - 1] == q[..|q| - 1];
    } else {
      assert q[i := q[i].(reffed := on)][..|q| - 1] == q[..|q| - 1][i := q[i].(reffed := on)];
      LiveReffed(q[..|q| - 1], i, on);
    }
  }

  /** The array, its cursor and the end of the check phase under way stand for two lists of handles: those the phase
      has still to run, and those set for the next one. */
  ghost predicate Stands(checking: bool, end: nat, q: seq<Immediate>, head: nat, due: seq<nat>, later: seq<nat>) {
    && head <= |q|
    && if checking then head <= end <= |q| && due == LiveIds(q[head..end]) && later == LiveIds(q[end..])
       else due == [] && later == LiveIds(q[head..])
  }

  /** A check phase takes over the whole queue. */
  lemma CheckBegins(end: nat, q: seq<Immediate>, head: nat, due: seq<nat>, later: seq<nat>)
    requires Stands(false, end, q, head, due, later)
    ensures Stands(true, |q|, q, head, later, [])
  {
    assert q[head..|q|] == q[head..];
  }

  /** At the end of the phase nothing is due; a queue fully drained starts over. */
  lemma CheckEnds(end: nat, q: seq<Immediate>, head: nat, due: seq<nat>, later: seq<nat>)
    requires Stands(true, end, q, head, due, later) && head >= end
    ensures due == [] && Stands(false, end, q, head, [], later)
    ensures head == |q| ==> Stands(false, end, [], 0, [], later)
  {
  }

  /** The cursor passes a slot: a live one is the first due, a cleared one is none of them. */
  lemma CheckAdvances(end: nat, q: seq<Immediate>, head: nat, due: seq<nat>, later: seq<nat>)
    requires Stands(true, end, q, head, due, later) && head < end
    ensures q[head].live ==> due != [] && due[0] == q[head].id
    ensures Stands(true, end, q[head := q[head].(live := false, reffed := false)], head + 1,
                   if q[head].live then due[1..] else due, later)
  {
    assert q[head..end] == [q[head]] + q[head + 1..end];
    LiveConcat([q[head]], q[head + 1..end]);
    assert [q[head]][..0] == [];
    assert LiveIds([q[head]]) == if q[head].live then [q[head].id] else [];
    assert q[head := q[head].(live := false, reffed := false)][head + 1..end] == q[head + 1..end];
    assert q[head := q[head].(live := false, reffed := false)][end..] == q[end..];
  }

  lemma CheckPush(checking: bool, end: nat, q: seq<Immediate>, head: nat, due: seq<nat>, later: seq<nat>, m: Immediate)
    requires Stands(checking, end, q, head, due, later) && m.live
    ensures Stands(checking, end, q + [m], head, due, later + [m.id])
  {
    var from := if checking then end else head;
    assert (q + [m])[from..][..|q| - from] == q[from..];
    if checking { assert (q + [m])[head..end] == q[head..end]; }
  }

  /** Clearing a live slot takes its handle off both lists, wherever the cursor is. */
  lemma CheckCleared(checking: bool, end: nat, q: seq<Immediate>, head: nat, due: seq<nat>, later: seq<nat>, i: nat)
    requires Stands(checking, end, q, head, due, later) && head <= i < |q| && q[i].live && DistinctIds(q)
    ensures q[i].id in due || q[i].id in later
    ensures Stands(checking, end, q[i := q[i].(live := false, reffed := false)], head, Without(due, q[i].id),
                   Without(later, q[i].id))
  {
    if checking {
      PartCleared(q, head, end, i);
      PartCleared(q, end, |q|, i);
      assert q[end..|q|] == q[end..];
      if i < end { LiveHandle(q[head..end], i - head); } else { LiveHandle(q[end..], i - end); }
    } else {
      PartCleared(q, head, |q|, i);
      assert q[head..|q|] == q[head..];
      LiveHandle(q[head..], i - head);
    }
  }

  lemma PartCleared(q: seq<Immediate>, from: nat, to: nat, i: nat)
    requires from <= to <= |q| && i < |q| && DistinctIds(q)
    ensures LiveIds(q[i := q[i].(live := false, reffed := false)][from..to]) == Without(LiveIds(q[from..to]), q[i].id)
  {
    var part, m := q[from..to], q[i].(live := false, reffed := false);
    if from <= i < to {
      assert q[i := m][from..to] == part[i - from := m];
      LiveCleared(part, i - from);
    } else {
      assert q[i := m][from..to] == part;
      NoHandle(part, q[i].id);
      WithoutAbsent(LiveIds(part), q[i].id);
    }
  }

  lemma CheckReffed(checking: bool, end: nat, q: seq<Immediate>, head: nat, due: seq<nat>, later: seq<nat>, i: nat,
                    on: bool)
    requires Stands(checking, end, q, head, due, later) && i < |q|
    ensures Stands(checking, end, q[i := q[i].(reffed := on)], head, due, later)
  {
    if checking {
      PartReffed(q, head, end, i, on);
      PartReffed(q, end, |q|, i, on);
    } else {
      PartReffed(q, head, |q|, i, on);
    }
  }

  lemma PartReffed(q: seq<Immediate>, from: nat, to: nat, i: nat, on: bool)
    requires from <= to <= |q| && i < |q|
    ensures LiveIds(q[i := q[i].(reffed := on)][from..to]) == LiveIds(q[from..to])
    ensures to == |q| ==> q[from..to] == q[from..]
  {
    var part, m := q[from..to], q[i].(reffed := on);
    if from <= i < to {
      assert q[i := m][from..to] == part[i - from := m];
      LiveReffed(part, i - from, on);
    } else {
      assert q[i := m][from..to] == part;
    }
  }

  lemma Spent(q: seq<Immediate>)
    requires forall i :: 0 <= i < |q| ==> !q[i].live
    requires forall i :: 0 <= i < |q| && q[i].reffed ==> q[i].live
    ensures LiveCount(q) == LiveCount([]) && ReffedCount(q) == ReffedCount([])
  {
    CountNone(q);
  }

  lemma QueuePush(q: seq<Immediate>, head: nat, last: nat, pending: nat, reffed: nat, cb: int)
    requires QueueOk(q, head, last, pending, reffed)
    ensures QueueOk(q + [Immediate(last + 1, cb, true, true)], head, last + 1, pending + 1, reffed + 1)
  {
    CountPush(q, Immediate(last + 1, cb, true, true));
  }

  /** The flags of a live slot change, and the counters with them. */
  lemma QueueFlag(q: seq<Immediate>, head: nat, last: nat, pending: nat, reffed: nat, i: nat, live: bool, on: bool)
    requires QueueOk(q, head, last, pending, reffed) && head <= i < |q| && q[i].live && (on ==> live)
    ensures pending > 0 && (q[i].reffed ==> reffed > 0)
    ensures QueueOk(q[i := q[i].(live := live, reffed := on)], head, last, pending - if live then 0 else 1,
                    reffed - (if q[i].reffed then 1 else 0) + (if on then 1 else 0))
  {
    CountUpdate(q, i, q[i].(live := live, reffed := on));
    Positive(q, i);
  }

  lemma {:induction false} Positive(q: seq<Immediate>, i: nat)
    requires i < |q|
    ensures q[i].live ==> LiveCount(q) > 0
    ensures q[i].reffed ==> ReffedCount(q) > 0
  {
    if i < |q| - 1 { Positive(q[..|q| - 1], i); }
  }
}
