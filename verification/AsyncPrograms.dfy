/** Programs over AsyncLocalStorage: nested `run` and `exit`, `enterWith`, `disable` and spawning, on every owner
    at once, interleaved anyhow. */
module ContextPrograms {
  import opened ContextState

  /** What code does to its context: `run` or `exit` around a callback's own actions, `enterWith` or `disable`, and
      starting an async body. */
  datatype Action =
    | RunIn(id: nat, v: Option<int>, body: seq<Action>)
    | Change(id: nat, v: Option<int>)
    | Start(f: nat)

  /** The steps of some code, callbacks included. */
  function Flat(prog: seq<Action>): seq<Step>
    decreases prog
  {
    if prog == [] then [] else FlatOne(prog[0]) + Flat(prog[1..])
  }

  function FlatOne(a: Action): seq<Step>
    decreases a
  {
    match a
    case RunIn(id, v, body) => [Begin(id, v)] + Flat(body) + [End]
    case Change(id, v) => [EnterWith(id, v)]
    case Start(f) => [Spawn(f)]
  }

  /** Steps code takes itself; parking, resuming and disposal are the scheduler's. */
  predicate Own(a: Step) {
    a.Begin? || a.End? || a.EnterWith? || a.Spawn?
  }

  /** The steps of a run that `o` takes itself, in order. */
  ghost function StepsOf(s: State, steps: seq<Step>, t: State, o: Owner): seq<Step>
    requires Runs(s, steps, t)
    decreases |steps|
  {
    if steps == [] then []
    else
      var rest := StepsOf(Applied(s, steps[0]), steps[1..], t, o);
      if s.current == o && Own(steps[0]) then [steps[0]] + rest else rest
  }

  /** With `k` callbacks open, these steps never close more than they opened. */
  predicate Nested(w: seq<Step>, k: nat) {
    w == []
    || (if w[0].Begin? then Nested(w[1..], k + 1)
        else if w[0].End? then k > 0 && Nested(w[1..], k - 1)
        else Nested(w[1..], k))
  }

  /** How many are open afterwards. */
  function Open(w: seq<Step>, k: nat): nat
    requires Nested(w, k)
  {
    if w == [] then k
    else if w[0].Begin? then Open(w[1..], k + 1)
    else if w[0].End? then Open(w[1..], k - 1)
    else Open(w[1..], k)
  }

  /** Code closes what it opens. */
  lemma {:induction false} FlatIsNested(prog: seq<Action>, rest: seq<Step>, k: nat)
    ensures Nested(Flat(prog) + rest, k) <==> Nested(rest, k)
    ensures Nested(rest, k) ==> Open(Flat(prog) + rest, k) == Open(rest, k)
    decreases prog
  {
    if prog == [] {
      assert Flat(prog) + rest == rest;
    } else {
      var tail := Flat(prog[1..]) + rest;
      assert Flat(prog) + rest == FlatOne(prog[0]) + tail;
      FlatIsNested(prog[1..], rest, k);
      OneIsNested(prog[0], tail, k);
    }
  }

  lemma {:induction false} OneIsNested(a: Action, rest: seq<Step>, k: nat)
    ensures Nested(FlatOne(a) + rest, k) <==> Nested(rest, k)
    ensures Nested(rest, k) ==> Open(FlatOne(a) + rest, k) == Open(rest, k)
    decreases a
  {
    var w := FlatOne(a) + rest;
    match a
    case RunIn(id, v, body) =>
      assert w[0] == Begin(id, v) && w[1..] == Flat(body) + ([End] + rest);
      FlatIsNested(body, [End] + rest, k + 1);
      assert ([End] + rest)[1..] == rest;
    case Change(id, v) => assert w[1..] == rest;
    case Start(f) => assert w[1..] == rest;
  }

  /** How deep `o` is follows its own steps, whatever the others do. */
  lemma {:induction false} DepthFollows(s: State, steps: seq<Step>, t: State, o: Owner, d: nat, k: nat)
    requires Ok(s) && Runs(s, steps, t) && d > 0 && o in s.frames && |s.frames[o]| == d + k
    requires Nested(StepsOf(s, steps, t, o), k)
    ensures Deeper(s, steps, o, d) && o in t.frames && |t.frames[o]| == d + Open(StepsOf(s, steps, t, o), k)
    decreases |steps|
  {
    if steps != [] {
      var a := steps[0];
      var w := StepsOf(s, steps, t, o);
      StepOk(s, a);
      StepDepth(s, a, o);
      if s.current == o && Own(a) {
        assert w[1..] == StepsOf(Applied(s, a), steps[1..], t, o);
        DepthFollows(Applied(s, a), steps[1..], t, o, d, if a.Begin? then k + 1 else if a.End? then k - 1 else k);
      } else {
        DepthFollows(Applied(s, a), steps[1..], t, o, d, k);
      }
    }
  }

  lemma StepDepth(s: State, a: Step, o: Owner)
    requires Ok(s) && Enabled(s, a) && o in s.frames && s.frames[o] != []
    ensures o in Applied(s, a).frames
    ensures |Applied(s, a).frames[o]|
         == |s.frames[o]| + if s.current == o && a.Begin? then 1 else if s.current == o && a.End? then -1 else 0
  {
  }

  /** `run` and `exit` restore: if what the owner does between entering and leaving is what the callback's code
      says, with anything at all done by others meanwhile, the active context afterwards is the one before, entries and
      all. */
  lemma ProgramRestores(s: State, id: nat, v: Option<int>, body: seq<Action>, steps: seq<Step>, t: State)
    requires Ok(s) && Runs(Begun(s, id, v), steps, t) && StepsOf(Begun(s, id, v), steps, t, s.current) == Flat(body)
    requires t.current == s.current
    ensures s.current in t.slot && s.current in t.frames && t.frames[s.current] != []
    ensures Ok(Ended(t)) && Ended(t).slot[s.current] == s.slot[s.current]
    ensures Ended(t).frames[s.current] == s.frames[s.current]
    ensures EntriesOf(Ended(t), s.slot[s.current]) == EntriesOf(s, s.slot[s.current])
  {
    var o, d, u := s.current, |s.frames[s.current]|, Begun(s, id, v);
    BegunOk(s, id, v);
    assert Flat(body) + [] == Flat(body);
    FlatIsNested(body, [], 0);
    DepthFollows(u, steps, t, o, d + 1, 0);
    RunOk(u, steps, t);
    RunRestores(s, id, v, steps, t);
  }

  /** The same for a whole program: code that leaves no callback open ends with as many frames as it began with. */
  lemma ProgramBalances(s: State, prog: seq<Action>, steps: seq<Step>, t: State, o: Owner)
    requires Ok(s) && Runs(s, steps, t) && o in s.frames && s.frames[o] != [] && StepsOf(s, steps, t, o) == Flat(prog)
    ensures o in t.frames && t.frames[o] == s.frames[o]
  {
    assert Flat(prog) + [] == Flat(prog);
    FlatIsNested(prog, [], 0);
    DepthFollows(s, steps, t, o, |s.frames[o]|, 0);
    FramesStay(s, steps, t, o, |s.frames[o]|);
    assert s.frames[o][..|s.frames[o]|] == s.frames[o] && t.frames[o][..|s.frames[o]|] == t.frames[o];
  }
}
