/** Edit scripts between two line lists, and what it means to be a shortest one. The match relation is the assertion
    differ's, which is reflexive and symmetric but not transitive. */
module EditScripts {
  type Line = string

  /** `scr_assert_lines_eq`: equal, or under the comma rule equal up to one trailing comma. */
  predicate LinesEq(a: Line, b: Line, comma: bool) {
    || a == b
    || (comma && |a| + 1 == |b| && b[|b|-1] == ',' && a == b[..|a|])
    || (comma && |b| + 1 == |a| && a[|a|-1] == ',' && a[..|b|] == b)
  }

  /** The two texts, line by line, and whether the comma rule is on: `a` is the actual side, `b` the expected one. */
  datatype Texts = Texts(a: seq<Line>, b: seq<Line>, comma: bool)

  datatype Op = Insert | Delete | Nop

  datatype DiffOp = DiffOp(op: Op, line: Line)

  ghost predicate Match(tx: Texts, x: int, y: int) {
    0 <= x < |tx.a| && 0 <= y < |tx.b| && LinesEq(tx.a[x], tx.b[y], tx.comma)
  }

  predicate EndsInComma(s: Line) {
    |s| > 0 && s[|s|-1] == ','
  }

  /** The line printed for a common step: under the comma rule the one with the comma, if there is one. */
  function KeptLine(a: Line, b: Line, comma: bool): (r: Line)
    ensures r == a || r == b
    ensures comma ==> (EndsInComma(r) <==> EndsInComma(a) || EndsInComma(b))
    ensures !comma ==> r == a
  {
    if comma && !EndsInComma(a) then b else a
  }

  /** `ops`, in document order, is an edit script from position `(x, y)` to the end of both lists: insertions take the
      actual lines, deletions the expected ones, and common steps pair accepted lines. */
  ghost predicate Aligns(tx: Texts, ops: seq<DiffOp>, x: nat, y: nat)
    decreases |ops|
  {
    if ops == [] then x == |tx.a| && y == |tx.b|
    else match ops[0].op
      case Insert => x < |tx.a| && ops[0].line == tx.a[x] && Aligns(tx, ops[1..], x + 1, y)
      case Delete => y < |tx.b| && ops[0].line == tx.b[y] && Aligns(tx, ops[1..], x, y + 1)
      case Nop =>
        Match(tx, x, y) && ops[0].line == KeptLine(tx.a[x], tx.b[y], tx.comma) && Aligns(tx, ops[1..], x + 1, y + 1)
  }

  /** The number of insertions and deletions. */
  ghost function Cost(ops: seq<DiffOp>): nat {
    if ops == [] then 0 else (if ops[0].op == Nop then 0 else 1) + Cost(ops[1..])
  }

  /** The lines of a script that a reader of the actual (or expected) side sees. */
  ghost function Side(ops: seq<DiffOp>, dropped: Op): seq<Line> {
    if ops == [] then [] else (if ops[0].op == dropped then [] else [ops[0].line]) + Side(ops[1..], dropped)
  }

  ghost predicate UpToComma(s: Line, t: Line) {
    s == t || s == t + [','] || t == s + [',']
  }

  /** Lines match exactly when they are the same up to one trailing comma, and the same without the comma rule. */
  lemma EqUpToComma(a: Line, b: Line, comma: bool)
    ensures LinesEq(a, b, comma) <==> a == b || (comma && UpToComma(a, b))
  {
    if |a| + 1 == |b| && b[|b|-1] == ',' && a == b[..|a|] { assert b == a + [',']; }
    if |b| + 1 == |a| && a[|a|-1] == ',' && a[..|b|] == b { assert a == b + [',']; }
    if b == a + [','] { assert b[..|a|] == a; }
    if a == b + [','] { assert a[..|b|] == b; }
  }

  lemma KeptShows(a: Line, b: Line, comma: bool)
    requires LinesEq(a, b, comma)
    ensures Shown(KeptLine(a, b, comma), a, comma) && UpToComma(KeptLine(a, b, comma), b) && (!comma ==> a == b)
  {
    EqUpToComma(a, b, comma);
  }

  /** An actual line as it is printed: as it is, or completed by a comma it does not have. */
  ghost predicate Shown(s: Line, a: Line, comma: bool) {
    s == a || (comma && !EndsInComma(a) && s == a + [','])
  }

  /** What a script prints for the steps from position `(x, y)` on: inserted lines are the actual ones, deleted
      lines the expected ones, and for a common step it is one of the two, with a trailing comma exactly when either
      has one. */
  ghost predicate Prints(tx: Texts, ops: seq<DiffOp>, x: nat, y: nat)
    decreases |ops|
  {
    ops != [] ==>
      match ops[0].op
      case Insert => x < |tx.a| && ops[0].line == tx.a[x] && Prints(tx, ops[1..], x + 1, y)
      case Delete => y < |tx.b| && ops[0].line == tx.b[y] && Prints(tx, ops[1..], x, y + 1)
      case Nop =>
        && x < |tx.a| && y < |tx.b| && (ops[0].line == tx.a[x] || ops[0].line == tx.b[y])
        && (if tx.comma then EndsInComma(ops[0].line) <==> EndsInComma(tx.a[x]) || EndsInComma(tx.b[y])
            else tx.a[x] == tx.b[y])
        && (tx.a[x] == tx.b[y] || (tx.comma && UpToComma(tx.a[x], tx.b[y])))
        && Prints(tx, ops[1..], x + 1, y + 1)
  }

  /** Of all shortest scripts, which one: after `d` moves, a line is inserted only where no walk with as few moves
      gets to the same point by deleting a line last. */
  ghost predicate DeletesLate(tx: Texts, ops: seq<DiffOp>, x: int, y: int, d: int)
    decreases |ops|
  {
    ops != [] ==>
      match ops[0].op
      case Insert => !Reach(tx, d, x + 1, y - 1) && DeletesLate(tx, ops[1..], x + 1, y, d + 1)
      case Delete => DeletesLate(tx, ops[1..], x, y + 1, d + 1)
      case Nop => DeletesLate(tx, ops[1..], x + 1, y + 1, d)
  }

  lemma {:induction false} ScriptPrints(tx: Texts, ops: seq<DiffOp>, x: nat, y: nat)
    requires Aligns(tx, ops, x, y)
    ensures Prints(tx, ops, x, y)
    decreases |ops|
  {
    if ops != [] {
      match ops[0].op
      case Insert => ScriptPrints(tx, ops[1..], x + 1, y);
      case Delete => ScriptPrints(tx, ops[1..], x, y + 1);
      case Nop =>
        EqUpToComma(tx.a[x], tx.b[y], tx.comma);
        ScriptPrints(tx, ops[1..], x + 1, y + 1);
    }
  }

  /** Without deletions a script is the actual text: exactly with the comma rule off, otherwise a kept line may show
      the expected side's trailing comma. */
  lemma {:induction false} ReconstructsActual(tx: Texts, ops: seq<DiffOp>, x: nat, y: nat)
    requires x <= |tx.a| && y <= |tx.b| && Aligns(tx, ops, x, y)
    ensures ShowsActual(tx, Side(ops, Delete), x)
    decreases |ops|
  {
    if ops != [] {
      match ops[0].op
      case Insert =>
        ReconstructsActual(tx, ops[1..], x + 1, y);
        MoreActual(tx, ops[0].line, Side(ops[1..], Delete), x);
      case Delete => ReconstructsActual(tx, ops[1..], x, y + 1);
      case Nop =>
        KeptShows(tx.a[x], tx.b[y], tx.comma);
        ReconstructsActual(tx, ops[1..], x + 1, y + 1);
        MoreActual(tx, ops[0].line, Side(ops[1..], Delete), x);
    }
  }

  /** `s` is the actual text from line `x` on, exactly or with the comma rule's trailing commas. */
  ghost predicate ShowsActual(tx: Texts, s: seq<Line>, x: nat)
    requires x <= |tx.a|
  {
    && |s| == |tx.a| - x && (forall i :: 0 <= i < |s| ==> Shown(s[i], tx.a[x+i], tx.comma))
    && (!tx.comma ==> s == tx.a[x..])
  }

  lemma MoreActual(tx: Texts, line: Line, s: seq<Line>, x: nat)
    requires x < |tx.a| && ShowsActual(tx, s, x + 1)
    requires Shown(line, tx.a[x], tx.comma)
    ensures ShowsActual(tx, [line] + s, x)
  {
  }

  /** `s` is the expected text from line `y` on, exactly or up to the comma rule's trailing commas. */
  ghost predicate ShowsExpected(tx: Texts, s: seq<Line>, y: nat)
    requires y <= |tx.b|
  {
    && |s| == |tx.b| - y && (forall i :: 0 <= i < |s| ==> UpToComma(s[i], tx.b[y+i]))
    && (!tx.comma ==> s == tx.b[y..])
  }

  lemma MoreExpected(tx: Texts, line: Line, s: seq<Line>, y: nat)
    requires y < |tx.b| && ShowsExpected(tx, s, y + 1) && UpToComma(line, tx.b[y]) && (!tx.comma ==> line == tx.b[y])
    ensures ShowsExpected(tx, [line] + s, y)
  {
    hide UpToComma;
  }

  /** Without insertions a script is the expected text: exactly with the comma rule off, otherwise up to one trailing
      comma a line. */
  lemma {:induction false} ReconstructsExpected(tx: Texts, ops: seq<DiffOp>, x: nat, y: nat)
    requires x <= |tx.a| && y <= |tx.b| && Aligns(tx, ops, x, y)
    ensures ShowsExpected(tx, Side(ops, Insert), y)
    decreases |ops|
  {
    if ops != [] {
      match ops[0].op
      case Insert => ReconstructsExpected(tx, ops[1..], x + 1, y);
      case Delete =>
        ReconstructsExpected(tx, ops[1..], x, y + 1);
        MoreExpected(tx, ops[0].line, Side(ops[1..], Insert), y);
      case Nop =>
        KeptShows(tx.a[x], tx.b[y], tx.comma);
        ReconstructsExpected(tx, ops[1..], x + 1, y + 1);
        MoreExpected(tx, ops[0].line, Side(ops[1..], Insert), y);
    }
  }

  // ---------------------------------------------------------------------------------------------------------
  // Walks from the origin, in a plane that extends past both lists

  datatype Step = Right | Down | Diagonal

  /** `s` walks from the origin to `(x, y)`; diagonal steps only over matching lines. */
  ghost predicate Walk(tx: Texts, s: seq<Step>, x: int, y: int) {
    if s == [] then x == 0 && y == 0
    else var t := s[..|s|-1]; match s[|s|-1]
      case Right => Walk(tx, t, x - 1, y)
      case Down => Walk(tx, t, x, y - 1)
      case Diagonal => Match(tx, x - 1, y - 1) && Walk(tx, t, x - 1, y - 1)
  }

  ghost function Moves(s: seq<Step>): nat {
    if s == [] then 0 else Moves(s[..|s|-1]) + if s[|s|-1] == Diagonal then 0 else 1
  }

  ghost predicate Reach(tx: Texts, d: int, x: int, y: int) {
    exists s :: Walk(tx, s, x, y) && Moves(s) == d
  }

  lemma {:induction false} WalkBounds(tx: Texts, s: seq<Step>, x: int, y: int)
    requires Walk(tx, s, x, y)
    ensures 0 <= x <= |tx.a| + Moves(s) && 0 <= y && y - x <= Moves(s)
    ensures x - y <= Moves(s) && (Moves(s) - (x - y)) % 2 == 0
    decreases |s|
  {
    if s != [] {
      var t := s[..|s|-1];
      match s[|s|-1]
      case Right => WalkBounds(tx, t, x - 1, y);
      case Down => WalkBounds(tx, t, x, y - 1);
      case Diagonal =>
        WalkBounds(tx, t, x - 1, y - 1);
        WalkCommon(tx, t, x - 1, y - 1);
    }
  }

  /** Diagonal steps stay inside, so the part of `x` beyond the list was paid for. */
  lemma {:induction false} WalkCommon(tx: Texts, s: seq<Step>, x: int, y: int)
    requires Walk(tx, s, x, y)
    ensures x <= |tx.a| + Moves(s)
    decreases |s|
  {
    if s != [] {
      var t := s[..|s|-1];
      match s[|s|-1]
      case Right => WalkCommon(tx, t, x - 1, y);
      case Down => WalkCommon(tx, t, x, y - 1);
      case Diagonal => WalkCommon(tx, t, x - 1, y - 1);
    }
  }

  lemma ReachBounds(tx: Texts, d: int, x: int, y: int)
    requires Reach(tx, d, x, y)
    ensures 0 <= x <= |tx.a| + d && 0 <= y && y - x <= d && x - y <= d && (d - (x - y)) % 2 == 0 && d >= 0
  {
    var s :| Walk(tx, s, x, y) && Moves(s) == d;
    WalkBounds(tx, s, x, y);
  }

  lemma ReachStep(tx: Texts, d: int, x: int, y: int)
    requires Reach(tx, d, x, y)
    ensures Reach(tx, d + 1, x + 1, y) && Reach(tx, d + 1, x, y + 1)
    ensures Match(tx, x, y) ==> Reach(tx, d, x + 1, y + 1)
  {
    var s :| Walk(tx, s, x, y) && Moves(s) == d;
    assert (s + [Right])[..|s|] == s && (s + [Down])[..|s|] == s && (s + [Diagonal])[..|s|] == s;
    assert Walk(tx, s + [Right], x + 1, y) && Moves(s + [Right]) == d + 1;
    assert Walk(tx, s + [Down], x, y + 1) && Moves(s + [Down]) == d + 1;
    if Match(tx, x, y) {
      assert Walk(tx, s + [Diagonal], x + 1, y + 1) && Moves(s + [Diagonal]) == d;
    }
  }

  lemma ReachOrigin(tx: Texts)
    ensures Reach(tx, 0, 0, 0)
  {
    assert Walk(tx, [], 0, 0) && Moves([]) == 0;
  }

  /** How a reachable point was reached. */
  lemma ReachLast(tx: Texts, d: int, x: int, y: int)
    requires Reach(tx, d, x, y)
    ensures || (d == 0 && x == 0 && y == 0)
            || (d > 0 && Reach(tx, d - 1, x - 1, y))
            || (d > 0 && Reach(tx, d - 1, x, y - 1))
            || (Match(tx, x - 1, y - 1) && Reach(tx, d, x - 1, y - 1))
  {
    var s :| Walk(tx, s, x, y) && Moves(s) == d;
    if s != [] {
      var t := s[..|s|-1];
      match s[|s|-1]
      case Right => assert Walk(tx, t, x - 1, y) && Moves(t) == d - 1;
      case Down => assert Walk(tx, t, x, y - 1) && Moves(t) == d - 1;
      case Diagonal => assert Walk(tx, t, x - 1, y - 1) && Moves(t) == d;
    }
  }

  function Min(x: int, y: int): int { if x < y then x else y }

  /** Clipping a walk to the grid saves one move for every unit it overran. */
  lemma {:induction false} Clip(tx: Texts, s: seq<Step>, x: int, y: int)
    requires Walk(tx, s, x, y)
    ensures var x', y' := Min(x, |tx.a|), Min(y, |tx.b|);
      Reach(tx, Moves(s) - (x - x') - (y - y'), x', y')
    decreases |s|
  {
    if s == [] {
      ReachOrigin(tx);
    } else {
      var t := s[..|s|-1];
      match s[|s|-1] {
        case Right =>
          Clip(tx, t, x - 1, y);
          if x <= |tx.a| { ReachStep(tx, Moves(t) - (y - Min(y, |tx.b|)), x - 1, Min(y, |tx.b|)); }
        case Down =>
          Clip(tx, t, x, y - 1);
          if y <= |tx.b| { ReachStep(tx, Moves(t) - (x - Min(x, |tx.a|)), Min(x, |tx.a|), y - 1); }
        case Diagonal =>
          Clip(tx, t, x - 1, y - 1);
          ReachStep(tx, Moves(t), x - 1, y - 1);
      }
    }
  }

  lemma ReachClipped(tx: Texts, d: int, x: int, y: int)
    requires Reach(tx, d, x, y) && x >= |tx.a| && y >= |tx.b|
    ensures Reach(tx, d - (x - |tx.a|) - (y - |tx.b|), |tx.a|, |tx.b|)
  {
    var s :| Walk(tx, s, x, y) && Moves(s) == d;
    Clip(tx, s, x, y);
  }

  /** Deleting everything and inserting everything always works. */
  lemma {:induction false} ReachAll(tx: Texts, x: nat, y: nat)
    ensures Reach(tx, x + y, x, y)
    decreases x + y
  {
    if x > 0 {
      ReachAll(tx, x - 1, y);
      ReachStep(tx, x - 1 + y, x - 1, y);
    } else if y > 0 {
      ReachAll(tx, x, y - 1);
      ReachStep(tx, x + y - 1, x, y - 1);
    } else {
      ReachOrigin(tx);
    }
  }

  /** An edit script is a walk: its cost bounds the distance. */
  lemma {:induction false} ScriptWalks(tx: Texts, ops: seq<DiffOp>, d: nat, x: nat, y: nat)
    requires Reach(tx, d, x, y) && Aligns(tx, ops, x, y)
    ensures Reach(tx, d + Cost(ops), |tx.a|, |tx.b|)
    decreases |ops|
  {
    if ops != [] {
      ReachStep(tx, d, x, y);
      match ops[0].op
      case Insert => ScriptWalks(tx, ops[1..], d + 1, x + 1, y);
      case Delete => ScriptWalks(tx, ops[1..], d + 1, x, y + 1);
      case Nop => ScriptWalks(tx, ops[1..], d, x + 1, y + 1);
    }
  }

  // ---------------------------------------------------------------------------------------------------------
  // Furthest-reaching points

  /** The point of diagonal `k` with abscissa `x` can be reached with `d` moves. */
  ghost predicate OnDiagonal(tx: Texts, d: int, k: int, x: int) {
    Reach(tx, d, x, x - k)
  }

  /** `x` is the furthest that walks with `d` moves get on diagonal `k`. */
  ghost predicate Furthest(tx: Texts, d: int, k: int, x: int) {
    OnDiagonal(tx, d, k, x) && AtMost(tx, d, k, x)
  }

  ghost predicate AtMost(tx: Texts, d: int, k: int, bound: int) {
    forall x :: OnDiagonal(tx, d, k, x) ==> x <= bound
  }

  /** Where level `d` starts on diagonal `k`: one move from the neighbouring diagonals, and as far as those get. */
  ghost predicate StartOf(tx: Texts, d: int, k: int, x0: int) {
    && OnDiagonal(tx, d, k, x0)
    && (d == 0 ==> k == 0 && x0 == 0)
    && AtMost(tx, d - 1, k - 1, x0 - 1)
    && AtMost(tx, d - 1, k + 1, x0)
  }

  /** Past the start, the only way forward on a diagonal is along matches. */
  lemma PastStart(tx: Texts, d: int, k: int, x0: int, x: int)
    requires StartOf(tx, d, k, x0) && OnDiagonal(tx, d, k, x) && x > x0
    ensures Match(tx, x - 1, x - 1 - k) && OnDiagonal(tx, d, k, x - 1)
  {
    hide Reach;
    ReachLast(tx, d, x, x - k);
    assert x - k - 1 == x - 1 - k == x - (k + 1) && x - k == x - 1 - (k - 1);
    assert !OnDiagonal(tx, d - 1, k - 1, x - 1);
    assert !OnDiagonal(tx, d - 1, k + 1, x);
  }

  /** Sliding from the start until a mismatch reaches the furthest point. */
  lemma SlideFurthest(tx: Texts, d: int, k: int, x0: int, x: int)
    requires StartOf(tx, d, k, x0) && x0 <= x && OnDiagonal(tx, d, k, x)
    requires !Match(tx, x, x - k)
    ensures Furthest(tx, d, k, x)
  {
    forall x' | OnDiagonal(tx, d, k, x') ensures x' <= x {
      SlideBound(tx, d, k, x0, x, x');
    }
  }

  lemma {:induction false} SlideBound(tx: Texts, d: int, k: int, x0: int, x: int, x': int)
    requires StartOf(tx, d, k, x0) && x0 <= x && !Match(tx, x, x - k)
    requires OnDiagonal(tx, d, k, x')
    ensures x' <= x
    decreases x' - x
  {
    if x' > x {
      PastStart(tx, d, k, x0, x');
      if x' - 1 > x { SlideBound(tx, d, k, x0, x, x' - 1); }
    }
  }

  lemma StartOrigin(tx: Texts)
    ensures StartOf(tx, 0, 0, 0)
  {
    ReachOrigin(tx);
    NotThatFar(tx, -1, -1, -1);
    NotThatFar(tx, -1, 1, 0);
  }

  /** Nothing is on a diagonal further out than the number of moves. */
  lemma NotThatFar(tx: Texts, d: int, k: int, bound: int)
    requires k > d || k < -d
    ensures AtMost(tx, d, k, bound)
  {
    forall x | OnDiagonal(tx, d, k, x) ensures x <= bound {
      ReachBounds(tx, d, x, x - k);
    }
  }

  /** Coming down from the diagonal above, when the one below is not ahead of it. */
  lemma StartDown(tx: Texts, d: int, k: int, p: int, q: int)
    requires d > 0 && Furthest(tx, d - 1, k + 1, q)
    requires k == -d || (p < q && Furthest(tx, d - 1, k - 1, p))
    ensures StartOf(tx, d, k, q)
  {
    hide Reach;
    assert q - (k + 1) + 1 == q - k;
    ReachStep(tx, d - 1, q, q - (k + 1));
    if k == -d { NotThatFar(tx, d - 1, k - 1, q - 1); }
  }

  /** Coming right from the diagonal below, when the one above is not ahead of it. */
  lemma StartRight(tx: Texts, d: int, k: int, p: int, q: int)
    requires d > 0 && Furthest(tx, d - 1, k - 1, p)
    requires k == d || (q <= p && Furthest(tx, d - 1, k + 1, q))
    ensures StartOf(tx, d, k, p + 1)
  {
    hide Reach;
    assert p - (k - 1) == p + 1 - k;
    ReachStep(tx, d - 1, p, p - (k - 1));
    if k == d { NotThatFar(tx, d - 1, k + 1, p + 1); }
  }
}

/** The greedy line diff of assertion messages: a forward pass that keeps the furthest point of every diagonal, and a
    backtrack over its snapshots. */
module MyersDiff {
  import opened EditScripts

  newtype int32 = n: int | -0x8000_0000 <= n < 0x8000_0000

  const CAP: nat := 4096

  /** The entry of `v` for diagonal `k` is that diagonal's furthest point at level `d`. */
  ghost predicate Entry(tx: Texts, max: nat, v: seq<int32>, d: int, k: int) {
    0 <= k + max < |v| && Furthest(tx, d, k, v[k + max] as int)
  }

  /** The furthest points of all diagonals that level `d` reaches. */
  ghost predicate Level(tx: Texts, max: nat, v: seq<int32>, d: int) {
    forall k :: -d <= k <= d && (d - k) % 2 == 0 ==> Entry(tx, max, v, d, k)
  }

  /** What level `d` starts from. */
  ghost predicate Snapshot(tx: Texts, max: nat, v: seq<int32>, d: int) {
    |v| == 2 * max + 1 && if d == 0 then max >= 1 && v[max + 1] == 0 else Level(tx, max, v, d - 1)
  }

  /** The branch both passes take on diagonal `k`. */
  predicate GoDown(v: seq<int32>, max: nat, d: int, k: int)
    requires |v| == 2 * max + 1 && -d <= k <= d <= max
  {
    k == -d || (k != d && v[k + max - 1] < v[k + max + 1])
  }

  function PrevK(v: seq<int32>, max: nat, d: int, k: int): int
    requires |v| == 2 * max + 1 && -d <= k <= d <= max
  {
    if GoDown(v, max, d, k) then k + 1 else k - 1
  }

  ghost function StartX(v: seq<int32>, max: nat, d: int, k: int): int
    requires |v| == 2 * max + 1 && -d <= k <= d <= max && max >= 1
  {
    if GoDown(v, max, d, k) then v[k + max + 1] as int else v[k + max - 1] as int + 1
  }

  lemma LevelStart(tx: Texts, max: nat, v: seq<int32>, d: int, k: int)
    requires 0 <= d <= max && max >= 1 && -d <= k <= d && (d - k) % 2 == 0 && Snapshot(tx, max, v, d)
    ensures StartOf(tx, d, k, StartX(v, max, d, k))
    ensures d > 0 ==> Entry(tx, max, v, d - 1, PrevK(v, max, d, k))
  {
    if d == 0 {
      StartOrigin(tx);
    } else {
      hide Furthest, StartOf;
      if k != -d { assert Entry(tx, max, v, d - 1, k - 1); }
      if k != d { assert Entry(tx, max, v, d - 1, k + 1); }
      if k == -d {
        StartDown(tx, d, k, 0, v[k + max + 1] as int);
      } else if k == d {
        StartRight(tx, d, k, v[k + max - 1] as int, 0);
      } else if v[k + max - 1] < v[k + max + 1] {
        StartDown(tx, d, k, v[k + max - 1] as int, v[k + max + 1] as int);
      } else {
        StartRight(tx, d, k, v[k + max - 1] as int, v[k + max + 1] as int);
      }
    }
  }

  /** The goal has not been reached below level `d`. */
  ghost predicate NotBelow(tx: Texts, d: int) {
    forall e :: e < d ==> !Reach(tx, e, |tx.a|, |tx.b|)
  }

  lemma NothingBelowZero(tx: Texts)
    ensures NotBelow(tx, 0)
  {
    forall e | e < 0 ensures !Reach(tx, e, |tx.a|, |tx.b|) {
      if Reach(tx, e, |tx.a|, |tx.b|) { ReachBounds(tx, e, |tx.a|, |tx.b|); }
    }
  }

  /** The first point that passes the end test is the end itself: overrunning it would mean it was reached earlier. */
  lemma FirstHit(tx: Texts, d: int, k: int, x: int)
    requires NotBelow(tx, d) && Furthest(tx, d, k, x) && x >= |tx.a| && x - k >= |tx.b|
    ensures x == |tx.a| && x - k == |tx.b|
  {
    ReachClipped(tx, d, x, x - k);
  }

  /** A level none of whose points passes the end test does not reach the end. */
  lemma LevelMissed(tx: Texts, max: nat, v: seq<int32>, d: int)
    requires NotBelow(tx, d) && Level(tx, max, v, d) && |v| == 2 * max + 1 && 0 <= d <= max
    requires forall k :: Entry(tx, max, v, d, k) && -d <= k <= d && (d - k) % 2 == 0 ==> !Past(tx, v[k + max] as int, k)
    ensures NotBelow(tx, d + 1)
  {
    if Reach(tx, d, |tx.a|, |tx.b|) { LevelHits(tx, max, v, d); }
    forall e | e < d + 1 ensures !Reach(tx, e, |tx.a|, |tx.b|) {
      if e < d { assert !Reach(tx, e, |tx.a|, |tx.b|); }
    }
  }

  /** A level that reaches the end has an entry past it. */
  lemma LevelHits(tx: Texts, max: nat, v: seq<int32>, d: int)
    requires Level(tx, max, v, d) && Reach(tx, d, |tx.a|, |tx.b|)
    ensures var k := |tx.a| - |tx.b|;
      -d <= k <= d && (d - k) % 2 == 0 && Entry(tx, max, v, d, k) && Past(tx, v[k + max] as int, k)
  {
    var k := |tx.a| - |tx.b|;
    ReachBounds(tx, d, |tx.a|, |tx.b|);
    assert |tx.a| - k == |tx.b|;
    assert OnDiagonal(tx, d, k, |tx.a|);
    assert Entry(tx, max, v, d, k);
  }

  ghost predicate Past(tx: Texts, x: int, k: int) {
    x >= |tx.a| && x - k >= |tx.b|
  }

  /** Follows matching lines from `(x0, x0 - k)`. */
  method Slide(tx: Texts, ghost d: int, k: int, x0: int) returns (x: int)
    requires StartOf(tx, d, k, x0)
    ensures Furthest(tx, d, k, x) && 0 <= x <= |tx.a| + d && x - k >= 0
  {
    hide StartOf, Furthest, Reach, Walk, LinesEq, OnDiagonal;
    StartReached(tx, d, k, x0);
    x := x0;
    var y := x - k;
    while x < |tx.a| && y < |tx.b| && LinesEq(tx.a[x], tx.b[y], tx.comma)
      invariant x0 <= x && y == x - k && OnDiagonal(tx, d, k, x) && x >= 0 && y >= 0
    {
      SlideStep(tx, d, k, x);
      x := x + 1;
      y := y + 1;
    }
    SlideFurthest(tx, d, k, x0, x);
    FurthestBounds(tx, d, k, x);
  }

  lemma StartReached(tx: Texts, d: int, k: int, x0: int)
    requires StartOf(tx, d, k, x0)
    ensures OnDiagonal(tx, d, k, x0) && x0 >= 0 && x0 - k >= 0
  {
    ReachBounds(tx, d, x0, x0 - k);
  }

  lemma SlideStep(tx: Texts, d: int, k: int, x: int)
    requires OnDiagonal(tx, d, k, x) && Match(tx, x, x - k)
    ensures OnDiagonal(tx, d, k, x + 1)
  {
    ReachStep(tx, d, x, x - k);
    assert x - k + 1 == x + 1 - k;
  }

  lemma FurthestBounds(tx: Texts, d: int, k: int, x: int)
    requires Furthest(tx, d, k, x)
    ensures 0 <= x <= |tx.a| + d && x - k >= 0 && -d <= k <= d && (d - k) % 2 == 0 && OnDiagonal(tx, d, k, x)
  {
    ReachBounds(tx, d, x, x - k);
  }

  /** Diagonals of this level's parity below `k` are done and did not pass the end; the others still hold the
      snapshot. */
  ghost predicate HalfLevel(tx: Texts, max: nat, snap: seq<int32>, v: seq<int32>, d: int, k: int) {
    && |v| == |snap| == 2 * max + 1
    && (forall j :: 0 <= j < |v| && (j - max - d) % 2 != 0 ==> v[j] == snap[j])
    && (forall k' :: -d <= k' < k && (d - k') % 2 == 0 ==> Entry(tx, max, v, d, k'))
    && (forall k' :: -d <= k' < k && (d - k') % 2 == 0 && Entry(tx, max, v, d, k') ==>
          !Past(tx, v[k' + max] as int, k'))
  }

  lemma HalfLevelMore(tx: Texts, max: nat, snap: seq<int32>, v: seq<int32>, d: int, k: int, x: int32)
    requires HalfLevel(tx, max, snap, v, d, k) && -d <= k <= d <= max && (d - k) % 2 == 0
    requires Furthest(tx, d, k, x as int) && !Past(tx, x as int, k)
    ensures HalfLevel(tx, max, snap, v[k + max := x], d, k + 2)
  {
    hide Furthest;
    var v' := v[k + max := x];
    forall k' | -d <= k' < k + 2 && (d - k') % 2 == 0
      ensures Entry(tx, max, v', d, k') && !Past(tx, v'[k' + max] as int, k')
    {
      if k' < k { assert Entry(tx, max, v, d, k') && v'[k' + max] == v[k' + max]; }
    }
  }

  lemma HalfLevelReads(tx: Texts, max: nat, snap: seq<int32>, v: seq<int32>, d: int, k: int)
    requires HalfLevel(tx, max, snap, v, d, k) && 0 <= d <= max && max >= 1 && -d <= k <= d && (d - k) % 2 == 0
    ensures GoDown(v, max, d, k) == GoDown(snap, max, d, k) && StartX(v, max, d, k) == StartX(snap, max, d, k)
  {
    hide Entry;
    if k != -d { assert v[k + max - 1] == snap[k + max - 1]; }
    if k != d || d == 0 { assert v[k + max + 1] == snap[k + max + 1]; }
  }

  lemma HalfLevelEnd(tx: Texts, max: nat, snap: seq<int32>, v: seq<int32>, d: int, k: int)
    requires HalfLevel(tx, max, snap, v, d, k) && d < k && NotBelow(tx, d) && 0 <= d <= max
    ensures Snapshot(tx, max, v, d + 1) && NotBelow(tx, d + 1)
  {
    LevelMissed(tx, max, v, d);
  }

  /** One level of the forward pass, over every second diagonal, in place. */
  method ForwardLevel(tx: Texts, v: array<int32>, max: nat, d: int) returns (found: bool)
    requires max == |tx.a| + |tx.b| && 0 < max <= CAP && 0 <= d <= max
    requires Snapshot(tx, max, v[..], d) && NotBelow(tx, d)
    modifies v
    ensures v.Length == 2 * max + 1
    ensures found ==> Furthest(tx, d, |tx.a| - |tx.b|, |tx.a|)
    ensures !found ==> Snapshot(tx, max, v[..], d + 1) && NotBelow(tx, d + 1)
  {
    hide StartOf, Furthest, Entry, Level, NotBelow, HalfLevel, GoDown;
    ghost var snap := v[..];
    var an, bn := |tx.a|, |tx.b|;
    found := false;
    var k := -d;
    HalfLevelStart(tx, max, snap, d);
    while k <= d
      invariant -d <= k <= d + 2 && (d - k) % 2 == 0
      invariant HalfLevel(tx, max, snap, v[..], d, k)
      decreases d + 2 - k
    {
      var off := k + max;
      HalfLevelReads(tx, max, snap, v[..], d, k);
      LevelStart(tx, max, snap, d, k);
      DownMeans(v[..], max, d, k);
      var x: int;
      if k == -d || (k != d && v[off - 1] < v[off + 1]) {
        x := v[off + 1] as int;
      } else {
        x := v[off - 1] as int + 1;
      }
      x := Slide(tx, d, k, x);
      ghost var before := v[..];
      v[off] := x as int32;
      assert v[..] == before[off := x as int32];
      if x >= an && x - k >= bn {
        FirstHit(tx, d, k, x);
        found := true;
        return;
      }
      HalfLevelMore(tx, max, snap, before, d, k, x as int32);
      k := k + 2;
    }
    HalfLevelEnd(tx, max, snap, v[..], d, k);
  }

  lemma HalfLevelStart(tx: Texts, max: nat, v: seq<int32>, d: nat)
    requires |v| == 2 * max + 1
    ensures HalfLevel(tx, max, v, v, d, 0 - d)
  {
  }

  lemma DownMeans(v: seq<int32>, max: nat, d: int, k: int)
    requires |v| == 2 * max + 1 && -d <= k <= d <= max
    ensures GoDown(v, max, d, k) == (k == -d || (k != d && v[k + max - 1] < v[k + max + 1]))
  {
  }

  /** Going right, no walk gets to the same point by a move down. */
  lemma RightMeans(tx: Texts, max: nat, v: seq<int32>, d: int, k: int)
    requires max >= 1 && 0 <= d <= max && -d <= k <= d && (d - k) % 2 == 0 && Snapshot(tx, max, v, d)
    ensures |v| == 2 * max + 1
    ensures d > 0 && !GoDown(v, max, d, k) ==> !Reach(tx, d - 1, StartX(v, max, d, k), StartX(v, max, d, k) - k - 1)
  {
    if d > 0 && !GoDown(v, max, d, k) {
      var x0 := StartX(v, max, d, k);
      if k == d {
        if Reach(tx, d - 1, x0, x0 - k - 1) { ReachBounds(tx, d - 1, x0, x0 - k - 1); }
      } else {
        assert Entry(tx, max, v, d - 1, k + 1);
        assert !OnDiagonal(tx, d - 1, k + 1, x0);
      }
    }
  }

  /** The forward pass: stops at the distance, with one snapshot for every level up to it. */
  method Forward(tx: Texts) returns (foundLevel: nat, trace: seq<seq<int32>>)
    requires 0 < |tx.a| + |tx.b| <= CAP
    ensures foundLevel <= |tx.a| + |tx.b| && |trace| == foundLevel + 1
    ensures forall l :: 0 <= l < |trace| ==> Snapshot(tx, |tx.a| + |tx.b|, trace[l], l)
    ensures Furthest(tx, foundLevel, |tx.a| - |tx.b|, |tx.a|) && NotBelow(tx, foundLevel)
  {
    var max := |tx.a| + |tx.b|;
    var v := new int32[2 * max + 1](_ => 0);
    assert Snapshot(tx, max, v[..], 0);
    hide Furthest, StartOf, Level, NotBelow, Snapshot;
    trace := [];
    foundLevel := 0;
    var found := false;
    var d := 0;
    NothingBelowZero(tx);
    while d <= max && !found
      invariant d <= max + 1
      invariant |trace| == d + (if found then 1 else 0)
      invariant forall l :: 0 <= l < |trace| ==> Snapshot(tx, max, trace[l], l)
      invariant NotBelow(tx, d)
      invariant !found ==> Snapshot(tx, max, v[..], d)
      invariant found ==> foundLevel == d <= max && Furthest(tx, d, |tx.a| - |tx.b|, |tx.a|)
      decreases max + 1 - d, !found
    {
      trace := trace + [v[..]];
      found := ForwardLevel(tx, v, max, d);
      if found { foundLevel := d; } else { d := d + 1; }
    }
    if !found { EndIsReached(tx, d); }
  }

  lemma EndIsReached(tx: Texts, d: int)
    requires d == |tx.a| + |tx.b| + 1
    ensures !NotBelow(tx, d)
  {
    ReachAll(tx, |tx.a|, |tx.b|);
  }

  // ---------------------------------------------------------------------------------------------------------
  // The backtrack

  ghost function Rev(s: seq<DiffOp>): seq<DiffOp> {
    if s == [] then [] else [s[|s|-1]] + Rev(s[..|s|-1])
  }

  /** The script written so far, read back to front, leads from `(x, y)` to the end with `cost` of all `total` moves. */
  ghost predicate Written(tx: Texts, r: seq<DiffOp>, x: int, y: int, cost: int, total: int) {
    && 0 <= x <= |tx.a| && 0 <= y <= |tx.b|
    && Aligns(tx, Rev(r), x, y) && Cost(Rev(r)) == cost && |r| + x + y <= |tx.a| + |tx.b|
    && DeletesLate(tx, Rev(r), x, y, total - cost)
  }

  lemma WrittenMore(tx: Texts, r: seq<DiffOp>, x: int, y: int, cost: int, total: int, op: DiffOp)
    requires Written(tx, r, x, y, cost, total)
    ensures op.op == Insert && 0 < x && op.line == tx.a[x-1] && !Reach(tx, total - cost - 1, x, y - 1) ==>
      Written(tx, r + [op], x - 1, y, cost + 1, total)
    ensures op.op == Delete && 0 < y && op.line == tx.b[y-1] ==> Written(tx, r + [op], x, y - 1, cost + 1, total)
    ensures op.op == Nop && Match(tx, x - 1, y - 1) && op.line == KeptLine(tx.a[x-1], tx.b[y-1], tx.comma) ==>
      Written(tx, r + [op], x - 1, y - 1, cost, total)
  {
    var r' := r + [op];
    assert r'[..|r'|-1] == r;
    assert Rev(r') == [op] + Rev(r);
    assert Rev(r')[1..] == Rev(r);
  }

  lemma WrittenNothing(tx: Texts, total: int)
    ensures Written(tx, [], |tx.a|, |tx.b|, 0, total)
  {
  }

  lemma WrittenBounds(tx: Texts, r: seq<DiffOp>, x: int, y: int, cost: int, total: int)
    requires Written(tx, r, x, y, cost, total)
    ensures 0 <= x <= |tx.a| && 0 <= y <= |tx.b| && |r| + x + y <= |tx.a| + |tx.b|
  {
  }

  /** Where a level's walk came from, seen from its start point. */
  lemma LevelCameFrom(tx: Texts, max: nat, v: seq<int32>, level: int, k: int)
    requires max >= 1 && 0 <= level <= max && -level <= k <= level
    requires (level - k) % 2 == 0 && Snapshot(tx, max, v, level)
    ensures 0 <= PrevK(v, max, level, k) + max < |v|
    ensures var pk := PrevK(v, max, level, k); var px := v[pk + max] as int; var x0 := StartX(v, max, level, k);
      && StartOf(tx, level, k, x0)
      && (if GoDown(v, max, level, k) then x0 == px && x0 - k == px - pk + 1 else x0 == px + 1 && x0 - k == px - pk)
      && (if level > 0 then Furthest(tx, level - 1, pk, px) && px >= 0 && px - pk >= 0 else px == 0 && px - pk == -1)
  {
    LevelStart(tx, max, v, level, k);
    if level > 0 { FurthestBounds(tx, level - 1, PrevK(v, max, level, k), v[PrevK(v, max, level, k) + max] as int); }
  }

  /** Undoes the snake of one level. */
  method WalkSnake(tx: Texts, result: array<DiffOp>, rn0: nat, x1: int, y1: int, prevX: int, prevY: int,
                   ghost level: nat, ghost k: int, ghost x0: int, ghost cost: int, ghost total: int)
    returns (rn: nat, x: int, y: int)
    requires result.Length == |tx.a| + |tx.b| + 1 && rn0 <= result.Length
    requires Written(tx, result[..rn0], x1, y1, cost, total)
    requires y1 == x1 - k && StartOf(tx, level, k, x0) && OnDiagonal(tx, level, k, x1) && x1 >= x0
    requires (x0 == prevX && x0 - k == prevY + 1) || (x0 == prevX + 1 && x0 - k == prevY)
    modifies result
    ensures rn0 <= rn <= result.Length && Written(tx, result[..rn], x, y, cost, total) && x == x0 && y == x0 - k
  {
    hide StartOf, Written, OnDiagonal, LinesEq;
    rn, x, y := rn0, x1, y1;
    while x > prevX && y > prevY
      invariant rn <= result.Length && rn0 <= rn && y == x - k && x >= x0
      invariant Written(tx, result[..rn], x, y, cost, total) && OnDiagonal(tx, level, k, x)
    {
      WrittenBounds(tx, result[..rn], x, y, cost, total);
      PastStart(tx, level, k, x0, x);
      var ai := tx.a[x - 1];
      var aComma := |ai| > 0 && ai[|ai| - 1] == ',';
      result[rn] := DiffOp(Nop, if tx.comma && !aComma then tx.b[y - 1] else ai);
      WrittenMore(tx, result[..rn], x, y, cost, total, result[rn]);
      assert result[..rn + 1] == result[..rn] + [result[rn]];
      rn := rn + 1;
      x := x - 1;
      y := y - 1;
    }
  }

  /** The backtrack: fills `result` back to front and ends at the origin. */
  method Backtrack(tx: Texts, foundLevel: nat, trace: seq<seq<int32>>) returns (result: array<DiffOp>, rn: nat)
    requires 0 < |tx.a| + |tx.b| <= CAP && foundLevel <= |tx.a| + |tx.b| && |trace| == foundLevel + 1
    requires forall l :: 0 <= l < |trace| ==> Snapshot(tx, |tx.a| + |tx.b|, trace[l], l)
    requires Furthest(tx, foundLevel, |tx.a| - |tx.b|, |tx.a|)
    ensures fresh(result) && result.Length == |tx.a| + |tx.b| + 1 && rn < result.Length
    ensures Written(tx, result[..rn], 0, 0, foundLevel, foundLevel)
  {
    hide Furthest, StartOf, Written, OnDiagonal, Snapshot, GoDown, Reach;
    var max := |tx.a| + |tx.b|;
    result := new DiffOp[max + 1](_ => DiffOp(Nop, ""));
    rn := 0;
    var x, y := |tx.a|, |tx.b|;
    WrittenNothing(tx, foundLevel);
    assert result[..0] == [];
    var level: int := foundLevel;
    while level >= 0
      invariant -1 <= level <= foundLevel && rn <= result.Length && fresh(result) && result.Length == max + 1
      invariant level >= 0 ==> Furthest(tx, level, x - y, x)
      invariant level == -1 ==> x == 0 && y == 0
      invariant Written(tx, result[..rn], x, y, if level >= 0 then foundLevel - level else foundLevel,
                        foundLevel)
    {
      var vv := trace[level];
      var k := x - y;
      SnapshotLength(tx, max, vv, level);
      FurthestBounds(tx, level, k, x);
      LevelCameFrom(tx, max, vv, level, k);
      DownMeans(vv, max, level, k);
      RightMeans(tx, max, vv, level, k);
      var prevK: int;
      if k == -level || (k != level && vv[k + max - 1] < vv[k + max + 1]) {
        prevK := k + 1;
      } else {
        prevK := k - 1;
      }
      var prevX := vv[prevK + max] as int;
      var prevY := prevX - prevK;
      ghost var x0 := StartX(vv, max, level, k);
      StartBefore(tx, level, k, x0, x);
      rn, x, y := WalkSnake(tx, result, rn, x, y, prevX, prevY, level, k, x0, foundLevel - level,
                            foundLevel);
      if level > 0 {
        WrittenBounds(tx, result[..rn], x, y, foundLevel - level, foundLevel);
        ghost var before, x1, y1 := result[..rn], x, y;
        if x > prevX {
          x := x - 1;
          result[rn] := DiffOp(Insert, tx.a[x]);
        } else {
          y := y - 1;
          result[rn] := DiffOp(Delete, tx.b[y]);
        }
        assert result[..rn] == before;
        WrittenMore(tx, before, x1, y1, foundLevel - level, foundLevel, result[rn]);
        assert result[..rn + 1] == result[..rn] + [result[rn]];
        rn := rn + 1;
      } else {
        assert x == 0 && y == 0;
      }
      level := level - 1;
    }
    WrittenBounds(tx, result[..rn], 0, 0, foundLevel, foundLevel);
  }

  lemma SnapshotLength(tx: Texts, max: nat, v: seq<int32>, d: int)
    requires Snapshot(tx, max, v, d)
    ensures |v| == 2 * max + 1
  {
  }

  lemma StartBefore(tx: Texts, d: int, k: int, x0: int, x: int)
    requires StartOf(tx, d, k, x0) && Furthest(tx, d, k, x)
    ensures x0 <= x
  {
  }

  /** `scr_assert_myers`: no answer for two empty texts or above the cap; otherwise a script, stored in reverse, that is
      a shortest one among all edit scripts. */
  method Myers(tx: Texts) returns (some: bool, result: array<DiffOp>, rn: nat)
    ensures some == (0 < |tx.a| + |tx.b| <= 4096)
    ensures some ==> rn < result.Length == |tx.a| + |tx.b| + 1
    ensures some ==> Aligns(tx, Rev(result[..rn]), 0, 0) && Prints(tx, Rev(result[..rn]), 0, 0)
    ensures some ==> DeletesLate(tx, Rev(result[..rn]), 0, 0, 0)
    ensures some ==> forall ops :: Aligns(tx, ops, 0, 0) ==> Cost(Rev(result[..rn])) <= Cost(ops)
  {
    var max := |tx.a| + |tx.b|;
    some := !(max == 0 || max > CAP);
    rn := 0;
    if !some {
      result := new DiffOp[0];
      return;
    }
    hide Furthest, NotBelow, Snapshot;
    var level, trace := Forward(tx);
    result, rn := Backtrack(tx, level, trace);
    ScriptPrints(tx, Rev(result[..rn]), 0, 0);
    forall ops | Aligns(tx, ops, 0, 0) ensures level <= Cost(ops) {
      NoCheaper(tx, level, ops);
    }
  }

  lemma NoCheaper(tx: Texts, level: nat, ops: seq<DiffOp>)
    requires NotBelow(tx, level) && Aligns(tx, ops, 0, 0)
    ensures level <= Cost(ops)
  {
    ReachOrigin(tx);
    ScriptWalks(tx, ops, 0, 0, 0);
  }
}
