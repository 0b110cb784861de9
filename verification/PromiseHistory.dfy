/** Every attempt to settle a promise, in the order they are made, and what it says about the settlements: over a whole
    run the first attempt wins. */
module PromiseHistory {
  import opened PromiseState
  import opened PromiseBuilding

  /** Who settles: a resolver or a body that ends, input `idx` of an `all`, an `all` without inputs, or a race entry. */
  datatype Source =
    | Direct
    | Input(all: AllId, idx: nat, src: Promise)
    | NoInputs(all: AllId)
    | Entry(src: Promise, adapt: Value -> Value)

  datatype Attempt = Attempt(dst: Promise, st: Status, v: Value, via: Source)

  /** What the settlements are about. */
  datatype Book = Book(status: map<Promise, Status>, payload: map<Promise, Value>, entries: map<AllId, seq<Promise>>,
                       result: map<AllId, Promise>)

  ghost predicate SettledAs(b: Book, p: Promise, st: Status, v: Value) {
    p in b.status && p in b.payload && b.status[p] == st && b.payload[p] == v
  }

  /** The attempt says what its source came to: an input that fulfilled offers the values array, a rejected one its
      reason, a race entry its own settlement, converted if it is a fulfilment. */
  ghost predicate Truthful(b: Book, a: Attempt) {
    && a.dst in b.status && a.st != Pending
    && match a.via
       case Direct => true
       case NoInputs(all) => all in b.entries && b.entries[all] == [] && a.st == Fulfilled && a.v == Values(all)
       case Input(all, i, src) =>
         && all in b.entries && i < |b.entries[all]| && b.entries[all][i] == src
         && src in b.payload && SettledAs(b, src, a.st, b.payload[src])
         && a.v == if a.st == Fulfilled then Values(all) else b.payload[src]
       case Entry(src, adapt) =>
         && src in b.payload && SettledAs(b, src, a.st, b.payload[src])
         && a.v == if a.st == Fulfilled then adapt(b.payload[src]) else b.payload[src]
  }

  /** Only its own inputs settle the result of an `all`, and they settle nothing else. */
  ghost predicate Proper(b: Book, a: Attempt) {
    && (forall all :: all in b.result && b.result[all] == a.dst ==>
          (a.via.Input? || a.via.NoInputs?) && a.via.all == all)
    && (a.via.Input? || a.via.NoInputs? ==> a.via.all in b.result && b.result[a.via.all] == a.dst)
  }

  ghost predicate FirstAt(history: seq<Attempt>, k: int, p: Promise) {
    0 <= k < |history| && history[k].dst == p && forall j :: 0 <= j < k ==> history[j].dst != p
  }

  ghost predicate Decided(b: Book, history: seq<Attempt>, p: Promise) {
    exists k :: FirstAt(history, k, p) && SettledAs(b, p, history[k].st, history[k].v)
  }

  ghost predicate Untried(history: seq<Attempt>, p: Promise) {
    forall a :: a in history ==> a.dst != p
  }

  ghost predicate Law(b: Book, history: seq<Attempt>) {
    && (forall a :: a in history ==> Truthful(b, a) && Proper(b, a))
    && (forall p :: p in b.status ==> if b.status[p] == Pending then Untried(history, p) else Decided(b, history, p))
  }

  ghost predicate Justified(b: Book, a: Attempt) {
    Truthful(b, a) && Proper(b, a)
  }

  ghost function BookOf(s: State): Book {
    Book(s.status, s.payload, s.entries, s.result)
  }

  lemma DirectJustified(s: State, p: Promise, st: Status, v: Value)
    requires p in s.status && st != Pending && !Reserved(s, p)
    ensures Justified(BookOf(s), Attempt(p, st, v, Direct))
  {
  }

  lemma EntryJustified(s: State, race: Promise, src: Promise, adapt: Value -> Value)
    requires race in s.status && !Reserved(s, race) && src in s.status && src in s.payload && s.status[src] != Pending
    ensures Justified(BookOf(s), EntryAttempt(s, race, src, adapt))
  {
  }

  /** What a settled entry offers its race. */
  ghost function EntryAttempt(s: State, race: Promise, src: Promise, adapt: Value -> Value): Attempt
    requires src in s.status && src in s.payload
  {
    Attempt(race, s.status[src], if s.status[src] == Fulfilled then adapt(s.payload[src]) else s.payload[src],
            Entry(src, adapt))
  }

  /** What a settled input offers the result of its `all`. */
  ghost function InputAttempt(s: State, a: AllId, dst: Promise, i: nat, src: Promise): Attempt
    requires src in s.status && src in s.payload
  {
    Attempt(dst, s.status[src], if s.status[src] == Fulfilled then Values(a) else s.payload[src], Input(a, i, src))
  }

  /** The callback of `p` that ran has gone on record: a race entry always, an input with its rejection. */
  ghost predicate CallbackLogged(s: State, p: Promise, i: nat, was: seq<Attempt>, now: seq<Attempt>) {
    && p in s.cbs && i < |s.cbs[p]| && p in s.status && p in s.payload
    && match s.cbs[p][i]
       case RaceCb(dst, adapt) => was + [EntryAttempt(s, dst, p, adapt)] <= now
       case AllCb(dst, a, idx) => s.status[p] == Rejected ==> was + [InputAttempt(s, a, dst, idx, p)] <= now
  }

  lemma InputJustified(s: State, a: AllId, dst: Promise, i: nat, src: Promise, owed: bool)
    requires CanReport(s, a, dst, i, src, owed)
    ensures src in s.status && src in s.payload && Justified(BookOf(s), InputAttempt(s, a, dst, i, src))
  {
    hide CallbacksOk, FibersOk, QueuesOk, AllOk, Missing;
    CanReportDomain(s, a, dst, i, src, owed);
    ReportEntry(s, a, dst, i, src, owed);
  }

  lemma ReportEntry(s: State, a: AllId, dst: Promise, i: nat, src: Promise, owed: bool)
    requires CanReport(s, a, dst, i, src, owed)
    ensures a in s.entries && i < |s.entries[a]| && s.entries[a][i] == src
  {
    hide FibersOk, QueuesOk, AllOk, Missing;
    if owed { ReportsTo(s, src, a, i); }
  }

  lemma NoInputsJustified(s: State, r: Promise, a: AllId)
    requires OkBut(s, {r}) && a in s.result && s.result[a] == r && r in s.status && a in s.entries && s.entries[a] == []
    ensures Justified(BookOf(s), Attempt(r, Fulfilled, Values(a), NoInputs(a)))
  {
    hide CallbacksOk, FibersOk, QueuesOk, AllOk;
  }

  lemma LawNothing(b: Book)
    requires b.status == map[]
    ensures Law(b, [])
  {
  }

  /** A pending promise settles: the attempt is the first. */
  lemma LawSettled(b: Book, history: seq<Attempt>, a: Attempt)
    requires Law(b, history) && Truthful(b, a) && Proper(b, a) && b.status[a.dst] == Pending
    ensures Law(b.(status := b.status[a.dst := a.st], payload := b.payload[a.dst := a.v]), history + [a])
  {
    var c := b.(status := b.status[a.dst := a.st], payload := b.payload[a.dst := a.v]);
    forall e | e in history + [a] ensures Truthful(c, e) && Proper(c, e) {
      assert Truthful(b, e) && Proper(b, e);
    }
    hide Truthful, Proper;
    forall p | p in c.status
      ensures if c.status[p] == Pending then Untried(history + [a], p) else Decided(c, history + [a], p)
    {
      if p == a.dst {
        assert Untried(history, p);
        assert FirstAt(history + [a], |history|, p) && SettledAs(c, p, a.st, a.v);
      } else if b.status[p] != Pending {
        DecidedStill(b, c, history, a, p);
      }
    }
  }

  lemma DecidedStill(b: Book, c: Book, history: seq<Attempt>, a: Attempt, p: Promise)
    requires Decided(b, history, p) && p in b.status && p in b.payload
    requires p in c.status && p in c.payload && c.status[p] == b.status[p] && c.payload[p] == b.payload[p]
    ensures Decided(c, history + [a], p)
  {
    var k :| FirstAt(history, k, p) && SettledAs(b, p, history[k].st, history[k].v);
    assert FirstAt(history + [a], k, p) && (history + [a])[k] == history[k];
  }

  /** An attempt on a settled promise changes nothing. */
  lemma LawRepeated(b: Book, history: seq<Attempt>, a: Attempt)
    requires Law(b, history) && Truthful(b, a) && Proper(b, a) && b.status[a.dst] != Pending
    ensures Law(b, history + [a])
  {
    hide Truthful, Proper;
    assert a.dst in b.status by { TruthfulDomain(b, a); }
    forall p | p in b.status
      ensures if b.status[p] == Pending then Untried(history + [a], p) else Decided(b, history + [a], p)
    {
      if b.status[p] != Pending {
        assert Decided(b, history, p);
        DecidedStill(b, b, history, a, p);
      }
    }
  }

  lemma TruthfulDomain(b: Book, a: Attempt)
    requires Truthful(b, a)
    ensures a.dst in b.status && a.st != Pending
  {
  }

  /** A new promise has not been tried, nor, if it is one, has the `all` it is the result of. */
  ghost predicate Opened(b: Book, c: Book, r: Promise) {
    && r !in b.status && c.status == b.status[r := Pending] && (forall p :: p in b.payload ==> p in c.payload)
    && (forall p :: p in b.payload && p != r ==> c.payload[p] == b.payload[p])
    && (forall all :: all in b.entries ==> all in c.entries && c.entries[all] == b.entries[all])
    && (forall all :: all in b.result ==> all in c.result && c.result[all] == b.result[all])
    && (forall all :: all in c.result && all !in b.result ==> c.result[all] == r)
  }

  lemma LawOpened(b: Book, c: Book, history: seq<Attempt>, r: Promise)
    requires Law(b, history) && Opened(b, c, r)
    ensures Law(c, history)
  {
    forall e | e in history ensures Truthful(c, e) && Proper(c, e) {
      assert Truthful(b, e) && Proper(b, e);
    }
    assert Untried(history, r) by {
      forall e | e in history ensures e.dst != r { assert Truthful(b, e); }
    }
    hide Truthful, Proper;
    forall p | p in c.status ensures if c.status[p] == Pending then Untried(history, p) else Decided(c, history, p) {
      if p != r && b.status[p] != Pending {
        var k :| FirstAt(history, k, p) && SettledAs(b, p, history[k].st, history[k].v);
        assert SettledAs(c, p, history[k].st, history[k].v);
      }
    }
  }

  lemma OpenedAll(s: State, r: Promise, a: AllId, ps: seq<Promise>)
    requires Shape(s) && r !in s.status && a !in s.slots
    ensures Opened(BookOf(s), BookOf(AllAdded(s, r, a, ps)), r)
  {
  }

  lemma OpenedOne(s: State, p: Promise)
    requires Shape(s) && p !in s.status
    ensures Opened(BookOf(s), BookOf(Added(s, p)), p)
  {
  }

  // Callbacks run in turn ----------------------------------------------------------------------------------

  /** The attempt that callback `cb` of a promise settled with `st` and `v` makes, if it makes one. */
  ghost function Attempts(cb: Callback, p: Promise, st: Status, v: Value): seq<Attempt> {
    match cb
    case RaceCb(dst, adapt) => [Attempt(dst, st, if st == Fulfilled then adapt(v) else v, Entry(p, adapt))]
    case AllCb(dst, a, i) => if st == Rejected then [Attempt(dst, st, v, Input(a, i, p))] else []
  }

  /** The callbacks made their attempts one after the other, from entry `from` of the history on. */
  ghost predicate InTurn(cbs: seq<Callback>, p: Promise, st: Status, v: Value, history: seq<Attempt>, from: nat) {
    from <= |history| && (cbs == [] ||
      var front, made := cbs[..|cbs| - 1], Attempts(cbs[|cbs| - 1], p, st, v);
      if made == [] then InTurn(front, p, st, v, history, from)
      else exists m :: from <= m < |history| && history[m] == made[0] && InTurn(front, p, st, v, history[..m], from))
  }

  lemma {:induction false} InTurnLater(cbs: seq<Callback>, p: Promise, st: Status, v: Value, history: seq<Attempt>,
                                       from: nat, more: seq<Attempt>)
    requires InTurn(cbs, p, st, v, history, from) && history <= more
    ensures InTurn(cbs, p, st, v, more, from)
    decreases |cbs|
  {
    if cbs != [] {
      var front, made := cbs[..|cbs| - 1], Attempts(cbs[|cbs| - 1], p, st, v);
      if made == [] {
        InTurnLater(front, p, st, v, history, from, more);
      } else {
        var m :| from <= m < |history| && history[m] == made[0] && InTurn(front, p, st, v, history[..m], from);
        assert more[..m] == history[..m] && more[m] == history[m];
      }
    }
  }

  lemma NoTurnYet(cbs: seq<Callback>, p: Promise, st: Status, v: Value, history: seq<Attempt>)
    ensures InTurn(cbs[..0], p, st, v, history, |history|)
  {
  }

  /** One more callback has run. */
  lemma InTurnNext(s: State, p: Promise, i: nat, cbs: seq<Callback>, st: Status, v: Value, was: seq<Attempt>,
                   now: seq<Attempt>, from: nat)
    requires i < |cbs| && InTurn(cbs[..i], p, st, v, was, from) && was <= now
    requires CallbackLogged(s, p, i, was, now) && s.cbs[p] == cbs && s.status[p] == st && s.payload[p] == v
    ensures InTurn(cbs[..i + 1], p, st, v, now, from)
  {
    assert cbs[..i + 1][..i] == cbs[..i];
    var made := Attempts(cbs[i], p, st, v);
    if made == [] {
      InTurnLater(cbs[..i], p, st, v, was, from, now);
    } else {
      assert was + made <= now && now[|was|] == made[0] && now[..|was|] == was;
    }
  }

  // What the law means --------------------------------------------------------------------------------------

  /** A promise is settled exactly when somebody tried to settle it, and as the first who did. */
  lemma FirstAttemptWins(b: Book, history: seq<Attempt>, p: Promise)
    requires Law(b, history) && p in b.status
    ensures b.status[p] != Pending <==> exists a :: a in history && a.dst == p
    ensures forall k :: FirstAt(history, k, p) ==> SettledAs(b, p, history[k].st, history[k].v)
  {
    hide Truthful, Proper;
    if b.status[p] != Pending {
      var k :| FirstAt(history, k, p) && SettledAs(b, p, history[k].st, history[k].v);
      assert history[k] in history;
      forall j | FirstAt(history, j, p) ensures j == k {}
    } else {
      forall k | 0 <= k < |history| ensures history[k].dst != p { assert history[k] in history; }
    }
  }

  /** Entry `k` is the first an input of the `all` made, and carries that input's reason to the result. */
  ghost predicate RejectsAll(b: Book, history: seq<Attempt>, k: nat, all: AllId)
    requires k < |history| && all in b.result
  {
    && history[k].via.Input? && history[k].via.all == all && all in b.entries
    && history[k].via.idx < |b.entries[all]| && b.entries[all][history[k].via.idx] == history[k].via.src
    && history[k].via.src in b.payload && SettledAs(b, history[k].via.src, Rejected, b.payload[history[k].via.src])
    && SettledAs(b, b.result[all], Rejected, b.payload[history[k].via.src])
    && forall j :: 0 <= j < k ==> !(history[j].via.Input? && history[j].via.all == all)
  }

  /** The result of an `all` is rejected with the reason of the first of its inputs to be processed as a rejection:
      before that one, nobody tried to settle it. */
  lemma FirstRejectionIsReason(b: Book, history: seq<Attempt>, all: AllId)
    requires Law(b, history) && all in b.result && b.result[all] in b.status && b.status[b.result[all]] == Rejected
    ensures exists k :: FirstAt(history, k, b.result[all]) && RejectsAll(b, history, k, all)
  {
    var r := b.result[all];
    assert Decided(b, history, r);
    var k :| FirstAt(history, k, r) && SettledAs(b, r, history[k].st, history[k].v);
    assert history[k] in history && Truthful(b, history[k]) && Proper(b, history[k]);
    forall j | 0 <= j < k ensures !(history[j].via.Input? && history[j].via.all == all) {
      assert history[j] in history && Proper(b, history[j]);
    }
    assert RejectsAll(b, history, k, all);
  }

  /** A race is settled as its first entry to be processed was, converted if that one fulfilled. */
  lemma FirstEntryWins(b: Book, history: seq<Attempt>, k: nat, race: Promise)
    requires Law(b, history) && race in b.status && FirstAt(history, k, race) && history[k].via.Entry?
    ensures history[k].via.src in b.status && history[k].via.src in b.payload && b.status[history[k].via.src] != Pending
    ensures SettledAs(b, race, b.status[history[k].via.src],
                    if b.status[history[k].via.src] == Fulfilled
                    then history[k].via.adapt(b.payload[history[k].via.src])
                    else b.payload[history[k].via.src])
  {
    FirstAttemptWins(b, history, race);
    assert history[k] in history && Truthful(b, history[k]);
  }
}
