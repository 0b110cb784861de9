/** Opting npm packages into static compilation: those whose checks fail go back to the island until the rest passes. */
module Fallback {
  type Package = nat

  /** A diagnostic: whether it is a typecheck error, the opted-in package whose file it is in, if any, and the packages
      its message names. */
  datatype Diagnostic = Diagnostic(typecheck: bool, anchor: Option<Package>, names: set<Package>)
  datatype Option<T> = None | Some(value: T)

  /** What one load finds: the packages the resolution itself reports, and the preflight's diagnostics. */
  datatype Verdict = Verdict(offenders: seq<Package>, diags: seq<Diagnostic>)

  datatype Reason = Ineligible | Offended | Anchored | BreaksImports(sites: nat) | SurfaceBreaks
  datatype Status = Static(pkg: Package) | FellBack(pkg: Package, reason: Reason)

  /** The program the checker sees may answer differently each time it is loaded. */
  type Checker = (nat, seq<Package>) -> Verdict

  /** Explicit packages, or detected candidates with the eligibility bar's answer. */
  datatype Lane = NoOptIns | Explicit(pkgs: seq<Package>) | Auto(candidates: seq<Package>, eligible: Package -> bool)

  /** A run so far: the packages still opted in, the statuses given, the package set of every load made, and the loads
      disposed of. */
  datatype Run = Run(effective: seq<Package>, statuses: seq<Status>, made: seq<seq<Package>>, disposed: seq<nat>)

  /** The frontend's result: which load it returns, with its diagnostics, and the run that led to it. */
  datatype Result = Result(load: nat, preflight: seq<Diagnostic>, run: Run)

  predicate Distinct(s: seq<nat>) {
    forall i, j :: 0 <= i < j < |s| ==> s[i] != s[j]
  }

  function Count(statuses: seq<Status>, p: Package): nat {
    if statuses == [] then 0
    else Count(statuses[..|statuses| - 1], p) + if statuses[|statuses| - 1].pkg == p then 1 else 0
  }

  lemma CountPush(statuses: seq<Status>, t: Status, p: Package)
    ensures Count(statuses + [t], p) == Count(statuses, p) + if t.pkg == p then 1 else 0
  {
    assert (statuses + [t])[..|statuses|] == statuses;
  }

  predicate HasTypeError(diags: seq<Diagnostic>) {
    exists i :: 0 <= i < |diags| && diags[i].typecheck
  }

  /** The packages a lane asks for, and those it judges at all. */
  function Requested(lane: Lane): seq<Package> {
    match lane
    case NoOptIns => []
    case Explicit(pkgs) => Firsts(pkgs)
    case Auto(candidates, eligible) => Kept(Firsts(candidates), eligible)
  }

  function Judged(lane: Lane): seq<Package> {
    match lane case NoOptIns => [] case Explicit(pkgs) => pkgs case Auto(candidates, _) => candidates
  }

  /** First occurrences, in order. */
  function Firsts(s: seq<Package>): (r: seq<Package>)
    ensures Distinct(r) && forall p :: p in r <==> p in s
  {
    if s == [] then []
    else
      var q, last := Firsts(s[..|s| - 1]), s[|s| - 1];
      if last in s[..|s| - 1] then q else q + [last]
  }

  /** The members that pass, in order. */
  function Kept(s: seq<Package>, pass: Package -> bool): (r: seq<Package>)
    ensures forall p :: p in r <==> p in s && pass(p)
    ensures Distinct(s) ==> Distinct(r)
  {
    if s == [] then [] else Kept(s[..|s| - 1], pass) + if pass(s[|s| - 1]) then [s[|s| - 1]] else []
  }

  /** Each package that was opted in and is no more, and each that never was, has its one status. */
  ghost predicate Settled(statuses: seq<Status>, effective: seq<Package>, lane: Lane) {
    && (forall p :: Count(statuses, p) == if p in Judged(lane) && p !in effective then 1 else 0)
    && (forall i :: 0 <= i < |statuses| ==> statuses[i].FellBack?)
  }

  lemma SettledDrop(statuses: seq<Status>, effective: seq<Package>, lane: Lane, p: Package, reason: Reason,
                    rest: seq<Package>)
    requires Settled(statuses, effective, lane) && p in effective && p in Judged(lane)
    requires forall q :: q in rest <==> q in effective && q != p
    ensures Settled(statuses + [FellBack(p, reason)], rest, lane)
  {
    forall q ensures Count(statuses + [FellBack(p, reason)], q) == if q in Judged(lane) && q !in rest then 1 else 0 {
      CountPush(statuses, FellBack(p, reason), q);
    }
  }

  function Remove(s: seq<Package>, p: Package): (r: seq<Package>) {
    Kept(s, q => q != p)
  }

  /** All loads but the open one were disposed of, once each. */
  ghost predicate OneOpen(made: seq<seq<Package>>, disposed: seq<nat>, open: nat) {
    open < |made| && Distinct(disposed) && forall k: nat :: k in disposed <==> k < |made| && k != open
  }

  /** How many typecheck errors name a package. */
  function Sites(diags: seq<Diagnostic>, p: Package): nat {
    if diags == [] then 0
    else Sites(diags[..|diags| - 1], p) + if diags[|diags| - 1].typecheck && p in diags[|diags| - 1].names then 1 else 0
  }

  /** A load says nothing against any of these packages. */
  ghost predicate Clean(v: Verdict, effective: seq<Package>) {
    !HasTypeError(v.diags) && (forall p :: p in effective ==> p !in v.offenders)
    && forall i :: 0 <= i < |v.diags| && v.diags[i].anchor.Some? ==> v.diags[i].anchor.value !in effective
  }

  /** Why `p` is to be dropped after a load, if it is: its resolution offends, a diagnostic is in its files, or, when no
      package is blamed so, typecheck errors name it. */
  function Blame(v: Verdict, effective: seq<Package>, p: Package): Option<Reason> {
    if p in v.offenders then Some(Offended)
    else if InFiles(v.diags, p) then Some(Anchored)
    else if (exists q :: q in effective && (q in v.offenders || InFiles(v.diags, q))) then None
    else if Sites(v.diags, p) > 0 then Some(BreaksImports(Sites(v.diags, p)))
    else None
  }

  /** A load blames nobody opted in: none of them is an offender or has a diagnostic in its files, and no typecheck
      error names one. */
  ghost predicate BlamesNobody(v: Verdict, on: seq<Package>) {
    forall p :: p in on ==> (p !in v.offenders && forall i :: 0 <= i < |v.diags| ==>
      (v.diags[i].anchor != Some(p) && !(v.diags[i].typecheck && p in v.diags[i].names)))
  }

  lemma BlamesNobodyIff(v: Verdict, on: seq<Package>)
    ensures BlamesNobody(v, on) <==> forall p :: p in on ==> Blame(v, on, p).None?
  {
    forall p ensures Sites(v.diags, p) == |Naming(v.diags, p)| { SitesCounted(v.diags, p); }
    if BlamesNobody(v, on) {
      forall p | p in on ensures Blame(v, on, p).None? { NamedByNone(v.diags, p); }
    } else {
      var p :| p in on && !(p !in v.offenders && forall i :: 0 <= i < |v.diags| ==>
        (v.diags[i].anchor != Some(p) && !(v.diags[i].typecheck && p in v.diags[i].names)));
      if p !in v.offenders && !InFiles(v.diags, p) {
        var i :| 0 <= i < |v.diags| && v.diags[i].typecheck && p in v.diags[i].names;
        assert i in Naming(v.diags, p);
        assert Naming(v.diags, p) != {};
      }
    }
  }

  /** Which diagnostics are typecheck errors that name `p`. */
  function Naming(diags: seq<Diagnostic>, p: Package): set<nat> {
    set i: nat | i < |diags| && diags[i].typecheck && p in diags[i].names
  }

  lemma NamedByNone(diags: seq<Diagnostic>, p: Package)
    requires forall i :: 0 <= i < |diags| ==> !(diags[i].typecheck && p in diags[i].names)
    ensures Naming(diags, p) == {}
  {
  }

  lemma {:induction false} SitesCounted(diags: seq<Diagnostic>, p: Package)
    ensures Sites(diags, p) == |Naming(diags, p)|
  {
    if diags != [] {
      var n := |diags| - 1;
      SitesCounted(diags[..n], p);
      assert Naming(diags, p) == Naming(diags[..n], p)
                                 + if diags[n].typecheck && p in diags[n].names then {n} else {};
      assert n !in Naming(diags[..n], p);
    } else {
      assert Naming(diags, p) == {};
    }
  }

  /** Blame goes to the resolution's offenders first, then to diagnostics in a package's files; only when no opted-in
      package is blamed in either way do the typecheck errors that name a package count, each once. */
  lemma BlameMeans(v: Verdict, on: seq<Package>, p: Package)
    ensures Blame(v, on, p) == Some(Offended) <==> p in v.offenders
    ensures Blame(v, on, p) == Some(Anchored) <==>
      p !in v.offenders && exists i :: 0 <= i < |v.diags| && v.diags[i].anchor == Some(p)
    ensures forall n :: Blame(v, on, p) == Some(BreaksImports(n)) <==>
      (n == |Naming(v.diags, p)| > 0 && p !in v.offenders
       && (forall q :: q in on || q == p ==> q !in v.offenders)
       && forall i, q :: 0 <= i < |v.diags| && (q in on || q == p) ==> v.diags[i].anchor != Some(q))
    ensures Blame(v, on, p).Some? ==>
      Blame(v, on, p).value != Ineligible && Blame(v, on, p).value != SurfaceBreaks
  {
    SitesCounted(v.diags, p);
  }

  predicate InFiles(diags: seq<Diagnostic>, p: Package) {
    exists i :: 0 <= i < |diags| && diags[i].anchor == Some(p)
  }

  // The loops -----------------------------------------------------------------------------------------------

  /** Each package at most once, with its reason. */
  datatype Reasons = Reasons(keys: seq<Package>, why: map<Package, Reason>)

  ghost predicate Wf(r: Reasons) {
    Distinct(r.keys) && forall p :: p in r.keys <==> p in r.why
  }

  function Set(r: Reasons, p: Package, why: Reason): (q: Reasons)
    requires Wf(r)
    ensures Wf(q) && forall k :: k in q.why <==> k in r.why || k == p
    ensures q.why == r.why[p := why]
  {
    Reasons(if p in r.why then r.keys else r.keys + [p], r.why[p := why])
  }

  /** What a load blames directly. */
  method Direct(v: Verdict) returns (r: Reasons)
    ensures Wf(r) && forall p :: p in r.why <==> p in v.offenders || InFiles(v.diags, p)
    ensures forall p :: p in r.why ==> r.why[p] == if p in v.offenders then Offended else Anchored
  {
    r := Reasons([], map[]);
    var i := 0;
    while i < |v.offenders|
      invariant i <= |v.offenders| && Wf(r) && forall p :: p in r.why <==> p in v.offenders[..i]
      invariant forall p :: p in r.why ==> r.why[p] == Offended
    {
      assert v.offenders[..i + 1] == v.offenders[..i] + [v.offenders[i]];
      r := Set(r, v.offenders[i], Offended);
      i := i + 1;
    }
    assert v.offenders[..i] == v.offenders;
    i := 0;
    while i < |v.diags|
      invariant i <= |v.diags| && Wf(r) && forall p :: p in r.why <==> p in v.offenders || InFiles(v.diags[..i], p)
      invariant forall p :: p in r.why ==> r.why[p] == if p in v.offenders then Offended else Anchored
    {
      var d := v.diags[i];
      FilesNext(v.diags, i);
      if d.anchor.Some? && d.anchor.value !in r.why { r := Set(r, d.anchor.value, Anchored); }
      i := i + 1;
    }
    assert v.diags[..i] == v.diags;
  }

  lemma FilesNext(diags: seq<Diagnostic>, i: nat)
    requires i < |diags|
    ensures forall p: Package :: InFiles(diags[..i + 1], p) <==> InFiles(diags[..i], p) || diags[i].anchor == Some(p)
  {
    forall p: Package ensures InFiles(diags[..i + 1], p) <==> InFiles(diags[..i], p) || diags[i].anchor == Some(p) {
      if InFiles(diags[..i], p) {
        var k :| 0 <= k < i && diags[..i][k].anchor == Some(p);
        assert diags[..i + 1][k].anchor == Some(p);
      }
      if diags[i].anchor == Some(p) { assert diags[..i + 1][i].anchor == Some(p); }
      if InFiles(diags[..i + 1], p) {
        var k :| 0 <= k < i + 1 && diags[..i + 1][k].anchor == Some(p);
        if k < i { assert diags[..i][k].anchor == Some(p); }
      }
    }
  }

  method CountSites(diags: seq<Diagnostic>, p: Package) returns (n: nat)
    ensures n == Sites(diags, p)
  {
    n := 0;
    var i := 0;
    assert diags[..0] == [];
    while i < |diags|
      invariant i <= |diags| && n == Sites(diags[..i], p)
    {
      assert diags[..i + 1][..i] == diags[..i];
      if diags[i].typecheck && p in diags[i].names { n := n + 1; }
      i := i + 1;
    }
    assert diags[..i] == diags;
  }

  /** The packages to drop after a load. */
  method Blamed(v: Verdict, effective: seq<Package>) returns (dropping: seq<Package>, why: map<Package, Reason>)
    requires Distinct(effective)
    ensures Distinct(dropping) && forall p :: p in dropping <==> p in effective && Blame(v, effective, p).Some?
    ensures forall p :: p in dropping ==> p in why && Blame(v, effective, p) == Some(why[p])
  {
    var r := Direct(v);
    var any := false;
    var i := 0;
    while i < |r.keys|
      invariant i <= |r.keys| && (any <==> exists k :: 0 <= k < i && r.keys[k] in effective)
    {
      if r.keys[i] in effective { any := true; }
      i := i + 1;
    }
    assert any <==> exists q :: q in effective && (q in v.offenders || InFiles(v.diags, q));
    if !any { r := Named(r, v, effective); }
    hide Sites, Wf;
    dropping, why := Kept(r.keys, p => p in effective), r.why;
    assert Distinct(r.keys) && forall p :: p in r.keys <==> p in r.why by { KeysOf(r); }
  }

  lemma KeysOf(r: Reasons)
    requires Wf(r)
    ensures Distinct(r.keys) && forall p :: p in r.keys <==> p in r.why
  {
  }

  /** Adds the packages that typecheck errors name. */
  method Named(direct: Reasons, v: Verdict, effective: seq<Package>) returns (r: Reasons)
    requires Wf(direct) && forall p :: p in effective ==> p !in direct.why
    ensures Wf(r) && forall p :: p in r.why <==> p in direct.why || (p in effective && Sites(v.diags, p) > 0)
    ensures forall p :: p in r.why && p in effective ==> r.why[p] == BreaksImports(Sites(v.diags, p))
  {
    hide Sites, Wf;
    r := direct;
    var i := 0;
    while i < |effective|
      invariant i <= |effective| && Wf(r)
      invariant forall p :: p in r.why <==> p in direct.why || (p in effective[..i] && Sites(v.diags, p) > 0)
      invariant forall p :: p in r.why && p in effective ==> r.why[p] == BreaksImports(Sites(v.diags, p))
    {
      assert effective[..i + 1] == effective[..i] + [effective[i]];
      var n := CountSites(v.diags, effective[i]);
      if n > 0 { r := Set(r, effective[i], BreaksImports(n)); }
      i := i + 1;
    }
    assert effective[..i] == effective;
  }

  /** Load `k`, which was made, had `p` opted in. */
  ghost predicate LoadedWith(made: seq<seq<Package>>, k: nat, p: Package) {
    k < |made| && p in made[k]
  }

  /** Why `p` fell back: it was not eligible, a load made with it opted in blames it so, or a load made with it opted in
      did not typecheck. */
  ghost predicate Cause(lane: Lane, check: Checker, made: seq<seq<Package>>, p: Package, reason: Reason) {
    match reason
    case Ineligible => lane.Auto? && !lane.eligible(p)
    case SurfaceBreaks => exists k: nat :: LoadedWith(made, k, p) && HasTypeError(check(k, made[k]).diags)
    case _ => exists k: nat :: LoadedWith(made, k, p) && Blame(check(k, made[k]), made[k], p) == Some(reason)
  }

  ghost predicate Caused(lane: Lane, check: Checker, g: Run) {
    forall i :: 0 <= i < |g.statuses| && g.statuses[i].FellBack? ==>
      Cause(lane, check, g.made, g.statuses[i].pkg, g.statuses[i].reason)
  }

  /** A cause found in earlier loads stays one. */
  lemma CauseLater(lane: Lane, check: Checker, made: seq<seq<Package>>, on: seq<Package>, p: Package, reason: Reason)
    requires Cause(lane, check, made, p, reason)
    ensures Cause(lane, check, made + [on], p, reason)
  {
    if reason == SurfaceBreaks {
      var k: nat :| LoadedWith(made, k, p) && HasTypeError(check(k, made[k]).diags);
      assert LoadedWith(made + [on], k, p);
    } else if reason != Ineligible {
      var k: nat :| LoadedWith(made, k, p) && Blame(check(k, made[k]), made[k], p) == Some(reason);
      assert LoadedWith(made + [on], k, p);
    }
  }

  lemma LastCause(lane: Lane, check: Checker, made: seq<seq<Package>>, p: Package, reason: Reason)
    requires made != [] && p in made[|made| - 1]
    requires var on := made[|made| - 1]; var v := check(|made| - 1, on);
      if reason == SurfaceBreaks then HasTypeError(v.diags) else reason != Ineligible && Blame(v, on, p) == Some(reason)
    ensures Cause(lane, check, made, p, reason)
  {
    assert LoadedWith(made, |made| - 1, p);
  }

  /** What holds of a run while load `open` is the one in use. */
  ghost predicate Going(lane: Lane, check: Checker, g: Run, open: nat) {
    && Distinct(g.effective) && (forall p :: p in g.effective ==> p in Requested(lane))
    && Settled(g.statuses, g.effective, lane) && OneOpen(g.made, g.disposed, open) && Caused(lane, check, g)
  }

  lemma GoingDrop(lane: Lane, check: Checker, g: Run, open: nat, p: Package, reason: Reason)
    requires Going(lane, check, g, open) && p in g.effective && Cause(lane, check, g.made, p, reason)
    ensures Going(lane, check, Dropped(g, p, reason), open)
    ensures |Dropped(g, p, reason).effective| < |g.effective|
  {
    RequestedJudged(lane);
    SettledDrop(g.statuses, g.effective, lane, p, reason, Remove(g.effective, p));
    KeptShorter(g.effective, p);
  }

  /** A package goes back to the island. */
  function Dropped(g: Run, p: Package, reason: Reason): (r: Run)
    ensures forall q :: q in r.effective <==> q in g.effective && q != p
    ensures r.made == g.made && r.disposed == g.disposed && r.statuses == g.statuses + [FellBack(p, reason)]
  {
    g.(effective := Remove(g.effective, p), statuses := g.statuses + [FellBack(p, reason)])
  }

  lemma {:induction false} KeptShorter(s: seq<Package>, p: Package)
    ensures |Remove(s, p)| <= |s| && (p in s ==> |Remove(s, p)| < |s|)
  {
    if s != [] { KeptShorter(s[..|s| - 1], p); }
  }

  lemma RequestedJudged(lane: Lane)
    ensures forall p :: p in Requested(lane) ==> p in Judged(lane)
    ensures Distinct(Requested(lane))
  {
  }

  lemma DistinctPush(s: seq<nat>, x: nat)
    requires Distinct(s) && x !in s
    ensures Distinct(s + [x]) && forall k :: k in s + [x] <==> k in s || k == x
  {
  }

  /** The load in use is disposed of and another takes its place. */
  function Reloaded(g: Run, open: nat): Run {
    g.(made := g.made + [g.effective], disposed := g.disposed + [open])
  }

  lemma GoingReload(lane: Lane, check: Checker, g: Run, open: nat)
    requires Going(lane, check, g, open)
    ensures Going(lane, check, Reloaded(g, open), |g.made|)
  {
    DistinctPush(g.disposed, open);
    CausedLater(lane, check, g, g.effective);
    hide Settled, Cause;
  }

  lemma CausedLater(lane: Lane, check: Checker, g: Run, on: seq<Package>)
    requires Caused(lane, check, g)
    ensures forall d :: Caused(lane, check, g.(made := g.made + [on], disposed := d))
  {
    forall i | 0 <= i < |g.statuses| && g.statuses[i].FellBack?
      ensures Cause(lane, check, g.made + [on], g.statuses[i].pkg, g.statuses[i].reason)
    {
      CauseLater(lane, check, g.made, on, g.statuses[i].pkg, g.statuses[i].reason);
    }
    hide Cause;
  }

  // The whole run -------------------------------------------------------------------------------------------

  /** One round of the fallback loop: a load blames packages; those fall back for it, and the next load is of the
      rest. */
  ghost predicate FellAt(v: Verdict, on: seq<Package>, rest: seq<Package>, statuses: seq<Status>) {
    && !BlamesNobody(v, on)
    && (forall p :: p in rest <==> p in on && Blame(v, on, p).None?)
    && (forall p :: p in on && p !in rest ==> FellBack(p, Blame(v, on, p).value) in statuses)
  }

  /** The fallback loop made the loads from `first` to `last`. */
  ghost predicate Fell(check: Checker, g: Run, first: nat, last: nat) {
    && first <= last < |g.made|
    && forall j: nat :: first <= j < last ==> FellAt(check(j, g.made[j]), g.made[j], g.made[j + 1], g.statuses)
  }

  /** The last resort after load `last`: its packages are probed alone, one load each. Those whose probe has a type
      error fall back and the rest is loaded again; when that load has one too, the rest falls back and a last load is
      made of nothing. */
  ghost predicate ProbedFrom(check: Checker, g: Run, last: nat, load: nat)
    requires last < |g.made|
  {
    var on := g.made[last];
    var again := last + |on| + 1;
    && again <= load < |g.made|
    && (forall i: nat :: i < |on| ==> g.made[last + 1 + i] == [on[i]])
    && (forall i: nat :: i < |on| ==> (on[i] in g.made[again] <==> !HasTypeError(check(last + 1 + i, [on[i]]).diags)))
    && (forall p :: p in g.made[again] ==> p in on)
    && ((forall p :: p in on ==> p in g.made[again]) ==> g.made[again] == on)
    && (forall p :: p in on && p !in g.made[load] ==> FellBack(p, SurfaceBreaks) in g.statuses)
    && load == (if g.made[again] != [] && HasTypeError(check(again, g.made[again]).diags) then again + 1 else again)
    && (load > again ==> g.made[load] == [])
  }

  /** No probe was made: nobody fell back for the type errors of the program. */
  ghost predicate NoneProbed(statuses: seq<Status>) {
    forall t :: t in statuses && t.FellBack? ==> t.reason != SurfaceBreaks
  }

  /** The whole run up to load `load`. The fallback loop ends with load `last`, the first that blames nobody; probes are
      made exactly when that load has a type error and a package left, and only its packages fall back for them. */
  ghost predicate Ran(lane: Lane, check: Checker, g: Run, last: nat, load: nat) {
    && Fell(check, g, FirstLoad(lane), last) && g.made[FirstLoad(lane)] == Requested(lane) && |g.made| == load + 1
    && BlamesNobody(check(last, g.made[last]), g.made[last])
    && (if g.made[last] != [] && HasTypeError(check(last, g.made[last]).diags) then ProbedFrom(check, g, last, load)
        else load == last && NoneProbed(g.statuses))
    && (forall t :: t in g.statuses && t.FellBack? && t.reason == SurfaceBreaks ==> t.pkg in g.made[last])
  }

  /** What stayed static was not blamed: when no package fell back for the type errors of the program, the load that is
      returned blames nobody in the final set. The checker answers alike whenever the same packages are opted in. */
  lemma StaticUnblamed(lane: Lane, check: Checker, r: Result, last: nat)
    requires Good(lane, check, r) && Ran(lane, check, r.run, last, r.load) && NoneProbed(r.run.statuses)
    requires forall i, j, on :: check(i, on) == check(j, on)
    ensures r.load == last && BlamesNobody(check(r.load, r.run.effective), r.run.effective)
  {
    if r.run.made[last] != [] && HasTypeError(check(last, r.run.made[last]).diags) {
      AllPassed(check, r.run, last, r.load);
      assert false;
    }
  }

  /** Probes that nobody falls back for are followed by one load of the same packages, without a type error. */
  lemma AllPassed(check: Checker, g: Run, last: nat, load: nat)
    requires last < |g.made| && g.made[last] != [] && ProbedFrom(check, g, last, load) && NoneProbed(g.statuses)
    ensures load < |g.made| && g.made[load] == g.made[last] && !HasTypeError(check(load, g.made[last]).diags)
  {
    hide HasTypeError;
    var on := g.made[last];
    assert forall p :: FellBack(p, SurfaceBreaks) !in g.statuses;
    assert forall p :: p in on ==> p in g.made[load];
    assert on[0] in on;
  }

  /** With a checker that changes its mind it is not so: every probe passes, and the last load offends. */
  lemma AnswersMayChange(r: Result)
    requires r == Result(2, [], Run([0], [Static(0)], [[0], [0], [0]], [1, 0]))
    ensures Good(Explicit([0]), Fickle, r) && Ran(Explicit([0]), Fickle, r.run, 0, r.load) && NoneProbed(r.run.statuses)
    ensures !BlamesNobody(Fickle(r.load, r.run.effective), r.run.effective)
  {
    hide Good, Ran, BlamesNobody, Fickle;
    FickleGood(r);
    FickleRan(r.run);
    FickleLast();
  }

  function Fickle(load: nat, on: seq<Package>): Verdict {
    Verdict(if load < 2 then [] else [0], if load == 0 then [Diagnostic(true, None, {})] else [])
  }

  lemma FickleLast()
    ensures !BlamesNobody(Fickle(2, [0]), [0])
  {
    assert 0 in Fickle(2, [0]).offenders;
  }

  lemma FickleGood(r: Result)
    requires r == Result(2, [], Run([0], [Static(0)], [[0], [0], [0]], [1, 0]))
    ensures Good(Explicit([0]), Fickle, r)
  {
    OneFirst();
    forall p ensures Count([Static(0)], p) == if p == 0 then 1 else 0 { assert [Static(0)] == [] + [Static(0)]; }
  }

  lemma FickleRan(g: Run)
    requires g == Run([0], [Static(0)], [[0], [0], [0]], [1, 0])
    ensures Ran(Explicit([0]), Fickle, g, 0, 2)
  {
    FickleFirst();
    FickleProbed(g);
    hide ProbedFrom, Requested, HasTypeError, BlamesNobody, Fickle;
    assert g.made[0] == [0];
  }

  lemma FickleFirst()
    ensures Requested(Explicit([0])) == [0] && FirstLoad(Explicit([0])) == 0
    ensures HasTypeError(Fickle(0, [0]).diags) && BlamesNobody(Fickle(0, [0]), [0])
  {
    OneFirst();
    hide Firsts;
    assert Fickle(0, [0]).diags[0].typecheck;
  }

  lemma OneFirst()
    ensures Firsts([0]) == [0]
  {
    assert [0][..0] == [];
  }

  lemma FickleProbed(g: Run)
    requires g == Run([0], [Static(0)], [[0], [0], [0]], [1, 0])
    ensures ProbedFrom(Fickle, g, 0, 2)
  {
    assert g.made[0] == [0];
  }

  lemma FellFurther(check: Checker, g: Run, h: Run, first: nat, last: nat)
    requires Fell(check, g, first, last) && g.made <= h.made && g.statuses <= h.statuses
    ensures Fell(check, h, first, last)
  {
    forall j: nat | first <= j < last ensures FellAt(check(j, h.made[j]), h.made[j], h.made[j + 1], h.statuses) {
      assert FellAt(check(j, g.made[j]), g.made[j], g.made[j + 1], g.statuses);
    }
  }

  /** A round of the loop: `dropping` fell back and the rest was loaded. */
  lemma FellNext(check: Checker, g: Run, h: Run, first: nat, dropping: seq<Package>, why: map<Package, Reason>)
    requires g.made != [] && Fell(check, g, first, |g.made| - 1) && g.effective == g.made[|g.made| - 1]
    requires h.made == g.made + [h.effective] && dropping != []
    requires var v := check(|g.made| - 1, g.effective);
      (forall p :: p in dropping <==> p in g.effective && Blame(v, g.effective, p).Some?)
      && forall p :: p in dropping ==> p in why && Blame(v, g.effective, p) == Some(why[p])
    requires forall p :: p in h.effective <==> p in g.effective && p !in dropping
    requires h.statuses == g.statuses + Notes(dropping, why)
    ensures Fell(check, h, first, |h.made| - 1)
  {
    var last := |g.made| - 1;
    var v := check(last, g.effective);
    FellFurther(check, g, h, first, last);
    BlamesNobodyIff(v, g.effective);
    FirstIn(dropping);
    forall p | p in g.effective && p !in h.effective
      ensures FellBack(p, Blame(v, g.effective, p).value) in h.statuses
    {
      var k :| 0 <= k < |dropping| && dropping[k] == p;
      assert Notes(dropping, why)[k] == FellBack(p, why[p]);
    }
    assert FellAt(v, g.effective, h.effective, h.statuses);
    hide FellAt;
  }

  /** One note for each dropped package, in their order. */
  function Notes(dropping: seq<Package>, why: map<Package, Reason>): seq<Status>
    requires forall p :: p in dropping ==> p in why
  {
    seq(|dropping|, i requires 0 <= i < |dropping| => FellBack(dropping[i], why[dropping[i]]))
  }

  /** Drops packages, each with its reason. */
  method Drop(ghost lane: Lane, ghost check: Checker, g0: Run, ghost open: nat, dropping: seq<Package>,
              why: map<Package, Reason>) returns (g: Run)
    requires Going(lane, check, g0, open) && Distinct(dropping)
    requires forall p :: p in dropping ==> p in g0.effective && p in why && Cause(lane, check, g0.made, p, why[p])
    ensures Going(lane, check, g, open) && g.made == g0.made && g.disposed == g0.disposed
    ensures g.statuses == g0.statuses + Notes(dropping, why)
    ensures forall p :: p in g.effective <==> p in g0.effective && p !in dropping
    ensures |g.effective| <= |g0.effective| && (dropping != [] ==> |g.effective| < |g0.effective|)
  {
    hide Going, Cause;
    g := g0;
    var i := 0;
    while i < |dropping|
      invariant i <= |dropping| && Going(lane, check, g, open) && g.made == g0.made && g.disposed == g0.disposed
      invariant g.statuses == g0.statuses + Notes(dropping, why)[..i]
      invariant forall p :: p in g.effective <==> p in g0.effective && p !in dropping[..i]
      invariant |g.effective| <= |g0.effective| && (i > 0 ==> |g.effective| < |g0.effective|)
    {
      assert dropping[..i + 1] == dropping[..i] + [dropping[i]];
      assert dropping[i] in dropping && dropping[i] !in dropping[..i];
      assert Notes(dropping, why)[..i + 1] == Notes(dropping, why)[..i] + [FellBack(dropping[i], why[dropping[i]])];
      GoingDrop(lane, check, g, open, dropping[i], why[dropping[i]]);
      g := Dropped(g, dropping[i], why[dropping[i]]);
      i := i + 1;
    }
    assert dropping[..i] == dropping && Notes(dropping, why)[..i] == Notes(dropping, why);
  }

  /** First occurrences, in order: an explicit list, or the packages of a scout's import edges. */
  method Unique(s: seq<Package>) returns (r: seq<Package>)
    ensures r == Firsts(s)
  {
    r := [];
    var i := 0;
    assert s[..0] == [];
    while i < |s|
      invariant i <= |s| && r == Firsts(s[..i])
    {
      assert s[..i + 1][..i] == s[..i];
      if s[i] !in s[..i] { r := r + [s[i]]; }
      i := i + 1;
    }
    assert s[..i] == s;
  }

  /** The scout's candidates that pass the eligibility bar; the others fall back at once. */
  method Detect(candidates: seq<Package>, eligible: Package -> bool)
    returns (requested: seq<Package>, statuses: seq<Status>)
    ensures requested == Requested(Auto(candidates, eligible))
    ensures Settled(statuses, requested, Auto(candidates, eligible))
    ensures forall k :: 0 <= k < |statuses| ==> statuses[k].FellBack? && statuses[k].reason == Ineligible
    ensures forall k :: 0 <= k < |statuses| ==> !eligible(statuses[k].pkg)
  {
    var seen := Unique(candidates);
    requested, statuses := [], [];
    var i := 0;
    assert seen[..0] == [];
    SortedNone(eligible);
    hide SortedOut;
    while i < |seen|
      invariant i <= |seen| && SortedOut(seen[..i], eligible, requested, statuses)
    {
      SortedNext(seen, i, eligible, requested, statuses);
      if eligible(seen[i]) {
        requested := requested + [seen[i]];
      } else {
        statuses := statuses + [FellBack(seen[i], Ineligible)];
      }
      i := i + 1;
    }
    assert seen[..i] == seen;
    SortedAll(seen, eligible, requested, statuses);
  }

  /** The eligible ones of `s` requested, the others settled. */
  ghost predicate SortedOut(s: seq<Package>, eligible: Package -> bool, requested: seq<Package>,
                            statuses: seq<Status>) {
    && requested == Kept(s, eligible)
    && (forall k :: 0 <= k < |statuses| ==>
          statuses[k].FellBack? && statuses[k].reason == Ineligible && !eligible(statuses[k].pkg))
    && forall p :: Count(statuses, p) == if p in s && !eligible(p) then 1 else 0
  }

  lemma SortedNone(eligible: Package -> bool)
    ensures SortedOut([], eligible, [], [])
  {
  }

  lemma SortedNext(s: seq<Package>, i: nat, eligible: Package -> bool, requested: seq<Package>, statuses: seq<Status>)
    requires i < |s| && Distinct(s) && SortedOut(s[..i], eligible, requested, statuses)
    ensures if eligible(s[i]) then SortedOut(s[..i + 1], eligible, requested + [s[i]], statuses)
      else SortedOut(s[..i + 1], eligible, requested, statuses + [FellBack(s[i], Ineligible)])
  {
    hide Kept, Count;
    assert s[..i + 1] == s[..i] + [s[i]];
    assert s[i] !in s[..i];
    hide Distinct;
    KeptNext(s[..i], s[i], eligible);
    if !eligible(s[i]) { CountPushAll(statuses, FellBack(s[i], Ineligible)); }
  }

  lemma SortedAll(seen: seq<Package>, eligible: Package -> bool, requested: seq<Package>, statuses: seq<Status>)
    requires SortedOut(seen, eligible, requested, statuses)
    ensures forall candidates :: Firsts(candidates) == seen ==> (requested == Requested(Auto(candidates, eligible))
      && Settled(statuses, requested, Auto(candidates, eligible)))
    ensures forall k :: 0 <= k < |statuses| ==> statuses[k].FellBack? && statuses[k].reason == Ineligible
    ensures forall k :: 0 <= k < |statuses| ==> !eligible(statuses[k].pkg)
  {
    hide Count;
  }

  lemma KeptNext(s: seq<Package>, p: Package, pass: Package -> bool)
    ensures Kept(s + [p], pass) == if pass(p) then Kept(s, pass) + [p] else Kept(s, pass)
  {
    assert (s + [p])[..|s|] == s;
  }

  lemma CountPushAll(statuses: seq<Status>, t: Status)
    ensures forall p :: Count(statuses + [t], p) == Count(statuses, p) + if t.pkg == p then 1 else 0
  {
    forall p ensures Count(statuses + [t], p) == Count(statuses, p) + if t.pkg == p then 1 else 0 {
      CountPush(statuses, t, p);
    }
  }

  /** The packages to try, after the load of a scout, and the first load of all of them. */
  method Start(lane: Lane, ghost check: Checker) returns (g: Run)
    ensures g.effective == Requested(lane) && |g.made| == FirstLoad(lane) + 1 && g.made[FirstLoad(lane)] == g.effective
    ensures Going(lane, check, g, FirstLoad(lane))
    ensures forall t :: t in g.statuses ==> t.FellBack? && t.reason == Ineligible
  {
    var requested, statuses: seq<Status>, scouts: seq<seq<Package>>, disposed: seq<nat> := [], [], [], [];
    RequestedJudged(lane);
    NothingSettled(lane);
    hide Settled, Distinct, Requested, OneOpen, Count;
    match lane {
      case NoOptIns =>
      case Explicit(pkgs) =>
        requested := Unique(pkgs);
      case Auto(candidates, eligible) =>
        requested, statuses := Detect(candidates, eligible);
        scouts, disposed := [[]], [0];
    }
    g := Run(requested, statuses, scouts + [requested], disposed);
    assert OneOpen(g.made, disposed, FirstLoad(lane)) by { FirstIsOpen(g.made, disposed, lane); }
  }

  lemma NothingSettled(lane: Lane)
    ensures !lane.Auto? ==> Settled([], Requested(lane), lane)
    ensures lane == NoOptIns ==> Requested(lane) == []
    ensures lane.Explicit? ==> Requested(lane) == Firsts(lane.pkgs)
    ensures lane.Auto? ==> lane == Auto(lane.candidates, lane.eligible)
  {
  }

  lemma FirstIsOpen(made: seq<seq<Package>>, disposed: seq<nat>, lane: Lane)
    requires |made| == FirstLoad(lane) + 1 && disposed == if lane.Auto? then [0] else []
    ensures OneOpen(made, disposed, FirstLoad(lane))
  {
  }

  method TypeErrors(diags: seq<Diagnostic>) returns (any: bool)
    ensures any == HasTypeError(diags)
  {
    any := false;
    var i := 0;
    while i < |diags|
      invariant i <= |diags| && (any <==> exists k :: 0 <= k < i && diags[k].typecheck)
    {
      if diags[i].typecheck { any := true; }
      i := i + 1;
    }
  }

  /** The first `i` packages have been probed alone, and those that failed fell back. */
  ghost predicate Probing(check: Checker, g0: Run, g: Run, i: nat) {
    && i <= |g0.effective| && g0.made <= g.made && |g.made| == |g0.made| + i && g0.statuses <= g.statuses
    && (forall k: nat :: k < i ==> g.made[|g0.made| + k] == [g0.effective[k]])
    && (forall k: nat :: k < i ==>
          (g0.effective[k] in g.effective <==> !HasTypeError(check(|g0.made| + k, [g0.effective[k]]).diags)))
    && (forall k: nat :: i <= k < |g0.effective| ==> g0.effective[k] in g.effective)
    && (forall p :: p in g.effective ==> p in g0.effective)
    && ((forall p :: p in g0.effective ==> p in g.effective) ==> g.effective == g0.effective)
    && (forall k: nat :: |g0.statuses| <= k < |g.statuses| ==> g.statuses[k].pkg in g0.effective)
    && (forall p :: p in g0.effective && p !in g.effective ==> FellBack(p, SurfaceBreaks) in g.statuses)
  }

  lemma ProbingNext(check: Checker, g0: Run, g: Run, i: nat)
    requires Probing(check, g0, g, i) && i < |g0.effective| && Distinct(g0.effective)
    ensures var p := g0.effective[i];
      var t := Probed(g, [p]);
      if HasTypeError(check(|g.made|, [p]).diags) then Probing(check, g0, Dropped(t, p, SurfaceBreaks), i + 1)
      else Probing(check, g0, t, i + 1)
  {
    hide HasTypeError;
    var p := g0.effective[i];
    var t := Probed(g, [p]);
    if HasTypeError(check(|g.made|, [p]).diags) {
      var u := Dropped(t, p, SurfaceBreaks);
      assert p in g0.effective && p !in u.effective;
      forall q | q in g0.effective && q !in u.effective ensures FellBack(q, SurfaceBreaks) in u.statuses {
        if q == p { assert u.statuses[|t.statuses|] == FellBack(p, SurfaceBreaks); }
      }
    }
  }

  /** Each package is probed alone, those that fail are dropped. Probe loads are disposed of at once, while the load in
      use stays open. */
  method ProbeEach(ghost lane: Lane, check: Checker, g0: Run, ghost open: nat) returns (g: Run)
    requires Going(lane, check, g0, open)
    ensures Going(lane, check, g, open) && Probing(check, g0, g, |g0.effective|)
  {
    hide Going, HasTypeError, Requested, Judged, Remove, Cause, Caused, Probing;
    g := g0;
    GoingDistinct(lane, check, g, open);
    assert Probing(check, g0, g, 0) by { NoneProbedYet(check, g0); }
    var i := 0;
    while i < |g0.effective|
      invariant i <= |g0.effective| && Going(lane, check, g, open) && Probing(check, g0, g, i)
    {
      var p := g0.effective[i];
      var probe := check(|g.made|, [p]);
      ProbingNext(check, g0, g, i);
      StillIn(check, g0, g, i);
      GoingProbe(lane, check, g, open, [p]);
      g := Probed(g, [p]);
      var bad := TypeErrors(probe.diags);
      if bad {
        LastCause(lane, check, g.made, p, SurfaceBreaks);
        GoingDrop(lane, check, g, open, p, SurfaceBreaks);
        g := Dropped(g, p, SurfaceBreaks);
      }
      i := i + 1;
    }
  }

  lemma NoneProbedYet(check: Checker, g: Run)
    ensures Probing(check, g, g, 0)
  {
  }

  lemma StillIn(check: Checker, g0: Run, g: Run, i: nat)
    requires Probing(check, g0, g, i) && i < |g0.effective|
    ensures g0.effective[i] in g.effective
  {
  }

  /** The last resort: the packages are probed, and if the rest still fails together everything is dropped. */
  method Probe(lane: Lane, check: Checker, g0: Run, open: nat) returns (g: Run, v: Verdict)
    requires Going(lane, check, g0, open) && |g0.made| == open + 1 && g0.made[open] == g0.effective
    ensures g.made != [] && Going(lane, check, g, |g.made| - 1)
    ensures g.made[|g.made| - 1] == g.effective && v == check(|g.made| - 1, g.effective)
    ensures g.effective != [] ==> !HasTypeError(v.diags)
    ensures g0.made <= g.made && ProbedFrom(check, g, open, |g.made| - 1)
    ensures NotesAbout(g0.effective, g0.statuses, g.statuses)
  {
    hide Going, HasTypeError, Requested, Judged, Remove, Cause, Caused, Probing, ProbedFrom, NotesAbout;
    g := ProbeEach(lane, check, g0, open);
    ghost var probed := g;
    GoingReload(lane, check, g, open);
    g := Reloaded(g, open);
    ProbingKept(check, g0, probed);
    v := check(|g.made| - 1, g.effective);
    var still := TypeErrors(v.diags);
    if still && g.effective != [] {
      g, v := DropAll(lane, check, g);
    }
    ProbesDone(check, g0, probed, g, open);
  }

  /** What is left fails together: it all falls back, and nothing is loaded in its place. */
  method DropAll(ghost lane: Lane, check: Checker, g0: Run) returns (g: Run, v: Verdict)
    requires g0.made != [] && Going(lane, check, g0, |g0.made| - 1) && g0.made[|g0.made| - 1] == g0.effective
    requires HasTypeError(check(|g0.made| - 1, g0.effective).diags)
    ensures Going(lane, check, g, |g0.made|) && g.effective == [] && g.made == g0.made + [[]]
    ensures v == check(|g0.made|, [])
    ensures g.statuses == g0.statuses + Notes(g0.effective, map p | p in g0.effective :: SurfaceBreaks)
  {
    hide Going, HasTypeError, Requested, Judged, Remove, Cause, Caused;
    GoingDistinct(lane, check, g0, |g0.made| - 1);
    var why := map p | p in g0.effective :: SurfaceBreaks;
    forall p | p in g0.effective ensures Cause(lane, check, g0.made, p, why[p]) {
      LastCause(lane, check, g0.made, p, SurfaceBreaks);
    }
    g := Drop(lane, check, g0, |g0.made| - 1, g0.effective, why);
    Emptied(g.effective, g0.effective);
    GoingReload(lane, check, g, |g.made| - 1);
    g := Reloaded(g, |g.made| - 1);
    v := check(|g.made| - 1, g.effective);
  }

  /** The notes added are about packages of `on`. */
  ghost predicate NotesAbout(on: seq<Package>, s: seq<Status>, t: seq<Status>) {
    s <= t && forall k: nat :: |s| <= k < |t| ==> t[k].pkg in on
  }

  lemma ProbingKept(check: Checker, g0: Run, g: Run)
    requires Probing(check, g0, g, |g0.effective|)
    ensures g0.made <= g.made && |g.made| == |g0.made| + |g0.effective|
  {
  }

  /** `g` is the run after the probes led to `probed` and the reload, or the two, that followed. */
  lemma ProbesDone(check: Checker, g0: Run, probed: Run, g: Run, open: nat)
    requires |g0.made| == open + 1 && g0.made[open] == g0.effective && Probing(check, g0, probed, |g0.effective|)
    requires var again := |probed.made|;
      var left := probed.effective;
      if left != [] && HasTypeError(check(again, left).diags)
      then g.made == probed.made + [left] + [[]] && g.effective == []
           && g.statuses == probed.statuses + Notes(left, map p | p in left :: SurfaceBreaks)
      else g.made == probed.made + [left] && g.effective == left && g.statuses == probed.statuses
    ensures g0.made <= g.made && ProbedFrom(check, g, open, |g.made| - 1)
    ensures NotesAbout(g0.effective, g0.statuses, g.statuses)
  {
    hide HasTypeError;
    var again, left := |probed.made|, probed.effective;
    assert g.made[again] == left && g.made[|g.made| - 1] == g.effective;
    ProbesNoted(check, g0, probed, g);
  }

  lemma ProbesNoted(check: Checker, g0: Run, probed: Run, g: Run)
    requires Probing(check, g0, probed, |g0.effective|)
    requires if g.effective == [] && probed.effective != []
      then g.statuses == probed.statuses + Notes(probed.effective, map p | p in probed.effective :: SurfaceBreaks)
      else g.effective == probed.effective && g.statuses == probed.statuses
    ensures forall p :: p in g0.effective && p !in g.effective ==> FellBack(p, SurfaceBreaks) in g.statuses
    ensures NotesAbout(g0.effective, g0.statuses, g.statuses)
  {
    hide HasTypeError;
    var left := probed.effective;
    forall p | p in g0.effective && p !in g.effective ensures FellBack(p, SurfaceBreaks) in g.statuses {
      if p in left {
        var k :| 0 <= k < |left| && left[k] == p;
        assert g.statuses[|probed.statuses| + k] == FellBack(p, SurfaceBreaks);
      }
    }
  }

  /** A load made beside the one in use, and disposed of. */
  function Probed(g: Run, on: seq<Package>): Run {
    g.(made := g.made + [on], disposed := g.disposed + [|g.made|])
  }

  lemma GoingProbe(lane: Lane, check: Checker, g: Run, open: nat, on: seq<Package>)
    requires Going(lane, check, g, open)
    ensures Going(lane, check, Probed(g, on), open)
  {
    DistinctPush(g.disposed, |g.made|);
    CausedLater(lane, check, g, on);
    hide Settled, Cause;
  }

  lemma FirstIn(s: seq<Package>)
    ensures s == [] || s[0] in s
  {
  }

  lemma Emptied(s: seq<Package>, all: seq<Package>)
    requires forall p :: p in s <==> p in all && p !in all
    ensures s == []
  {
    FirstIn(s);
  }

  lemma GoingDistinct(lane: Lane, check: Checker, g: Run, open: nat)
    requires Going(lane, check, g, open)
    ensures Distinct(g.effective)
  {
  }

  /** Every requested package that stayed is static. */
  method AddStatic(ghost lane: Lane, ghost check: Checker, requested: seq<Package>, g0: Run, ghost open: nat)
    returns (g: Run)
    requires requested == Requested(lane) && Going(lane, check, g0, open)
    ensures g == g0.(statuses := g.statuses) && Caused(lane, check, g) && NotesAdded(g0.statuses, g.statuses)
    ensures forall p :: Count(g.statuses, p) == if p in Judged(lane) then 1 else 0
    ensures forall i :: 0 <= i < |g.statuses| ==> (g.statuses[i].Static? <==> g.statuses[i].pkg in g.effective)
  {
    RequestedJudged(lane);
    hide Requested, Judged, Cause;
    g := g0;
    FellBackGone(g.statuses, g.effective, lane);
    var i := 0;
    while i < |requested|
      invariant i <= |requested| && g == g0.(statuses := g.statuses) && Caused(lane, check, g)
      invariant NotesAdded(g0.statuses, g.statuses)
      invariant StaticSoFar(lane, g, requested[..i])
    {
      assert requested[..i + 1] == requested[..i] + [requested[i]];
      assert requested[i] in requested && requested[i] !in requested[..i];
      if requested[i] in g.effective {
        CountPushAll(g.statuses, Static(requested[i]));
        g := g.(statuses := g.statuses + [Static(requested[i])]);
      }
      i := i + 1;
    }
    assert requested[..i] == requested;
  }

  /** Only notes that a package is static were added. */
  ghost predicate NotesAdded(s: seq<Status>, t: seq<Status>) {
    s <= t && forall k :: |s| <= k < |t| ==> t[k].Static?
  }

  /** The packages of `done` that stayed have their status, as do those that fell back. */
  ghost predicate StaticSoFar(lane: Lane, g: Run, done: seq<Package>) {
    && (forall p :: Count(g.statuses, p) == if p in Judged(lane) && (p !in g.effective || p in done) then 1 else 0)
    && (forall k :: 0 <= k < |g.statuses| ==> (g.statuses[k].Static? <==> g.statuses[k].pkg in g.effective))
  }

  lemma FellBackGone(statuses: seq<Status>, effective: seq<Package>, lane: Lane)
    requires Settled(statuses, effective, lane)
    ensures forall i :: 0 <= i < |statuses| ==> statuses[i].FellBack? && statuses[i].pkg !in effective
  {
    forall i | 0 <= i < |statuses| ensures statuses[i].FellBack? && statuses[i].pkg !in effective {
      Counts(statuses, i);
    }
  }

  lemma {:induction false} Counts(statuses: seq<Status>, i: nat)
    requires i < |statuses|
    ensures Count(statuses, statuses[i].pkg) > 0
  {
    if i < |statuses| - 1 { Counts(statuses[..|statuses| - 1], i); }
  }

  /** The result of a frontend run over this lane. */
  ghost predicate Good(lane: Lane, check: Checker, r: Result) {
    var g := r.run;
    && (forall p :: p in g.effective ==> p in Requested(lane))
    && (forall p :: Count(g.statuses, p) == if p in Judged(lane) then 1 else 0)
    && (forall i :: 0 <= i < |g.statuses| ==> (g.statuses[i].Static? <==> g.statuses[i].pkg in g.effective))
    && Caused(lane, check, g)
    && OneOpen(g.made, g.disposed, r.load) && g.made[r.load] == g.effective
    && r.preflight == check(r.load, g.effective).diags
    && (g.effective != [] ==> !HasTypeError(r.preflight))
  }

  /** An automatic lane scouts once before it loads. */
  function FirstLoad(lane: Lane): nat {
    if lane.Auto? then 1 else 0
  }

  lemma CleanBlamesNobody(v: Verdict, effective: seq<Package>)
    requires Clean(v, effective)
    ensures BlamesNobody(v, effective)
  {
  }

  lemma CleanTypes(v: Verdict, effective: seq<Package>)
    requires Clean(v, effective)
    ensures !HasTypeError(v.diags)
  {
  }

  lemma GoingEnd(lane: Lane, check: Checker, g: Run, open: nat)
    requires Going(lane, check, g, open)
    ensures OneOpen(g.made, g.disposed, open) && (forall p :: p in g.effective ==> p in Requested(lane))
    ensures lane == NoOptIns ==> g.effective == []
  {
    if g.effective != [] { assert g.effective[0] in g.effective; }
  }

  /** Drops what the load in use blames, if anything, and loads the rest. */
  method DropBlamed(ghost lane: Lane, check: Checker, g0: Run, v0: Verdict)
    returns (g: Run, v: Verdict, done: bool)
    requires g0.made != [] && Going(lane, check, g0, |g0.made| - 1) && g0.made[|g0.made| - 1] == g0.effective
    requires v0 == check(|g0.made| - 1, g0.effective)
    requires FirstLoad(lane) < |g0.made| && Fell(check, g0, FirstLoad(lane), |g0.made| - 1) && NoneProbed(g0.statuses)
    ensures done <==> BlamesNobody(v0, g0.effective)
    ensures if done then g == g0 && v == v0 else |g.effective| < |g0.effective| && g0.made < g.made
    ensures g.made != [] && Going(lane, check, g, |g.made| - 1) && g.made[|g.made| - 1] == g.effective
    ensures v == check(|g.made| - 1, g.effective) && Fell(check, g, FirstLoad(lane), |g.made| - 1)
    ensures NoneProbed(g.statuses)
  {
    hide Going, Cause, Caused, Fell, BlamesNobody, Blame, FirstLoad, NoneProbed, Settled;
    g, v := g0, v0;
    GoingDistinct(lane, check, g, |g.made| - 1);
    var dropping, why := Blamed(v, g.effective);
    BlamesNobodyIff(v, g.effective);
    FirstIn(dropping);
    done := dropping == [];
    if done { return; }
    forall p | p in dropping ensures Cause(lane, check, g.made, p, why[p]) && why[p] != SurfaceBreaks {
      BlameMeans(v, g.effective, p);
      LastCause(lane, check, g.made, p, why[p]);
    }
    NoneProbedNext(g.statuses, dropping, why);
    g := Drop(lane, check, g, |g.made| - 1, dropping, why);
    GoingReload(lane, check, g, |g.made| - 1);
    g := Reloaded(g, |g.made| - 1);
    FellNext(check, g0, g, FirstLoad(lane), dropping, why);
    v := check(|g.made| - 1, g.effective);
  }

  lemma NoneProbedNext(statuses: seq<Status>, dropping: seq<Package>, why: map<Package, Reason>)
    requires NoneProbed(statuses) && forall p :: p in dropping ==> p in why && why[p] != SurfaceBreaks
    ensures NoneProbed(statuses + Notes(dropping, why))
  {
  }

  /** `runFrontend`: whatever the checker answers, it ends; each package judged gets one status, static exactly when it
      is in the final set; it fell back for a cause; what is returned is the load of exactly that set, every
      other load disposed of once; and opt-ins that stay bring no type error. Load `last` is where blaming ended. */
  method RunFrontend(lane: Lane, check: Checker) returns (r: Result, ghost last: nat)
    ensures Good(lane, check, r) && Ran(lane, check, r.run, last, r.load)
    ensures r.run.effective != [] ==> forall i :: 0 <= i < |r.preflight| ==> !r.preflight[i].typecheck
    ensures lane == NoOptIns ==> r.run.effective == []
    ensures Clean(check(FirstLoad(lane), Requested(lane)), Requested(lane)) ==>
      r.run.effective == Requested(lane) && r.load == FirstLoad(lane)
  {
    hide Going, HasTypeError, Requested, Judged, Clean, Cause, Caused, Fell, BlamesNobody, NoneProbed, Ran, FirstLoad;
    hide NotesAbout, NotesAdded, ProbedFrom;
    var g := Start(lane, check);
    var requested := g.effective;
    var v := check(|g.made| - 1, g.effective);
    ghost var first := v;
    NothingFellYet(lane, check, g);
    var done := g.effective == [];
    NobodyLeft(v, g.effective);
    while !done
      invariant g.made != [] && Going(lane, check, g, |g.made| - 1)
      invariant g.made[|g.made| - 1] == g.effective && v == check(|g.made| - 1, g.effective)
      invariant FirstLoad(lane) < |g.made| && g.made[FirstLoad(lane)] == requested
      invariant Fell(check, g, FirstLoad(lane), |g.made| - 1) && NoneProbed(g.statuses)
      invariant done ==> BlamesNobody(v, g.effective)
      invariant Clean(first, requested) ==> g.effective == requested && v == first && |g.made| == FirstLoad(lane) + 1
      decreases |g.effective|, !done
    {
      if Clean(first, requested) { CleanBlamesNobody(v, requested); }
      g, v, done := DropBlamed(lane, check, g, v);
      NobodyLeft(v, g.effective);
      done := done || g.effective == [];
    }
    last := |g.made| - 1;
    ghost var fell := g;
    var broken := TypeErrors(v.diags);
    if Clean(first, requested) { CleanTypes(first, requested); }
    if g.effective != [] && broken {
      g, v := Probe(lane, check, g, |g.made| - 1);
    }
    GoingEnd(lane, check, g, |g.made| - 1);
    ghost var probed := g;
    g := AddStatic(lane, check, requested, g, |g.made| - 1);
    r := Result(|g.made| - 1, v.diags, g);
    NoneTyped(r.preflight);
    WasRun(lane, check, fell, probed, g);
  }

  lemma NoneTyped(diags: seq<Diagnostic>)
    ensures !HasTypeError(diags) <==> forall i :: 0 <= i < |diags| ==> !diags[i].typecheck
  {
  }

  lemma NobodyLeft(v: Verdict, on: seq<Package>)
    ensures on == [] ==> BlamesNobody(v, on)
  {
  }

  lemma NothingFellYet(lane: Lane, check: Checker, g: Run)
    requires |g.made| == FirstLoad(lane) + 1 && forall t :: t in g.statuses ==> t.FellBack? && t.reason == Ineligible
    ensures Fell(check, g, FirstLoad(lane), |g.made| - 1) && NoneProbed(g.statuses)
  {
  }

  /** `fell` is the run at the end of the fallback loop, `probed` after the last resort, `g` with the static notes. */
  lemma WasRun(lane: Lane, check: Checker, fell: Run, probed: Run, g: Run)
    requires FirstLoad(lane) < |fell.made| && fell.made[FirstLoad(lane)] == Requested(lane)
    requires Fell(check, fell, FirstLoad(lane), |fell.made| - 1) && NoneProbed(fell.statuses)
    requires fell.made[|fell.made| - 1] == fell.effective && probed.made != []
    requires var last := |fell.made| - 1;
      var v := check(last, fell.effective);
      BlamesNobody(v, fell.effective)
      && if fell.effective != [] && HasTypeError(v.diags)
         then fell.made <= probed.made && ProbedFrom(check, probed, last, |probed.made| - 1)
              && NotesAbout(fell.effective, fell.statuses, probed.statuses)
         else probed == fell
    requires g == probed.(statuses := g.statuses) && NotesAdded(probed.statuses, g.statuses)
    ensures Ran(lane, check, g, |fell.made| - 1, |g.made| - 1)
  {
    FellFurther(check, fell, g, FirstLoad(lane), |fell.made| - 1);
    hide Fell, BlamesNobody, HasTypeError, Requested, FirstLoad;
    var last := |fell.made| - 1;
    if fell.effective != [] && HasTypeError(check(last, fell.effective).diags) {
      ProbedNoted(check, probed, g, last, |g.made| - 1);
    }
    assert forall t :: t in g.statuses && t.FellBack? ==> t in probed.statuses;
    hide ProbedFrom;
    forall t | t in g.statuses && t.FellBack? && t.reason == SurfaceBreaks ensures t.pkg in g.made[last] {
      assert t in probed.statuses && t !in fell.statuses;
    }
  }

  lemma ProbedNoted(check: Checker, g: Run, h: Run, last: nat, load: nat)
    requires last < |g.made| && ProbedFrom(check, g, last, load) && h == g.(statuses := h.statuses)
    requires g.statuses <= h.statuses
    ensures ProbedFrom(check, h, last, load)
  {
    hide HasTypeError;
  }
}
