/** Windows command lines: quoting an argument, and the parsing rules of CommandLineToArgvW that undo it. */
module ArgumentRules {
  predicate IsBlank(c: char) {
    c == ' ' || c == '\t'
  }

  function Slashes(n: nat): (s: string)
    ensures |s| == n && forall i :: 0 <= i < n ==> s[i] == '\\'
  {
    if n == 0 then "" else Slashes(n - 1) + "\\"
  }

  /** Reading a command line: the arguments done, the current one, and the backslashes just seen. */
  datatype Reader = Reader(args: seq<string>, cur: string, inArg: bool, quoted: bool, slashes: nat)

  const FRESH := Reader([], "", false, false, 0)

  /** Backslashes count only before a quotation mark: two make one, and an odd one makes the mark literal. */
  function Read(r: Reader, c: char): Reader {
    if c == '\\' then r.(inArg := true, slashes := r.slashes + 1)
    else if c == '"' then
      var cur := r.cur + Slashes(r.slashes / 2);
      if r.slashes % 2 == 1 then r.(cur := cur + "\"", inArg := true, slashes := 0)
      else r.(cur := cur, inArg := true, quoted := !r.quoted, slashes := 0)
    else if IsBlank(c) && !r.quoted then
      if r.inArg then Reader(r.args + [r.cur + Slashes(r.slashes)], "", false, false, 0) else r
    else r.(cur := r.cur + Slashes(r.slashes) + [c], inArg := true, slashes := 0)
  }

  function ReadAll(r: Reader, s: string): Reader {
    if s == "" then r else Read(ReadAll(r, s[..|s| - 1]), s[|s| - 1])
  }

  /** The arguments of a command line (those after the program's name). */
  function Parse(s: string): seq<string> {
    var r := ReadAll(FRESH, s);
    if r.inArg then r.args + [r.cur + Slashes(r.slashes)] else r.args
  }

  lemma {:induction false} ReadConcat(r: Reader, a: string, b: string)
    ensures ReadAll(r, a + b) == ReadAll(ReadAll(r, a), b)
  {
    if b == "" {
      assert a + b == a;
    } else {
      assert (a + b)[..|a + b| - 1] == a + b[..|b| - 1];
      ReadConcat(r, a, b[..|b| - 1]);
    }
  }

  lemma ReadOne(r: Reader, c: char)
    ensures ReadAll(r, [c]) == Read(r, c)
  {
    assert [c][..0] == "";
    assert ReadAll(r, [c][..0]) == r;
  }

  /** Arguments already read make no difference to what follows. */
  lemma {:induction false} ReadBehind(r: Reader, before: seq<string>, s: string)
    ensures ReadAll(r.(args := before + r.args), s) == ReadAll(r, s).(args := before + ReadAll(r, s).args)
  {
    if s != "" {
      ReadBehind(r, before, s[..|s| - 1]);
      var t := ReadAll(r, s[..|s| - 1]);
      assert before + (t.args + [t.cur + Slashes(t.slashes)]) == before + t.args + [t.cur + Slashes(t.slashes)];
    }
  }

  /** Outside quotation marks a space or a tab ends an argument, backslashes and all. */
  lemma ParseSplits(a: string, c: char, b: string)
    requires a != "" && (forall k :: 0 <= k < |a| ==> a[k] != ' ' && a[k] != '\t' && a[k] != '"')
    requires c == ' ' || c == '\t'
    ensures Parse(a + [c] + b) == [a] + Parse(b)
  {
    var t := ReadAll(FRESH, a);
    ReadPlain(FRESH, a);
    assert "" + Slashes(0) + a == a;
    hide ReadAll, Slashes;
    ReadConcat(FRESH, a + [c], b);
    ReadConcat(FRESH, a, [c]);
    ReadOne(t, c);
    assert Read(t, c) == FRESH.(args := [a]);
    assert [a] + FRESH.args == [a];
    ReadBehind(FRESH, [a], b);
    var r := ReadAll(FRESH, b);
    assert [a] + (r.args + [r.cur + Slashes(r.slashes)]) == [a] + r.args + [r.cur + Slashes(r.slashes)];
  }

  /** Blanks before an argument are skipped. */
  lemma ParseSkips(c: char, b: string)
    requires c == ' ' || c == '\t'
    ensures Parse([c] + b) == Parse(b)
  {
    ReadConcat(FRESH, [c], b);
    ReadOne(FRESH, c);
  }

  /** `n` backslashes before a quotation mark give half as many, and an odd one makes the mark part of the argument; any
      other mark opens or closes a quotation. */
  lemma {:induction false} ReadMark(r: Reader, n: nat)
    requires r.slashes == 0
    ensures var t := ReadAll(r, Slashes(n) + "\"");
      && t.args == r.args && t.inArg && t.slashes == 0
      && t.cur == r.cur + Slashes(n / 2) + (if n % 2 == 1 then "\"" else "")
      && t.quoted == if n % 2 == 1 then r.quoted else !r.quoted
  {
    ReadSlashes(r, n);
    ReadConcat(r, Slashes(n), "\"");
    ReadOne(ReadAll(r, Slashes(n)), '"');
    hide Slashes, ReadAll;
    assert r.cur + Slashes(n / 2) + "" == r.cur + Slashes(n / 2);
  }

  lemma {:induction false} ReadSlashes(r: Reader, n: nat)
    requires r.slashes == 0
    ensures ReadAll(r, Slashes(n)) == if n == 0 then r else r.(inArg := true, slashes := n)
  {
    if n > 0 {
      ReadSlashes(r, n - 1);
      assert Slashes(n)[..|Slashes(n)| - 1] == Slashes(n - 1);
    }
  }

  /** Outside quotation marks, characters that are neither blank nor marks stand for themselves. */
  lemma {:induction false} ReadPlain(r: Reader, s: string)
    requires !r.quoted && s != "" && forall k :: 0 <= k < |s| ==> s[k] != ' ' && s[k] != '\t' && s[k] != '"'
    ensures var t := ReadAll(r, s);
      t.args == r.args && !t.quoted && t.inArg && t.cur + Slashes(t.slashes) == r.cur + Slashes(r.slashes) + s
  {
    var c := s[|s| - 1];
    assert s == s[..|s| - 1] + [c];
    if |s| > 1 {
      ReadPlain(r, s[..|s| - 1]);
    } else {
      assert s[..0] == "" && ReadAll(r, "") == r;
    }
    var t := ReadAll(r, s[..|s| - 1]);
    assert t.cur + (Slashes(t.slashes) + [c]) == t.cur + Slashes(t.slashes) + [c];
    assert r.cur + Slashes(r.slashes) + s[..|s| - 1] + [c] == r.cur + Slashes(r.slashes) + s;
  }
}

module CommandLine {
  import opened ArgumentRules

  /** The backslashes at the front of `s` run into a quotation mark, or into the end. */
  predicate QuoteHit(s: string) {
    s == "" || s[0] == '"' || (s[0] == '\\' && QuoteHit(s[1..]))
  }

  /** `s` inside quotation marks: a backslash doubles exactly when a mark, or the closing one, follows its run. */
  function Escaped(s: string): (e: string)
    ensures |s| <= |e| <= 2 * |s|
  {
    if s == "" then ""
    else (if s[0] == '"' then "\\\"" else if s[0] == '\\' && QuoteHit(s[1..]) then "\\\\" else [s[0]]) + Escaped(s[1..])
  }

  /** No blank and no quotation mark. */
  predicate Plain(s: string) {
    forall k :: 0 <= k < |s| ==> !IsBlank(s[k]) && s[k] != '"'
  }

  /** No quotation mark and no backslash. */
  predicate Simple(s: string) {
    forall k :: 0 <= k < |s| ==> s[k] != '"' && s[k] != '\\'
  }

  /** An argument as it appears on the command line. */
  function Quoted(s: string): (q: string)
    ensures |q| <= 2 * |s| + 2
    ensures q == s <==> s != "" && ' ' !in s && '\t' !in s && '"' !in s
  {
    if s == "" then "\"\""
    else if Plain(s) then s
    else "\"" + Escaped(s) + "\""
  }

  lemma SlashesFront(n: nat)
    ensures Slashes(n + 1) == "\\" + Slashes(n)
  {
  }

  /** What is written for a run of backslashes: twice the run before a quotation mark or the closing one, and else just
      the run. */
  lemma {:induction false} EscapedRun(n: nat, s: string)
    requires s == "" || s[0] != '\\'
    ensures QuoteHit(Slashes(n) + s) <==> s == "" || s[0] == '"'
    ensures Escaped(Slashes(n) + s) == Slashes(if s == "" || s[0] == '"' then 2 * n else n) + Escaped(s)
  {
    hide Slashes, Escaped, QuoteHit;
    RunFront(n, s);
    if n > 0 {
      EscapedRun(n - 1, s);
      assert Escaped((Slashes(n) + s)[1..]) == Escaped(Slashes(n - 1) + s);
      if s == "" || s[0] == '"' {
        EscapedSlash(Slashes(n) + s, 2 * n - 2, Escaped(s));
      } else {
        EscapedSlash(Slashes(n) + s, n - 1, Escaped(s));
      }
    } else {
      assert Slashes(0) + Escaped(s) == Escaped(s);
    }
  }

  lemma RunFront(n: nat, s: string)
    requires s == "" || s[0] != '\\'
    ensures n == 0 ==> (Slashes(n) + s == s && Slashes(0) == "" && (QuoteHit(s) <==> s == "" || s[0] == '"'))
    ensures n > 0 ==> (Slashes(n) + s != "" && (Slashes(n) + s)[0] == '\\'
                       && (Slashes(n) + s)[1..] == Slashes(n - 1) + s)
  {
    if n > 0 {
      SlashesFront(n - 1);
    }
  }

  lemma EscapedSlash(s: string, m: nat, rest: string)
    requires s != "" && s[0] == '\\' && Escaped(s[1..]) == Slashes(m) + rest
    ensures Escaped(s) == Slashes(if QuoteHit(s[1..]) then m + 2 else m + 1) + rest
    ensures QuoteHit(s) == QuoteHit(s[1..])
  {
    OneMoreSlash(m, rest);
    OneMoreSlash(m + 1, rest);
    hide Slashes;
    assert "\\\\" + Escaped(s[1..]) == "\\" + ("\\" + Escaped(s[1..]));
  }

  lemma OneMoreSlash(m: nat, rest: string)
    ensures "\\" + (Slashes(m) + rest) == Slashes(m + 1) + rest
  {
    SlashesFront(m);
    hide Slashes;
    assert "\\" + (Slashes(m) + rest) == "\\" + Slashes(m) + rest;
  }

  /** Before any other character nothing is written but, for a quotation mark, one backslash. */
  lemma EscapedOther(c: char, s: string)
    requires c != '\\'
    ensures Escaped([c] + s) == (if c == '"' then "\\\"" else [c]) + Escaped(s)
  {
    assert ([c] + s)[1..] == s;
  }

  lemma {:induction false} EscapedPlain(s: string)
    requires Simple(s)
    ensures Escaped(s) == s
  {
    if s != "" {
      EscapedPlain(s[1..]);
      assert s == [s[0]] + s[1..];
    }
  }

  /** Inside quotation marks, reading an escaped string and the closing mark gives back the string; `k` backslashes
      of it have been read already. */
  lemma {:induction false} ReadEscaped(r: Reader, s: string, k: nat)
    requires r.quoted && r.inArg && r.slashes == if QuoteHit(s) then 2 * k else k
    ensures ReadAll(r, Escaped(s) + "\"") == r.(cur := r.cur + Slashes(k) + s, quoted := false, slashes := 0)
    decreases |s|
  {
    hide ReadAll;
    if s == "" {
      assert Escaped(s) + "\"" == "\"";
      ReadOne(r, '"');
      assert r.cur + Slashes(k) + s == r.cur + Slashes(k);
    } else {
      ReadEscapedFirst(r, s, k);
      var k1 := if s[0] == '\\' then k + 1 else 0;
      var r1 := AfterFirst(r, s, k);
      ReadEscaped(r1, s[1..], k1);
      if s[0] == '\\' {
        assert r.cur + (Slashes(k) + "\\") + s[1..] == r.cur + Slashes(k) + s;
      } else {
        assert r.cur + Slashes(k) + [s[0]] + Slashes(0) + s[1..] == r.cur + Slashes(k) + s;
      }
    }
  }

  /** Where the reader is once the first character is read. */
  function AfterFirst(r: Reader, s: string, k: nat): Reader
    requires s != ""
  {
    if s[0] == '\\' then r.(slashes := if QuoteHit(s[1..]) then 2 * k + 2 else k + 1)
    else r.(cur := r.cur + Slashes(k) + [s[0]], slashes := 0)
  }

  lemma ReadEscapedFirst(r: Reader, s: string, k: nat)
    requires s != "" && r.quoted && r.inArg && r.slashes == if QuoteHit(s) then 2 * k else k
    ensures ReadAll(r, Escaped(s) + "\"") == ReadAll(AfterFirst(r, s, k), Escaped(s[1..]) + "\"")
  {
    EscapedFirst(s);
    var rest := Escaped(s[1..]) + "\"";
    hide ReadAll, Escaped, QuoteHit, Read, AfterFirst;
    if s[0] == '"' {
      TwoMore(r, '\\', '"', rest);
      FirstMark(r, s, k);
    } else if s[0] == '\\' && QuoteHit(s[1..]) {
      TwoMore(r, '\\', '\\', rest);
      FirstOther(r, s, k);
    } else {
      ReadConcat(r, [s[0]], rest);
      ReadOne(r, s[0]);
      FirstOther(r, s, k);
    }
  }

  lemma FirstMark(r: Reader, s: string, k: nat)
    requires s != "" && s[0] == '"' && r.quoted && r.inArg && r.slashes == if QuoteHit(s) then 2 * k else k
    ensures Read(Read(r, '\\'), '"') == AfterFirst(r, s, k)
  {
    hide Slashes;
    assert Read(r, '\\').slashes == 2 * k + 1;
    assert (2 * k + 1) / 2 == k;
  }

  lemma FirstOther(r: Reader, s: string, k: nat)
    requires s != "" && s[0] != '"' && r.quoted && r.inArg && r.slashes == if QuoteHit(s) then 2 * k else k
    ensures s[0] == '\\' && QuoteHit(s[1..]) ==> Read(Read(r, '\\'), '\\') == AfterFirst(r, s, k)
    ensures !(s[0] == '\\' && QuoteHit(s[1..])) ==> Read(r, s[0]) == AfterFirst(r, s, k)
  {
    hide Slashes;
  }

  lemma EscapedFirst(s: string)
    requires s != ""
    ensures s[0] == '"' ==> Escaped(s) + "\"" == ['\\', '"'] + (Escaped(s[1..]) + "\"")
    ensures s[0] == '\\' && QuoteHit(s[1..]) ==> Escaped(s) + "\"" == ['\\', '\\'] + (Escaped(s[1..]) + "\"")
    ensures s[0] != '"' && !(s[0] == '\\' && QuoteHit(s[1..])) ==>
      Escaped(s) + "\"" == [s[0]] + (Escaped(s[1..]) + "\"")
  {
  }

  lemma TwoMore(r: Reader, c: char, d: char, rest: string)
    ensures ReadAll(r, [c, d] + rest) == ReadAll(Read(Read(r, c), d), rest)
  {
    assert [c, d] == [c] + [d];
    ReadConcat(r, [c, d], rest);
    ReadConcat(r, [c], [d]);
    ReadOne(r, c);
    ReadOne(Read(r, c), d);
  }

  /** Reading a quoted argument from its start gives back the argument, whatever it contains. */
  lemma ReadQuoted(args: seq<string>, s: string)
    ensures var t := ReadAll(FRESH.(args := args), Quoted(s));
      t.args == args && !t.quoted && t.inArg && t.cur + Slashes(t.slashes) == s
  {
    var r := FRESH.(args := args);
    hide ReadAll;
    if s != "" && Plain(s) {
      ReadPlain(r, s);
      assert "" + Slashes(0) + s == s;
    } else {
      assert Escaped("") == "";
      assert Quoted(s) == "\"" + (Escaped(s) + "\"");
      ReadConcat(r, "\"", Escaped(s) + "\"");
      ReadOne(r, '"');
      assert Read(r, '"') == r.(inArg := true, quoted := true) by { assert "" + Slashes(0) == ""; }
      ReadEscaped(r.(inArg := true, quoted := true), s, 0);
      assert "" + Slashes(0) + s == s && s + Slashes(0) == s;
    }
  }

  /** Every argument, each after a space. */
  function Spaced(args: seq<string>): string {
    if args == [] then "" else Spaced(args[..|args| - 1]) + " " + Quoted(args[|args| - 1])
  }

  lemma {:induction false} ReadSpaced(args: seq<string>)
    ensures var t := ReadAll(FRESH, Spaced(args));
      if args == [] then t == FRESH
      else t.args == args[..|args| - 1] && !t.quoted && t.inArg && t.cur + Slashes(t.slashes) == args[|args| - 1]
  {
    if args != [] {
      var before, last := args[..|args| - 1], args[|args| - 1];
      ReadSpaced(before);
      var t := ReadAll(FRESH, Spaced(before));
      SpaceEnds(t, before);
      ReadQuoted(before, last);
      hide Read, Slashes, Quoted;
      ReadConcat(FRESH, Spaced(before) + " ", Quoted(last));
      ReadConcat(FRESH, Spaced(before), " ");
      ReadOne(t, ' ');
    }
  }

  /** A space outside quotation marks ends the argument being read. */
  lemma SpaceEnds(t: Reader, args: seq<string>)
    requires if args == [] then t == FRESH
      else t.args == args[..|args| - 1] && !t.quoted && t.inArg && t.cur + Slashes(t.slashes) == args[|args| - 1]
    ensures Read(t, ' ') == FRESH.(args := args)
  {
    if args != [] { assert args[..|args| - 1] + [args[|args| - 1]] == args; }
  }

  /** Parsing undoes quoting: any list of arguments comes back. */
  lemma RoundTrip(args: seq<string>)
    ensures Parse(Spaced(args)) == args
  {
    ReadSpaced(args);
    hide ReadAll, Slashes, Spaced;
    if args != [] { assert args == args[..|args| - 1] + [args[|args| - 1]]; }
  }

  // Wide strings end at the first NUL -----------------------------------------------------------------------

  /** What `wcslen` sees of an argument: everything before the first NUL. */
  function Cut(s: string): (r: string)
    ensures r <= s && '\0' !in r
    ensures |r| < |s| ==> s[|r|] == '\0'
  {
    if s == "" || s[0] == '\0' then "" else [s[0]] + Cut(s[1..])
  }

  function CutAll(args: seq<string>): (r: seq<string>)
    ensures |r| == |args| && forall i :: 0 <= i < |args| ==> r[i] == Cut(args[i])
  {
    seq(|args|, i requires 0 <= i < |args| => Cut(args[i]))
  }

  lemma CutWhole(s: string)
    ensures Cut(s) == s <==> '\0' !in s
  {
    var r := Cut(s);
    if |r| < |s| { assert s[|r|] in s; } else { assert r == s; }
  }

  /** The original list comes back from its command line exactly when no argument contains a NUL. */
  lemma RoundTripUncut(args: seq<string>)
    ensures Parse(Spaced(CutAll(args))) == CutAll(args)
    ensures Parse(Spaced(CutAll(args))) == args <==> forall i :: 0 <= i < |args| ==> '\0' !in args[i]
  {
    RoundTrip(CutAll(args));
    forall i | 0 <= i < |args| ensures CutAll(args)[i] == args[i] <==> '\0' !in args[i] { CutWhole(args[i]); }
    if forall i :: 0 <= i < |args| ==> '\0' !in args[i] { assert CutAll(args) == args; }
  }

  /** An argument with a NUL inside loses its end. */
  lemma NulIsCut()
    ensures Parse(Spaced(CutAll(["a\0b"]))) == ["a"]
  {
    var s := "a\0b";
    assert s[0] == 'a' && s[1] == '\0' && s[1..][0] == '\0';
    assert Cut(s[1..]) == "";
    assert Cut(s) == "a";
    assert CutAll([s]) == ["a"];
    RoundTrip(CutAll([s]));
  }

  // The in-place printer ------------------------------------------------------------------------------------

  function Reversed(s: string): (r: string)
    ensures |r| == |s|
  {
    if s == "" then "" else Reversed(s[1..]) + [s[0]]
  }

  lemma {:induction false} ReversedAt(s: string, k: nat)
    requires k < |s|
    ensures Reversed(s)[k] == s[|s| - 1 - k]
  {
    if k < |s| - 1 { ReversedAt(s[1..], k); }
  }

  /** `_wcsrev` on `a[from..to]`. */
  method ReverseInPlace(a: array<char>, from: nat, to: nat)
    requires from <= to <= a.Length
    modifies a
    ensures a[from..to] == Reversed(old(a[from..to]))
    ensures forall k :: 0 <= k < from || to <= k < a.Length ==> a[k] == old(a[k])
  {
    var n, i := to - from, 0;
    while i < n / 2
      invariant 0 <= i <= n / 2
      invariant forall k :: from <= k < from + i || to - i <= k < to ==> a[k] == old(a[from + to - 1 - k])
      invariant forall k :: 0 <= k < from || from + i <= k < to - i || to <= k < a.Length ==> a[k] == old(a[k])
    {
      a[from + i], a[to - 1 - i] := a[to - 1 - i], a[from + i];
      i := i + 1;
    }
    ghost var was := old(a[from..to]);
    forall k | 0 <= k < n ensures a[from..to][k] == Reversed(was)[k] {
      ReversedAt(was, k);
      assert was[n - 1 - k] == old(a[from + (n - 1 - k)]);
      assert a[from + k] == old(a[from + to - 1 - (from + k)]);
    }
  }

  /** The escape written backwards: each character, then the backslash that goes before it. */
  function Backwards(s: string): string {
    if s == "" then ""
    else Backwards(s[1..]) + if s[0] == '"' then "\"\\" else if s[0] == '\\' && QuoteHit(s[1..]) then "\\\\" else [s[0]]
  }

  lemma {:induction false} ReversedConcat(a: string, b: string)
    ensures Reversed(a + b) == Reversed(b) + Reversed(a)
  {
    if a == "" {
      assert a + b == b;
    } else {
      assert (a + b)[1..] == a[1..] + b;
      ReversedConcat(a[1..], b);
    }
  }

  lemma {:induction false} BackwardsReversed(s: string)
    ensures Reversed(Backwards(s)) == Escaped(s) && |Backwards(s)| == |Escaped(s)|
  {
    if s != "" {
      var d := if s[0] == '"' then "\"\\" else if s[0] == '\\' && QuoteHit(s[1..]) then "\\\\" else [s[0]];
      BackwardsReversed(s[1..]);
      ReversedConcat(Backwards(s[1..]), d);
      ReversedShort(d);
    }
  }

  lemma ReversedShort(d: string)
    requires 1 <= |d| <= 2
    ensures Reversed(d) == if |d| == 1 then d else [d[1], d[0]]
  {
    assert Reversed("") == "";
    assert Reversed(d[1..]) == if |d| == 1 then "" else [d[1]];
  }

  /** `wcslen`. */
  method WideLength(source: string) returns (n: nat)
    ensures n <= |source| && source[..n] == Cut(source)
  {
    n := 0;
    assert source[..0] == "";
    while n < |source| && source[n] != '\0'
      invariant n <= |source| && '\0' !in source[..n]
    {
      assert source[..n + 1] == source[..n] + [source[n]];
      n := n + 1;
    }
    CutAt(source, n);
  }

  lemma {:induction false} CutAt(s: string, n: nat)
    requires n <= |s| && '\0' !in s[..n] && (n < |s| ==> s[n] == '\0')
    ensures Cut(s) == s[..n]
  {
    if n > 0 {
      assert s[..n][0] == s[0] && s[..n] == [s[0]] + s[1..][..n - 1];
      CutAt(s[1..], n - 1);
    }
  }

  /** `scr_quote_cmd_arg`: writes the quoted argument, up to its first NUL, at `at`; returns the position after it. */
  method QuoteArgument(source: string, target: array<char>, at: nat) returns (end: nat)
    requires at + 2 * |Cut(source)| + 3 <= target.Length
    modifies target
    ensures end == at + |Quoted(Cut(source))| && target[at..end] == Quoted(Cut(source))
    ensures forall k :: 0 <= k < at ==> target[k] == old(target[k])
  {
    var len := WideLength(source);
    end := QuoteWide(source[..len], target, at);
  }

  /** The three tiers, on an argument without a NUL. */
  method QuoteWide(source: string, target: array<char>, at: nat) returns (end: nat)
    requires at + 2 * |source| + 3 <= target.Length
    modifies target
    ensures end == at + |Quoted(source)| && target[at..end] == Quoted(source)
    ensures forall k :: 0 <= k < at ==> target[k] == old(target[k])
  {
    hide Escaped, Backwards, QuoteHit, Plain, Simple;
    if |source| == 0 {
      end := PutAll(target, at, "\"\"");
      return;
    }
    var plain, simple := Scan(source);
    if plain {
      end := PutAll(target, at, source);
      return;
    }
    if simple {
      EscapedPlain(source);
      end := PutAll(target, at, "\"" + source + "\"");
      return;
    }
    end := PutEscaped(source, target, at);
  }

  method PutAll(target: array<char>, at: nat, s: string) returns (end: nat)
    requires at + |s| <= target.Length
    modifies target
    ensures end == at + |s| && target[at..end] == s && forall k :: 0 <= k < at ==> target[k] == old(target[k])
  {
    forall k | 0 <= k < |s| { target[at + k] := s[k]; }
    end := at + |s|;
  }

  /** The reverse scan and the reversal. */
  method PutEscaped(source: string, target: array<char>, at: nat) returns (end: nat)
    requires at + 2 * |source| + 3 <= target.Length
    modifies target
    ensures end == at + |Escaped(source)| + 2 && target[at..end] == "\"" + Escaped(source) + "\""
    ensures forall k :: 0 <= k < at ==> target[k] == old(target[k])
  {
    hide Escaped, Backwards;
    target[at] := '"';
    end := WriteBackwards(source, target, at + 1);
    target[end] := '\0';
    assert target[at + 1..end] == Backwards(source);
    ReverseInPlace(target, at + 1, end);
    BackwardsReversed(source);
    target[end] := '"';
    assert target[at + 1..end] == Escaped(source);
    end := end + 1;
  }

  /** Whether an argument needs no quotation, and whether quotation marks alone are enough. */
  method Scan(source: string) returns (plain: bool, simple: bool)
    ensures plain == Plain(source) && simple == Simple(source)
  {
    plain, simple := true, true;
    var i := 0;
    while i < |source|
      invariant i <= |source|
      invariant plain <==> forall k :: 0 <= k < i ==> !IsBlank(source[k]) && source[k] != '"'
      invariant simple <==> forall k :: 0 <= k < i ==> source[k] != '"' && source[k] != '\\'
    {
      if IsBlank(source[i]) || source[i] == '"' { plain := false; }
      if source[i] == '"' || source[i] == '\\' { simple := false; }
      i := i + 1;
    }
  }

  /** The reverse scan. */
  method WriteBackwards(source: string, target: array<char>, at: nat) returns (end: nat)
    requires at + 2 * |source| <= target.Length
    modifies target
    ensures end == at + |Backwards(source)| && end <= at + 2 * |source| && target[at..end] == Backwards(source)
    ensures forall k :: 0 <= k < at ==> target[k] == old(target[k])
  {
    end := at;
    var hit := true;
    var i := |source|;
    while i > 0
      invariant 0 <= i <= |source| && hit == QuoteHit(source[i..])
      invariant at <= end <= at + 2 * (|source| - i) && target[at..end] == Backwards(source[i..])
      invariant forall k :: 0 <= k < at ==> target[k] == old(target[k])
    {
      assert source[i - 1..][0] == source[i - 1] && source[i - 1..][1..] == source[i..];
      target[end] := source[i - 1];
      end := end + 1;
      if hit && source[i - 1] == '\\' {
        target[end] := '\\';
        end := end + 1;
      } else if source[i - 1] == '"' {
        hit := true;
        target[end] := '\\';
        end := end + 1;
      } else {
        hit := false;
      }
      i := i - 1;
    }
    assert source[0..] == source;
  }

  /** The room `scr_child_cmdline` makes. */
  function Room(args: seq<string>): nat {
    if args == [] then 0 else Room(args[..|args| - 1]) + 2 * |args[|args| - 1]| + 3
  }

  lemma {:induction false} RoomGrows(args: seq<string>, i: nat)
    requires i < |args|
    ensures Room(args[..i]) + 2 * |args[i]| + 3 <= Room(args)
  {
    if i == |args| - 1 {
    } else {
      assert args[..|args| - 1][..i] == args[..i];
      RoomGrows(args[..|args| - 1], i);
    }
  }

  /** `scr_child_cmdline`: the program's name and every argument, each up to its first NUL and quoted, with spaces
      between, in the room made for them. What follows the name parses back to the arguments as they were cut, which
      are the arguments given exactly when none contains a NUL. */
  method Build(name: string, args: seq<string>) returns (line: string)
    ensures line == Quoted(Cut(name)) + Spaced(CutAll(args))
    ensures Parse(line[|Quoted(Cut(name))|..]) == CutAll(args)
    ensures Parse(line[|Quoted(Cut(name))|..]) == args <==> forall i :: 0 <= i < |args| ==> '\0' !in args[i]
  {
    hide Quoted, Room, Parse, Cut, Joined, Spaced;
    var all := [name] + args;
    ghost var seen := CutAll(all);
    var room := MeasureRoom(all);
    var dst := new char[room + 1];
    var pos := 0;
    var i := 0;
    RoomNone();
    assert seen[..0] == [];
    while i < |all|
      invariant 0 <= i <= |all| && 0 <= pos <= Room(seen[..i]) && Room(seen[..i]) <= Room(seen)
      invariant if i == 0 then pos == 0 else pos > 0 && dst[..pos - 1] == Joined(seen[..i])
      invariant 0 < i < |all| ==> dst[pos - 1] == ' '
    {
      RoomGrows(seen, i);
      RoomStep(seen, i);
      ghost var before := dst[..pos];
      var end := QuoteArgument(all[i], dst, pos);
      assert dst[..end] == before + Quoted(seen[i]);
      JoinedGrows(seen, i, before);
      dst[end] := if i + 1 < |all| then ' ' else '\0';
      pos := end + 1;
      i := i + 1;
    }
    assert seen[..i] == seen && seen == [Cut(name)] + CutAll(args);
    JoinedAll(Cut(name), CutAll(args));
    line := dst[..pos - 1];
    assert line[|Quoted(Cut(name))|..] == Spaced(CutAll(args));
    RoundTripUncut(args);
  }

  /** The room for every argument, measured with `wcslen`. */
  method MeasureRoom(all: seq<string>) returns (room: nat)
    ensures room == Room(CutAll(all))
  {
    hide Cut;
    ghost var seen := CutAll(all);
    room := 0;
    var i := 0;
    assert seen[..0] == [];
    while i < |all|
      invariant i <= |all| && room == Room(seen[..i])
    {
      assert seen[..i + 1][..i] == seen[..i];
      var n := WideLength(all[i]);
      room := room + 2 * n + 3;
      i := i + 1;
    }
    assert seen[..i] == seen;
  }

  function Joined(args: seq<string>): string
    requires args != []
  {
    if |args| == 1 then Quoted(args[0]) else Joined(args[..|args| - 1]) + " " + Quoted(args[|args| - 1])
  }

  lemma JoinedGrows(all: seq<string>, i: nat, before: string)
    requires i < |all| && (if i == 0 then before == "" else before == Joined(all[..i]) + " ")
    ensures before + Quoted(all[i]) == Joined(all[..i + 1])
  {
    hide Quoted;
    assert all[..i + 1][..i] == all[..i];
    if i == 0 { assert "" + Quoted(all[0]) == Quoted(all[0]); }
  }

  lemma {:induction false} JoinedAll(name: string, args: seq<string>)
    ensures Joined([name] + args) == Quoted(name) + Spaced(args)
  {
    hide Quoted;
    if args == [] {
      assert [name] + args == [name];
      assert Quoted(name) + Spaced([]) == Quoted(name);
    } else {
      var a := args[..|args| - 1];
      JoinedAll(name, a);
      assert ([name] + args)[..|args|] == [name] + a;
      Assoc(Quoted(name), Spaced(a), " ", Quoted(args[|args| - 1]));
    }
  }

  lemma Assoc(a: string, b: string, c: string, d: string)
    ensures a + b + c + d == a + (b + c + d)
  {
  }

  lemma RoomNone()
    ensures Room([]) == 0
  {
  }

  lemma RoomStep(all: seq<string>, i: nat)
    requires i < |all|
    ensures Room(all[..i + 1]) == Room(all[..i]) + 2 * |all[i]| + 3 && Room(all[..i + 1]) <= Room(all)
  {
    assert all[..i + 1][..i] == all[..i];
    if i + 1 < |all| { RoomGrows(all, i + 1); } else { assert all[..i + 1] == all; }
  }
}
