/** Bytes, and the shape of UTF-8 (section 4 of RFC 3629). */
module Utf8Form {
  newtype byte = x: int | 0 <= x < 256

  /** The length of a character by its first byte; 0 when no character starts so. */
  function Length(b: byte): (n: nat)
    ensures n <= 4
  {
    if b <= 0x7f then 1
    else if 0xc2 <= b <= 0xdf then 2
    else if 0xe0 <= b <= 0xef then 3
    else if 0xf0 <= b <= 0xf4 then 4
    else 0
  }

  predicate IsTail(b: byte) {
    0x80 <= b <= 0xbf
  }

  /** Which second bytes a first byte allows. */
  predicate Second(first: byte, b: byte) {
    && IsTail(b)
    && (first == 0xe0 ==> b >= 0xa0) && (first == 0xed ==> b <= 0x9f)
    && (first == 0xf0 ==> b >= 0x90) && (first == 0xf4 ==> b <= 0x8f)
  }

  /** The beginning of a character, or all of it. */
  predicate Partial(s: seq<byte>) {
    && 1 <= |s| <= Length(s[0]) && (|s| >= 2 ==> Second(s[0], s[1]))
    && forall i :: 2 <= i < |s| ==> IsTail(s[i])
  }

  predicate IsChar(s: seq<byte>) {
    Partial(s) && |s| == Length(s[0])
  }

  /** A string of characters. */
  predicate WellFormed(s: seq<byte>)
    decreases |s|
  {
    s == [] || exists k :: 1 <= k <= |s| && IsChar(s[..k]) && WellFormed(s[k..])
  }

  /** Bytes are the beginning of a character exactly when more bytes can make them one. */
  lemma PartialIff(s: seq<byte>)
    ensures Partial(s) <==> s != [] && exists t :: IsChar(s + t)
  {
    if Partial(s) { var t := Completed(s); }
    if s != [] {
      forall t | IsChar(s + t) ensures Partial(s) { FrontIsPartial(s, t); }
    }
  }

  lemma FrontIsPartial(s: seq<byte>, t: seq<byte>)
    requires s != [] && IsChar(s + t)
    ensures Partial(s)
  {
    assert forall i :: 0 <= i < |s| ==> (s + t)[i] == s[i];
  }

  lemma {:induction false} Completed(s: seq<byte>) returns (t: seq<byte>)
    requires Partial(s)
    ensures IsChar(s + t)
    decreases 4 - |s|
  {
    if |s| == Length(s[0]) {
      t := [];
      assert s + t == s;
    } else {
      var b: byte := if |s| > 1 then 0x80 else if s[0] == 0xe0 then 0xa0 else if s[0] == 0xf0 then 0x90 else 0x80;
      assert (s + [b])[0] == s[0];
      var u := Completed(s + [b]);
      t := [b] + u;
      assert s + t == s + [b] + u;
    }
  }

  const REPLACEMENT: seq<byte> := [0xef, 0xbf, 0xbd]

  /** How much of `s` one replacement stands for: its longest beginning that begins a character, and at least a byte. */
  function Subpart(s: seq<byte>): (k: nat)
    requires s != []
    ensures 1 <= k <= |s| && (Partial(s[..k]) || k == 1)
    ensures forall j :: k < j <= |s| ==> !Partial(s[..j])
  {
    if |s| >= 4 && Partial(s[..4]) then 4
    else if |s| >= 3 && Partial(s[..3]) then 3
    else if |s| >= 2 && Partial(s[..2]) then 2
    else 1
  }

  /** Characters stay; every maximal subpart that is none becomes one replacement. */
  function Repaired(s: seq<byte>): seq<byte>
    decreases |s|
  {
    if s == [] then []
    else
      var k := Subpart(s);
      (if IsChar(s[..k]) then s[..k] else REPLACEMENT) + Repaired(s[k..])
  }

  lemma {:induction false} RepairedWellFormed(s: seq<byte>)
    ensures WellFormed(Repaired(s)) && |Repaired(s)| <= 3 * |s|
    decreases |s|
  {
    if s != [] {
      var k := Subpart(s);
      RepairedWellFormed(s[k..]);
      var c := if IsChar(s[..k]) then s[..k] else REPLACEMENT;
      assert Repaired(s)[..|c|] == c && Repaired(s)[|c|..] == Repaired(s[k..]);
      assert IsChar(c);
    }
  }

  lemma SubpartChar(s: seq<byte>, k: nat)
    requires 1 <= k <= |s| && IsChar(s[..k])
    ensures Subpart(s) == k
  {
    assert s[..k][0] == s[0];
    var m := Subpart(s);
    assert s[..m][0] == s[0];
  }

  /** Exactly the well-formed strings come back unchanged. */
  lemma RepairedIdentity(s: seq<byte>)
    ensures WellFormed(s) <==> Repaired(s) == s
  {
    RepairedWellFormed(s);
    if WellFormed(s) { WellFormedStays(s); }
  }

  lemma {:induction false} WellFormedStays(s: seq<byte>)
    requires WellFormed(s)
    ensures Repaired(s) == s
    decreases |s|
  {
    if s != [] {
      var k :| 1 <= k <= |s| && IsChar(s[..k]) && WellFormed(s[k..]);
      WellFormedStays(s[k..]);
      CharStays(s, k);
    }
  }

  lemma CharStays(s: seq<byte>, k: nat)
    requires 1 <= k <= |s| && IsChar(s[..k]) && Repaired(s[k..]) == s[k..]
    ensures Repaired(s) == s
  {
    SubpartChar(s, k);
    assert Repaired(s) == s[..k] + Repaired(s[k..]);
    hide Repaired, IsChar, Subpart;
    assert s == s[..k] + s[k..];
  }
}

/** The decoder behind `toString("utf8")`. */
module Utf8Decode {
  import opened Utf8Form

  /** Inside a character: `needed` more bytes, the next of them in `lower..upper`. */
  datatype State = State(cp: int, needed: nat, lower: byte, upper: byte)

  const START := State(0, 0, 0x80, 0xbf)

  /** The state after part of a character. */
  ghost predicate After(st: State, p: seq<byte>) {
    if p == [] then st.needed == 0 && st.lower == 0x80 && st.upper == 0xbf
    else
      && Partial(p) && |p| < Length(p[0]) && st.needed == Length(p[0]) - |p| && st.cp == CodePoint(p)
      && (forall b: byte :: Partial(p + [b]) <==> st.lower <= b <= st.upper)
  }

  /** The bits of a character read so far. */
  function CodePoint(p: seq<byte>): int
    requires p != []
  {
    if |p| == 1 then
      var b := p[0] as int;
      match Length(p[0]) case 2 => b % 32 case 3 => b % 16 case 4 => b % 8 case _ => b
    else CodePoint(p[..|p| - 1]) * 64 + p[|p| - 1] as int % 64
  }

  /** A code point's bytes. */
  function Encode(cp: int): (s: seq<byte>)
    requires 0 <= cp <= 0x10ffff
    ensures 1 <= |s| <= 4
  {
    if cp <= 0x7f then [cp as byte]
    else if cp <= 0x7ff then [(0xc0 + cp / 64) as byte, (0x80 + cp % 64) as byte]
    else if cp <= 0xffff then [(0xe0 + cp / 4096) as byte, (0x80 + cp / 64 % 64) as byte, (0x80 + cp % 64) as byte]
    else [(0xf0 + cp / 262144) as byte, (0x80 + cp / 4096 % 64) as byte, (0x80 + cp / 64 % 64) as byte,
          (0x80 + cp % 64) as byte]
  }

  lemma Split64(q: int, r: int)
    requires 0 <= r < 64
    ensures (q * 64 + r) / 64 == q && (q * 64 + r) % 64 == r
  {
  }

  lemma Nested64(n: int)
    requires n >= 0
    ensures n / 64 / 64 == n / 4096 && n / 4096 / 64 == n / 262144
  {
  }

  lemma Bits2(a: int, b: int)
    requires 0xc2 <= a <= 0xdf && 0x80 <= b <= 0xbf
    ensures var cp := a % 32 * 64 + b % 64; 0x7f < cp <= 0x7ff && 0xc0 + cp / 64 == a && 0x80 + cp % 64 == b
  {
    Split64(a - 0xc0, b - 0x80);
  }

  lemma Bits3(a: int, b: int, c: int)
    requires 0xe0 <= a <= 0xef && 0x80 <= b <= 0xbf && 0x80 <= c <= 0xbf && (a == 0xe0 ==> b >= 0xa0)
    ensures var cp := (a % 16 * 64 + b % 64) * 64 + c % 64;
      0x7ff < cp <= 0xffff && 0xe0 + cp / 4096 == a && 0x80 + cp / 64 % 64 == b && 0x80 + cp % 64 == c
  {
    Split64(a - 0xe0, b - 0x80);
    Split64((a - 0xe0) * 64 + (b - 0x80), c - 0x80);
  }

  lemma Bits4(a: int, b: int, c: int, d: int)
    requires 0xf0 <= a <= 0xf4 && 0x80 <= b <= 0xbf && 0x80 <= c <= 0xbf && 0x80 <= d <= 0xbf
    requires (a == 0xf0 ==> b >= 0x90) && (a == 0xf4 ==> b <= 0x8f)
    ensures var cp := ((a % 8 * 64 + b % 64) * 64 + c % 64) * 64 + d % 64;
      && 0xffff < cp <= 0x10ffff && 0xf0 + cp / 262144 == a && 0x80 + cp / 4096 % 64 == b
      && 0x80 + cp / 64 % 64 == c && 0x80 + cp % 64 == d
  {
    Sextets4(a % 8, b % 64, c % 64, d % 64);
  }

  lemma Sextets4(a: int, b: int, c: int, d: int)
    requires 0 <= a && 0 <= b < 64 && 0 <= c < 64 && 0 <= d < 64
    ensures var cp := ((a * 64 + b) * 64 + c) * 64 + d;
      cp / 262144 == a && cp / 4096 % 64 == b && cp / 64 % 64 == c && cp % 64 == d
    ensures var cp := ((a * 64 + b) * 64 + c) * 64 + d;
      (a > 0 || b >= 16 ==> cp > 0xffff) && (a < 4 || (a == 4 && b < 16) ==> cp <= 0x10ffff)
  {
    var u := a * 64 + b;
    var v := u * 64 + c;
    Split64(a, b);
    Split64(u, c);
    Split64(v, d);
    Nested64(v * 64 + d);
  }

  lemma CodePointForm(p: seq<byte>)
    requires IsChar(p)
    ensures |p| == 1 ==> CodePoint(p) == p[0] as int
    ensures |p| == 2 ==> CodePoint(p) == p[0] as int % 32 * 64 + p[1] as int % 64
    ensures |p| == 3 ==> CodePoint(p) == (p[0] as int % 16 * 64 + p[1] as int % 64) * 64 + p[2] as int % 64
    ensures |p| == 4 ==>
      CodePoint(p) == ((p[0] as int % 8 * 64 + p[1] as int % 64) * 64 + p[2] as int % 64) * 64 + p[3] as int % 64
  {
    if |p| == 2 {
      assert p[..1] == [p[0]];
    } else if |p| == 3 {
      assert p[..2][..1] == [p[0]];
    } else if |p| == 4 {
      assert p[..3][..2] == p[..2] && p[..2][..1] == [p[0]];
    }
  }

  /** Decoding a character and encoding it again gives its bytes. */
  lemma EncodeDecoded(p: seq<byte>)
    requires IsChar(p)
    ensures 0 <= CodePoint(p) <= 0x10ffff && Encode(CodePoint(p)) == p
  {
    match |p| {
      case 1 =>
      case 2 => EncodeDecoded2(p);
      case 3 => EncodeDecoded3(p);
      case _ => EncodeDecoded4(p);
    }
  }

  lemma EncodeDecoded2(p: seq<byte>)
    requires IsChar(p) && |p| == 2
    ensures 0 <= CodePoint(p) <= 0x10ffff && Encode(CodePoint(p)) == p
  {
    CodePointForm(p);
    hide CodePoint, Encode;
    Bits2(p[0] as int, p[1] as int);
    EncodeBytes(CodePoint(p), p);
  }

  lemma EncodeDecoded3(p: seq<byte>)
    requires IsChar(p) && |p| == 3
    ensures 0 <= CodePoint(p) <= 0x10ffff && Encode(CodePoint(p)) == p
  {
    CodePointForm(p);
    hide CodePoint, Encode;
    Bits3(p[0] as int, p[1] as int, p[2] as int);
    EncodeBytes(CodePoint(p), p);
  }

  lemma EncodeDecoded4(p: seq<byte>)
    requires IsChar(p) && |p| == 4
    ensures 0 <= CodePoint(p) <= 0x10ffff && Encode(CodePoint(p)) == p
  {
    CodePointForm(p);
    hide CodePoint, Encode;
    Bits4(p[0] as int, p[1] as int, p[2] as int, p[3] as int);
    EncodeBytes(CodePoint(p), p);
  }

  lemma EncodeBytes(cp: int, p: seq<byte>)
    requires 0 <= cp <= 0x10ffff
    requires |p| == 2 ==> 0x7f < cp <= 0x7ff && 0xc0 + cp / 64 == p[0] as int && 0x80 + cp % 64 == p[1] as int
    requires |p| == 3 ==> (0x7ff < cp <= 0xffff && 0xe0 + cp / 4096 == p[0] as int
      && 0x80 + cp / 64 % 64 == p[1] as int && 0x80 + cp % 64 == p[2] as int)
    requires |p| == 4 ==> (0xffff < cp && 0xf0 + cp / 262144 == p[0] as int && 0x80 + cp / 4096 % 64 == p[1] as int
      && 0x80 + cp / 64 % 64 == p[2] as int && 0x80 + cp % 64 == p[3] as int)
    ensures 2 <= |p| <= 4 ==> Encode(cp) == p
  {
  }

  /** A Unicode scalar value: a code point that is no surrogate. */
  predicate IsScalar(cp: int) {
    0 <= cp < 0xd800 || 0xdfff < cp <= 0x10ffff
  }

  /** The characters are the encodings of the scalar values: no overlong forms, no surrogates, nothing too large. */
  lemma CharIffScalar(p: seq<byte>)
    ensures IsChar(p) <==> exists cp :: IsScalar(cp) && p == Encode(cp)
  {
    if IsChar(p) {
      EncodeDecoded(p);
      NoSurrogate(p);
      assert IsScalar(CodePoint(p)) && p == Encode(CodePoint(p));
    }
    forall cp | IsScalar(cp) ensures IsChar(Encode(cp)) { ScalarIsChar(cp); }
  }

  lemma NoSurrogate(p: seq<byte>)
    requires IsChar(p) && 0 <= CodePoint(p) <= 0x10ffff && Encode(CodePoint(p)) == p
    ensures IsScalar(CodePoint(p))
  {
    hide CodePoint;
  }

  lemma ScalarIsChar(cp: int)
    requires IsScalar(cp)
    ensures IsChar(Encode(cp))
  {
    if 0x7ff < cp <= 0xffff {
      ThreeBytes(cp);
    } else if 0xffff < cp {
      FourBytes(cp);
    }
  }

  lemma ThreeBytes(cp: int)
    requires 0x7ff < cp <= 0xffff
    ensures 0xe0 <= 0xe0 + cp / 4096 <= 0xef
    ensures cp / 4096 == 0 ==> cp / 64 % 64 >= 0x20
    ensures cp / 4096 == 13 && (cp < 0xd800 || 0xdfff < cp) ==> cp / 64 % 64 < 0x20
  {
    Nested64(cp);
  }

  lemma FourBytes(cp: int)
    requires 0xffff < cp <= 0x10ffff
    ensures 0xf0 <= 0xf0 + cp / 262144 <= 0xf4
    ensures cp / 262144 == 0 ==> cp / 4096 % 64 >= 0x10
    ensures cp / 262144 == 4 ==> cp / 4096 % 64 < 0x10
  {
    Nested64(cp);
  }

  /** The first byte of a character, or none. */
  lemma Begins(b: byte)
    ensures Length(b) > 0 <==> Partial([b])
    ensures Length(b) == 1 ==> IsChar([b])
    ensures Length(b) == 0 ==> !IsChar([b]) && forall c: byte :: !Partial([b] + [c])
  {
    forall c: byte ensures Length(b) == 0 ==> !Partial([b] + [c]) { assert ([b] + [c])[0] == b; }
  }

  /** The next byte of a character, or not. */
  lemma Continues(st: State, p: seq<byte>, b: byte)
    requires p != [] && After(st, p)
    ensures Partial(p + [b]) <==> st.lower <= b <= st.upper
    ensures Partial(p + [b]) ==>
      CodePoint(p + [b]) == st.cp * 64 + b as int % 64 && (st.needed == 1 <==> IsChar(p + [b]))
    ensures Partial(p + [b]) && st.needed > 1 ==>
      After(State(st.cp * 64 + b as int % 64, st.needed - 1, 0x80, 0xbf), p + [b])
  {
    assert (p + [b])[..|p|] == p;
    if Partial(p + [b]) && st.needed > 1 {
      forall c: byte ensures Partial(p + [b] + [c]) <==> 0x80 <= c <= 0xbf {
        var s := p + [b] + [c];
        assert s[|s| - 1] == c && s[..|s| - 1] == p + [b] && s[0] == p[0];
        if IsTail(c) { TailExtends(p + [b], c); }
      }
    }
  }

  lemma TailExtends(p: seq<byte>, c: byte)
    requires |p| >= 2 && Partial(p) && |p| < Length(p[0]) && IsTail(c)
    ensures Partial(p + [c])
  {
  }

  lemma AfterLead(b: byte)
    requires Length(b) >= 2
    ensures After(Lead(b), [b])
  {
    assert forall c: byte :: ([b] + [c])[0] == b && ([b] + [c])[1] == c;
  }

  /** The maximal subpart at the front is exactly `p`. */
  lemma RepairFront(p: seq<byte>, rest: seq<byte>)
    requires p != [] && (Partial(p) || |p| == 1) && (IsChar(p) || rest == [] || !Partial(p + [rest[0]]))
    ensures Repaired(p + rest) == (if IsChar(p) then p else REPLACEMENT) + Repaired(rest)
  {
    var s := p + rest;
    assert s[..|p|] == p && s[|p|..] == rest;
    var k := Subpart(s);
    if k > |p| { NoLonger(p, rest, k); }
  }

  /** The example of the Unicode Standard for one replacement per maximal subpart (section 3.9, U+FFFD substitution). */
  lemma SubpartExample()
    ensures Repaired([0x61, 0xf1, 0x80, 0x80, 0xe1, 0x80, 0xc2, 0x62, 0x80, 0x63, 0x80, 0xbf, 0x64])
         == [0x61] + REPLACEMENT + REPLACEMENT + REPLACEMENT + [0x62] + REPLACEMENT + [0x63] + REPLACEMENT + REPLACEMENT
            + [0x64]
  {
    hide Repaired;
    var tail: seq<byte> := [0x63, 0x80, 0xbf, 0x64];
    var lead: byte, second: byte := 0xe1, 0xc2;
    assert ([0xf1, 0x80, 0x80] + [lead])[3] == lead && ([lead, 0x80] + [second])[2] == second;
    RepairFront([0x61], [0xf1, 0x80, 0x80, 0xe1, 0x80, 0xc2, 0x62, 0x80] + tail);
    RepairFront([0xf1, 0x80, 0x80], [0xe1, 0x80, 0xc2, 0x62, 0x80] + tail);
    RepairFront([0xe1, 0x80], [0xc2, 0x62, 0x80] + tail);
    RepairFront([0xc2], [0x62, 0x80] + tail);
    RepairFront([0x62], [0x80] + tail);
    RepairFront([0x80], tail);
    ExampleTail();
    hide Partial, IsChar;
    assert [0x61] + ([0xf1, 0x80, 0x80, 0xe1, 0x80, 0xc2, 0x62, 0x80] + tail)
        == [0x61, 0xf1, 0x80, 0x80, 0xe1, 0x80, 0xc2, 0x62, 0x80, 0x63, 0x80, 0xbf, 0x64];
    assert [0xf1, 0x80, 0x80] + ([0xe1, 0x80, 0xc2, 0x62, 0x80] + tail)
        == [0xf1, 0x80, 0x80, 0xe1, 0x80, 0xc2, 0x62, 0x80] + tail;
    assert [0xe1, 0x80] + ([0xc2, 0x62, 0x80] + tail) == [0xe1, 0x80, 0xc2, 0x62, 0x80] + tail;
    assert [0xc2] + ([0x62, 0x80] + tail) == [0xc2, 0x62, 0x80] + tail;
    assert [0x62] + ([0x80] + tail) == [0x62, 0x80] + tail;
  }

  lemma ExampleTail()
    ensures Repaired([0x63, 0x80, 0xbf, 0x64]) == [0x63] + REPLACEMENT + REPLACEMENT + [0x64]
  {
    hide Repaired;
    RepairFront([0x63], [0x80, 0xbf, 0x64]);
    RepairFront([0x80], [0xbf, 0x64]);
    RepairFront([0xbf], [0x64]);
    RepairFront([0x64], []);
    assert Repaired([]) == [] by { NothingRepaired(); }
    assert [0x63] + [0x80, 0xbf, 0x64] == [0x63, 0x80, 0xbf, 0x64];
    assert [0x80] + [0xbf, 0x64] == [0x80, 0xbf, 0x64] && [0xbf] + [0x64] == [0xbf, 0x64];
    assert [0x64] + [] == [0x64];
  }

  lemma NothingRepaired()
    ensures Repaired([]) == []
  {
  }

  lemma NoLonger(p: seq<byte>, rest: seq<byte>, j: nat)
    requires p != [] && |p| < j <= |p + rest| && (IsChar(p) || !Partial(p + [rest[0]]))
    ensures !Partial((p + rest)[..j])
  {
    var s := (p + rest)[..j];
    assert s[0] == p[0] && s[..|p| + 1] == p + [rest[0]];
    if Partial(s) { PartialPrefix(s, |p| + 1); }
  }

  lemma PartialPrefix(s: seq<byte>, k: nat)
    requires 1 <= k <= |s| && Partial(s)
    ensures Partial(s[..k])
  {
  }

  /** `scr_bytes_decode_utf8`: `in` with every maximal subpart that is no character replaced. An unexpected byte ends
      the subpart and is looked at again. */
  method Decode(input: seq<byte>) returns (s: seq<byte>)
    ensures s == Repaired(input)
  {
    hide Repaired, Partial, IsChar, After, CodePoint, Encode, Length, Progress;
    var out := new byte[3 * |input| + 1];
    var o: nat := 0;
    var i := 0;
    var st := START;
    ghost var p: seq<byte> := [];
    AtStart(st);
    Unread(out[..o], input);
    while i < |input|
      invariant |p| <= i <= |input| && o <= 3 * (i - |p|) && After(st, p) && (p == [] <==> st.needed == 0)
      invariant Progress(out[..o], p, input, i)
      decreases |input| - i, st.needed
    {
      var b := input[i];
      ghost var was, p0 := out[..o], p;
      if st.needed == 0 {
        o, st, p := Begin(out, o, b, input[i + 1..]);
        ReadOne(was, p0, out[..o], p, input, i);
        i := i + 1;
      } else if b < st.lower || b > st.upper {
        Continues(st, p, b);
        o := Replace(out, o, st, p, input[i..]);
        st := START;
        p := [];
        AtStart(st);
        Reread(was, p0, out[..o], input, i);
      } else {
        o, st, p := Continue(out, o, st, p, b, input[i + 1..]);
        ReadOne(was, p0, out[..o], p, input, i);
        i := i + 1;
      }
    }
    ghost var was, p0 := out[..o], p;
    if st.needed > 0 {
      o := Replace(out, o, st, p, []);
      p := [];
    }
    AllRead(was, p0, out[..o], p, input, i);
    s := out[..o];
  }

  /** What was written, and the repair of what was not, make the repair of the input. */
  ghost predicate Progress(done: seq<byte>, p: seq<byte>, input: seq<byte>, i: nat)
    requires i <= |input|
  {
    done + Repaired(p + input[i..]) == Repaired(input)
  }

  lemma Unread(done: seq<byte>, input: seq<byte>)
    requires done == []
    ensures Progress(done, [], input, 0)
  {
    assert [] + input[0..] == input;
    assert [] + Repaired(input) == Repaired(input);
  }

  lemma ReadOne(was: seq<byte>, p0: seq<byte>, done: seq<byte>, p: seq<byte>, input: seq<byte>, i: nat)
    requires i < |input| && Progress(was, p0, input, i)
    requires done + Repaired(p + input[i + 1..]) == was + Repaired(p0 + [input[i]] + input[i + 1..])
    ensures Progress(done, p, input, i + 1)
  {
    hide Repaired;
    assert p0 + input[i..] == p0 + [input[i]] + input[i + 1..];
  }

  lemma Reread(was: seq<byte>, p0: seq<byte>, done: seq<byte>, input: seq<byte>, i: nat)
    requires i <= |input| && Progress(was, p0, input, i)
    requires done + Repaired(input[i..]) == was + Repaired(p0 + input[i..])
    ensures Progress(done, [], input, i)
  {
    hide Repaired;
    assert [] + input[i..] == input[i..];
  }

  lemma AllRead(was: seq<byte>, p0: seq<byte>, done: seq<byte>, p: seq<byte>, input: seq<byte>, i: nat)
    requires i == |input| && Progress(was, p0, input, i) && p == []
    requires if p0 == [] then done == was else done + Repaired([]) == was + Repaired(p0 + [])
    ensures done == Repaired(input)
  {
    assert Repaired([]) == [];
    assert p0 + input[i..] == p0 && p0 + [] == p0;
    assert done + [] == done && was + [] == was;
  }

  /** Part of a character that does not go on: one replacement. */
  method Replace(out: array<byte>, o: nat, ghost st: State, ghost p: seq<byte>, ghost rest: seq<byte>) returns (n: nat)
    requires o + 3 <= out.Length && p != [] && After(st, p) && (rest == [] || !Partial(p + [rest[0]]))
    modifies out
    ensures n == o + 3 && out[..n] + Repaired(rest) == old(out[..o]) + Repaired(p + rest)
  {
    hide Repaired, Partial, IsChar, After;
    PendingPartial(st, p);
    RepairFront(p, rest);
    n := Put(out, o, REPLACEMENT, Repaired(rest));
  }

  /** A byte that is not inside a character. */
  method Begin(out: array<byte>, o: nat, b: byte, ghost rest: seq<byte>) returns (n: nat, st: State, ghost p: seq<byte>)
    requires o + 3 <= out.Length
    modifies out
    ensures n <= out.Length && (if p == [] then n <= o + 3 else n == o && |p| == 1)
    ensures After(st, p) && (p == [] <==> st.needed == 0)
    ensures out[..n] + Repaired(p + rest) == old(out[..o]) + Repaired([] + [b] + rest)
  {
    assert [] + [b] + rest == [b] + rest;
    hide Repaired, Partial, IsChar, After, CodePoint, Encode, Length;
    Begins(b);
    Lengths(b);
    n, p := o, [];
    if 0xc2 <= b <= 0xf4 {
      AfterLead(b);
      st := Lead(b);
      p := [b];
    } else {
      st := START;
      AtStart(st);
      RepairFront([b], rest);
      n := Put(out, o, if b <= 0x7f then [b] else REPLACEMENT, Repaired(rest));
      assert [] + rest == rest;
    }
  }

  /** A byte that continues the character begun by `p0`, and may end it. */
  method Continue(out: array<byte>, o: nat, st0: State, ghost p0: seq<byte>, b: byte, ghost rest: seq<byte>)
    returns (n: nat, st: State, ghost p: seq<byte>)
    requires o + 3 * |p0| + 3 <= out.Length && p0 != []
    requires After(st0, p0) && st0.needed > 0 && st0.lower <= b <= st0.upper
    modifies out
    ensures n <= out.Length && (if p == [] then n <= o + 3 * (|p0| + 1) else n == o && p == p0 + [b])
    ensures After(st, p) && (p == [] <==> st.needed == 0)
    ensures out[..n] + Repaired(p + rest) == old(out[..o]) + Repaired(p0 + [b] + rest)
  {
    hide Repaired, Partial, IsChar, After, CodePoint, Encode, Length;
    Continues(st0, p0, b);
    st := State(st0.cp * 64 + b as int % 64, st0.needed - 1, 0x80, 0xbf);
    n, p := o, p0 + [b];
    if st.needed == 0 {
      EncodeDecoded(p);
      RepairFront(p, rest);
      n := Put(out, o, Encode(st.cp), Repaired(rest));
      p := [];
      AtStart(st);
      assert [] + rest == rest;
    }
  }

  /** The state after a first byte of a longer character. */
  function Lead(b: byte): State
    requires Length(b) >= 2
  {
    if b <= 0xdf then State(b as int % 32, 1, 0x80, 0xbf)
    else if b <= 0xef then State(b as int % 16, 2, if b == 0xe0 then 0xa0 else 0x80, if b == 0xed then 0x9f else 0xbf)
    else State(b as int % 8, 3, if b == 0xf0 then 0x90 else 0x80, if b == 0xf4 then 0x8f else 0xbf)
  }

  lemma AtStart(st: State)
    requires st.needed == 0 && st.lower == 0x80 && st.upper == 0xbf
    ensures After(st, [])
  {
  }

  lemma Lengths(b: byte)
    ensures Length(b) == 1 <==> b <= 0x7f
    ensures Length(b) >= 2 <==> 0xc2 <= b <= 0xf4
    ensures Length(b) >= 2 ==> Lead(b).needed > 0
  {
  }

  lemma PendingPartial(st: State, p: seq<byte>)
    requires After(st, p) && p != []
    ensures Partial(p) && !IsChar(p)
  {
  }

  /** Appends bytes to the output. */
  method Put(out: array<byte>, o: nat, c: seq<byte>, ghost rest: seq<byte>) returns (n: nat)
    requires o + |c| <= out.Length
    modifies out
    ensures n == o + |c| && out[..n] == old(out[..o]) + c && out[..n] + rest == old(out[..o]) + (c + rest)
  {
    forall k | 0 <= k < |c| { out[o + k] := c[k]; }
    n := o + |c|;
    assert out[..n] == old(out[..o]) + c;
  }
}
