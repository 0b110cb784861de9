/** Base64 (sections 4 and 5 of RFC 4648): the encoder of both alphabets and the lenient decoder. */
module Base64 {
  import opened Utf8Form

  type Six = v: int | 0 <= v < 64

  /** Six bits as a character. */
  function Digit(v: Six, url: bool): (c: byte)
    ensures DigitValue(c) == v && c != 0x3d
  {
    if v < 26 then (0x41 + v) as byte
    else if v < 52 then (0x61 + v - 26) as byte
    else if v < 62 then (0x30 + v - 52) as byte
    else if v == 62 then (if url then 0x2d else 0x2b)
    else (if url then 0x5f else 0x2f)
  }

  /** The six bits of a character of either alphabet; -1 for any other byte. */
  function DigitValue(c: byte): (v: int)
    ensures -1 <= v < 64
    ensures v >= 0 <==> LetterOrDigit(c) || c == 0x2b || c == 0x2d || c == 0x2f || c == 0x5f
  {
    if 0x41 <= c <= 0x5a then c as int - 0x41
    else if 0x61 <= c <= 0x7a then c as int - 0x61 + 26
    else if 0x30 <= c <= 0x39 then c as int - 0x30 + 52
    else if c == 0x2b || c == 0x2d then 62
    else if c == 0x2f || c == 0x5f then 63
    else -1
  }

  const PAD: byte := 0x3d

  /** Up to three bytes as the top of 24 bits. */
  function Bits(g: seq<byte>): (v: nat)
    requires 1 <= |g| <= 3
    ensures v < 16777216
  {
    g[0] as int * 65536 + (if |g| > 1 then g[1] as int else 0) * 256 + (if |g| > 2 then g[2] as int else 0)
  }

  /** The characters of a group of `k` bytes. */
  function Quad(v: nat, k: nat, url: bool): (s: seq<byte>)
    ensures |s| <= 4
  {
    Pair(v, url) + Maybe(v / 64 % 64, k > 1, url) + Maybe(v % 64, k > 2, url)
  }

  function Pair(v: nat, url: bool): seq<byte> {
    [Digit(v / 262144 % 64, url), Digit(v / 4096 % 64, url)]
  }

  function Maybe(d: Six, present: bool, url: bool): seq<byte> {
    if present then [Digit(d, url)] else if url then [] else [PAD]
  }

  function Group(g: seq<byte>, url: bool): (s: seq<byte>)
    requires 1 <= |g| <= 3
    ensures |s| <= 4
  {
    Quad(Bits(g), |g|, url)
  }

  /** The encoding, three bytes at a time. */
  function Encoded(s: seq<byte>, url: bool): seq<byte> {
    if s == [] then [] else if |s| < 3 then Group(s, url) else Group(s[..3], url) + Encoded(s[3..], url)
  }

  lemma Assoc(x: seq<byte>, y: seq<byte>, z: seq<byte>)
    ensures x + (y + z) == x + y + z
  {
  }

  lemma SplitThree(a: seq<byte>, b: seq<byte>)
    requires |a| >= 3
    ensures (a + b)[..3] == a[..3] && (a + b)[3..] == a[3..] + b
  {
  }

  lemma EncodedStep(s: seq<byte>, url: bool)
    requires |s| >= 3
    ensures Encoded(s, url) == Group(s[..3], url) + Encoded(s[3..], url)
  {
  }

  /** Encoding splits at groups of three bytes. */
  lemma {:induction false} EncodedConcat(a: seq<byte>, b: seq<byte>, url: bool)
    requires |a| % 3 == 0
    ensures Encoded(a + b, url) == Encoded(a, url) + Encoded(b, url)
    decreases |a|
  {
    if a == [] {
      assert a + b == b;
      EncodedNone(url);
      assert [] + Encoded(b, url) == Encoded(b, url);
    } else {
      EncodedConcat(a[3..], b, url);
      ConcatStep(a, b, url);
    }
  }

  lemma ConcatStep(a: seq<byte>, b: seq<byte>, url: bool)
    requires |a| >= 3 && Encoded(a[3..] + b, url) == Encoded(a[3..], url) + Encoded(b, url)
    ensures Encoded(a + b, url) == Encoded(a, url) + Encoded(b, url)
  {
    hide Encoded, Group;
    SplitThree(a, b);
    EncodedStep(a, url);
    EncodedStep(a + b, url);
    Assoc(Group(a[..3], url), Encoded(a[3..], url), Encoded(b, url));
  }

  /** The values of the characters that have one. */
  function Values(s: seq<byte>): (vs: seq<Six>)
    ensures |vs| <= |s|
  {
    if s == [] then []
    else Values(s[..|s| - 1]) + if DigitValue(s[|s| - 1]) < 0 then [] else [DigitValue(s[|s| - 1])]
  }

  lemma {:induction false} ValuesConcat(a: seq<byte>, b: seq<byte>)
    ensures Values(a + b) == Values(a) + Values(b)
  {
    if b == [] {
      assert a + b == a;
    } else {
      assert (a + b)[..|a + b| - 1] == a + b[..|b| - 1];
      ValuesConcat(a, b[..|b| - 1]);
    }
  }

  /** The bits of some values, as one number. */
  function Gathered(vs: seq<Six>): nat {
    if vs == [] then 0 else Gathered(vs[..|vs| - 1]) * 64 + vs[|vs| - 1]
  }

  /** Four values make three bytes; a tail of two or three makes one or two. */
  function Bytes(vs: seq<Six>): seq<byte> {
    if |vs| >= 4 then
      var acc := Gathered(vs[..4]);
      [(acc / 65536 % 256) as byte, (acc / 256 % 256) as byte, (acc % 256) as byte] + Bytes(vs[4..])
    else if |vs| == 3 then [(Gathered(vs) / 1024 % 256) as byte, (Gathered(vs) / 4 % 256) as byte]
    else if |vs| == 2 then [(Gathered(vs) / 16 % 256) as byte]
    else []
  }

  /** What decoding a string gives: its characters of either alphabet, and nothing else, count. */
  function Decoded(s: seq<byte>): seq<byte> {
    Bytes(Values(s))
  }

  /** The decoder is lenient: whatever is in neither alphabet, padding included, is skipped wherever it stands. */
  lemma ForeignSkipped(a: seq<byte>, c: byte, b: seq<byte>)
    requires !LetterOrDigit(c) && c != 0x2b && c != 0x2d && c != 0x2f && c != 0x5f
    ensures Decoded(a + [c] + b) == Decoded(a + b)
  {
    ValuesOf(c);
    ValuesConcat(a + [c], b);
    ValuesConcat(a, [c]);
    ValuesConcat(a, b);
    assert Values(a) + [] == Values(a);
  }

  lemma ValuesOf(c: byte)
    ensures Values([c]) == if DigitValue(c) < 0 then [] else [DigitValue(c)]
  {
    assert [c][..0] == [];
  }

  lemma MaybeValues(d: Six, present: bool, url: bool)
    ensures Values(Maybe(d, present, url)) == if present then [d] else []
  {
    ValuesNone();
    ValuesOf(Digit(d, url));
    ValuesOf(PAD);
  }

  /** The values of a group's characters. */
  lemma QuadValues(v: nat, k: nat, url: bool)
    ensures Values(Quad(v, k, url)) == Sextets(v, k)
  {
    var c0, c1 := Digit(v / 262144 % 64, url), Digit(v / 4096 % 64, url);
    ValuesOf(c0);
    ValuesOf(c1);
    MaybeValues(v / 64 % 64, k > 1, url);
    MaybeValues(v % 64, k > 2, url);
    assert DigitValue(c0) == v / 262144 % 64 && DigitValue(c1) == v / 4096 % 64;
    hide Values, Digit, DigitValue, Maybe;
    FourValues([c0], [c1], Maybe(v / 64 % 64, k > 1, url), Maybe(v % 64, k > 2, url));
    assert [c0] + [c1] == Pair(v, url);
    assert [v / 262144 % 64] + [v / 4096 % 64] == [v / 262144 % 64, v / 4096 % 64];
  }

  lemma FourValues(a: seq<byte>, b: seq<byte>, c: seq<byte>, d: seq<byte>)
    ensures Values(a + b + c + d) == Values(a) + Values(b) + Values(c) + Values(d)
  {
    ValuesConcat(a, b);
    ValuesConcat(a + b, c);
    ValuesConcat(a + b + c, d);
  }

  lemma ValuesNone()
    ensures Values([]) == []
  {
  }

  function Sextets(v: nat, k: nat): (vs: seq<Six>) {
    [v / 262144 % 64, v / 4096 % 64] + (if k > 1 then [v / 64 % 64] else []) + (if k > 2 then [v % 64] else [])
  }

  lemma GatheredForm(vs: seq<Six>)
    requires |vs| <= 4
    ensures |vs| == 2 ==> Gathered(vs) == vs[0] as int * 64 + vs[1]
    ensures |vs| == 3 ==> Gathered(vs) == (vs[0] as int * 64 + vs[1]) * 64 + vs[2]
    ensures |vs| == 4 ==> Gathered(vs) == ((vs[0] as int * 64 + vs[1]) * 64 + vs[2]) * 64 + vs[3]
  {
    if vs == [] { return; }
    assert [vs[0]][..0] == [];
    assert Gathered([vs[0]]) == vs[0];
    if |vs| == 2 {
      assert vs[..1] == [vs[0]];
    } else if |vs| == 3 {
      assert vs[..2] == [vs[0], vs[1]] && vs[..2][..1] == [vs[0]];
    } else if |vs| == 4 {
      assert vs[..3] == [vs[0], vs[1], vs[2]] && vs[..3][..2] == [vs[0], vs[1]] && vs[..3][..2][..1] == [vs[0]];
    }
  }

  /** Splitting 24 bits into sixes and gathering them again. */
  lemma Sixes(v: nat)
    requires v < 16777216
    ensures Gathered(Sextets(v, 3)) == v
    ensures v % 64 == 0 ==> Gathered(Sextets(v, 2)) == v / 64
    ensures v % 4096 == 0 ==> Gathered(Sextets(v, 1)) == v / 4096
  {
    GatheredForm(Sextets(v, 3));
    GatheredForm(Sextets(v, 2));
    GatheredForm(Sextets(v, 1));
    hide Gathered, Sextets;
    Divide(v);
  }

  lemma Divide(v: nat)
    requires v < 16777216
    ensures v / 262144 % 64 == v / 262144
    ensures v / 262144 * 64 + v / 4096 % 64 == v / 4096
    ensures v / 4096 * 64 + v / 64 % 64 == v / 64
    ensures v / 64 * 64 + v % 64 == v
  {
    assert v / 4096 / 64 == v / 262144;
    assert v / 64 / 64 == v / 4096;
  }

  lemma Eights(a: int, b: int, c: int)
    requires 0 <= a < 256 && 0 <= b < 256 && 0 <= c < 256
    ensures var v := a * 65536 + b * 256 + c; v < 16777216 && v / 65536 % 256 == a && v / 256 % 256 == b && v % 256 == c
    ensures var v := a * 65536 + b * 256; v % 64 == 0 && v / 64 / 1024 % 256 == a && v / 64 / 4 % 256 == b
    ensures var v := a * 65536; v % 4096 == 0 && v / 4096 / 16 % 256 == a
  {
    LowByte(a * 256 + b, c);
    LowByte(a, b);
    Nested(a * 65536 + b * 256 + c);
    Nested(a * 65536 + b * 256);
    Nested(a * 65536);
  }

  lemma LowByte(rest: int, low: int)
    requires 0 <= low < 256
    ensures (rest * 256 + low) % 256 == low && (rest * 256 + low) / 256 == rest
  {
  }

  lemma Nested(v: int)
    requires v >= 0
    ensures v / 65536 == v / 256 / 256 && v / 64 / 1024 == v / 65536
    ensures v / 64 / 4 == v / 256 && v / 4096 / 16 == v / 65536
  {
  }

  /** A whole group decodes to its bytes, whatever follows. */
  lemma FullGroup(g: seq<byte>, rest: seq<Six>)
    requires |g| == 3
    ensures Bytes(Sextets(Bits(g), 3) + rest) == g + Bytes(rest)
  {
    Eights(g[0] as int, g[1] as int, g[2] as int);
    Sixes(Bits(g));
    hide Gathered;
    var vs := Sextets(Bits(g), 3) + rest;
    assert vs[4..] == rest && vs[..4] == Sextets(Bits(g), 3);
  }

  lemma ShortGroup(g: seq<byte>)
    requires 1 <= |g| <= 2
    ensures Bytes(Sextets(Bits(g), |g|)) == g
  {
    Eights(g[0] as int, if |g| == 2 then g[1] as int else 0, 0);
    Sixes(Bits(g));
    hide Gathered;
  }

  /** Decoding undoes encoding, in either alphabet, padded or not. */
  lemma {:induction false} RoundTrip(s: seq<byte>, url: bool)
    ensures Decoded(Encoded(s, url)) == s
    decreases |s|
  {
    if s == [] {
    } else if |s| < 3 {
      QuadValues(Bits(s), |s|, url);
      ShortGroup(s);
    } else {
      RoundTrip(s[3..], url);
      QuadValues(Bits(s[..3]), 3, url);
      FullGroup(s[..3], Values(Encoded(s[3..], url)));
      ValuesConcat(Group(s[..3], url), Encoded(s[3..], url));
      assert s == s[..3] + s[3..];
    }
  }

  // The shape of an encoding --------------------------------------------------------------------------------

  const UPPER: string := "ABCDEFGHIJKLMNOPQRSTUVWXYZ"
  const LOWER: string := "abcdefghijklmnopqrstuvwxyz"
  const DIGITS: string := "0123456789"

  /** The alphabet of section 4 of RFC 4648, of which section 5 changes the last two characters. */
  lemma DigitTable(v: Six, url: bool)
    ensures v < 26 ==> Digit(v, url) as int == UPPER[v] as int
    ensures 26 <= v < 52 ==> Digit(v, url) as int == LOWER[v - 26] as int
    ensures 52 <= v < 62 ==> Digit(v, url) as int == DIGITS[v - 52] as int
    ensures Digit(62, url) as int == (if url then '-' else '+') as int
    ensures Digit(63, url) as int == (if url then '_' else '/') as int
  {
    Lengths();
    if v < 26 { Upper(v); } else if v < 52 { Lower(v - 26); } else if v < 62 { Decimal(v - 52); }
  }

  lemma Lengths()
    ensures |UPPER| == 26 && |LOWER| == 26 && |DIGITS| == 10
  {
  }

  lemma Upper(v: Six)
    requires v < 26
    ensures UPPER[v] as int == 0x41 + v
  {
  }

  lemma Lower(v: Six)
    requires v < 26
    ensures LOWER[v] as int == 0x61 + v
  {
  }

  lemma Decimal(v: Six)
    requires v < 10
    ensures DIGITS[v] as int == 0x30 + v
  {
  }

  /** The four characters of three bytes carry their bits from the top down. */
  lemma GroupBitsDown(a: byte, b: byte, c: byte, url: bool)
    ensures Group([a, b, c], url) == [Digit(a as int / 4, url), Digit(a as int % 4 * 16 + b as int / 16, url),
                                      Digit(b as int % 16 * 4 + c as int / 64, url), Digit(c as int % 64, url)]
  {
    SixesDown(a as int, b as int, c as int);
  }

  /** One byte or two at the end are followed by zero bits, and then by padding or by nothing. */
  lemma LastBitsDown(a: byte, b: byte, url: bool)
    ensures Group([a], url) == [Digit(a as int / 4, url), Digit(a as int % 4 * 16, url)]
                               + if url then [] else [PAD, PAD]
    ensures Group([a, b], url) == [Digit(a as int / 4, url), Digit(a as int % 4 * 16 + b as int / 16, url),
                                   Digit(b as int % 16 * 4, url)] + if url then [] else [PAD]
  {
    SixesDown(a as int, 0, 0);
    SixesDown(a as int, b as int, 0);
  }

  lemma SixesDown(a: int, b: int, c: int)
    requires 0 <= a < 256 && 0 <= b < 256 && 0 <= c < 256
    ensures var v := a * 65536 + b * 256 + c;
      && v / 262144 % 64 == a / 4 && v / 4096 % 64 == a % 4 * 16 + b / 16
      && v / 64 % 64 == b % 16 * 4 + c / 64 && v % 64 == c % 64
  {
    Nested(a * 65536 + b * 256 + c);
    LowByte(a * 256 + b, c);
    LowByte(a, b);
    TopDown(a, b, c);
    SixLow(a / 4, a % 4 * 16 + b / 16);
    SixLow(a * 16 + b / 16, b % 16 * 4 + c / 64);
    SixLow(a * 1024 + b * 4 + c / 64, c % 64);
  }

  /** What each division by 64 leaves. */
  lemma TopDown(a: int, b: int, c: int)
    requires 0 <= a < 256 && 0 <= b < 256 && 0 <= c < 256
    ensures var v := a * 65536 + b * 256 + c;
      && v / 262144 == a / 4 && v / 4096 == a / 4 * 64 + (a % 4 * 16 + b / 16)
      && v / 64 == (a * 16 + b / 16) * 64 + (b % 16 * 4 + c / 64) && v == (a * 1024 + b * 4 + c / 64) * 64 + c % 64
  {
  }

  lemma SixLow(q: int, r: int)
    requires 0 <= r < 64
    ensures (q * 64 + r) % 64 == r
  {
  }

  predicate LetterOrDigit(c: byte) {
    0x41 <= c <= 0x5a || 0x61 <= c <= 0x7a || 0x30 <= c <= 0x39
  }

  /** The characters an encoding may contain besides padding. */
  predicate InAlphabet(c: byte, url: bool) {
    LetterOrDigit(c) || if url then c == 0x2d || c == 0x5f else c == 0x2b || c == 0x2f
  }

  /** How much padding the standard encoding of `n` bytes ends with. */
  function Padding(n: nat): nat {
    (3 - n % 3) % 3
  }

  /** Characters of the alphabet, then `pad` times the padding. */
  predicate Padded(e: seq<byte>, pad: nat, url: bool) {
    && pad <= |e| && (forall i :: 0 <= i < |e| - pad ==> InAlphabet(e[i], url))
    && (forall i :: |e| - pad <= i < |e| ==> e[i] == PAD)
  }

  /** The standard encoding has four characters for every three bytes begun and ends in the padding it needs; the url
      one has only what carries bits, and no padding. */
  lemma {:induction false} EncodedShape(s: seq<byte>)
    ensures |Encoded(s, false)| == (|s| + 2) / 3 * 4 && Padded(Encoded(s, false), Padding(|s|), false)
    ensures |Encoded(s, true)| == (4 * |s| + 2) / 3 && Padded(Encoded(s, true), 0, true)
    decreases |s|
  {
    hide Group, Padded;
    if |s| >= 3 {
      EncodedShape(s[3..]);
      GroupShape(s[..3], false);
      GroupShape(s[..3], true);
      ThreeLonger(|s| - 3);
      PaddedFurther(Group(s[..3], false), Encoded(s[3..], false), Padding(|s|), false);
      PaddedFurther(Group(s[..3], true), Encoded(s[3..], true), 0, true);
    } else if s != [] {
      GroupShape(s, false);
      GroupShape(s, true);
    } else {
      NothingPadded();
    }
  }

  lemma NothingPadded()
    ensures Padded([], 0, false) && Padded([], 0, true)
  {
  }

  lemma ThreeLonger(n: nat)
    ensures (n + 3 + 2) / 3 * 4 == 4 + (n + 2) / 3 * 4 && (4 * (n + 3) + 2) / 3 == 4 + (4 * n + 2) / 3
    ensures Padding(n + 3) == Padding(n)
  {
  }

  lemma GroupShape(g: seq<byte>, url: bool)
    requires 1 <= |g| <= 3
    ensures |Group(g, url)| == if url then |g| + 1 else 4
    ensures Padded(Group(g, url), if url then 0 else 3 - |g|, url)
  {
    DigitAlphabet(url);
  }

  lemma DigitAlphabet(url: bool)
    ensures forall v: Six :: InAlphabet(Digit(v, url), url)
  {
  }

  lemma PaddedFurther(a: seq<byte>, b: seq<byte>, pad: nat, url: bool)
    requires Padded(a, 0, url) && Padded(b, pad, url)
    ensures Padded(a + b, pad, url)
  {
  }

  lemma {:induction false} BytesConcat(a: seq<Six>, b: seq<Six>)
    requires |a| % 4 == 0
    ensures Bytes(a + b) == Bytes(a) + Bytes(b)
    decreases |a|
  {
    if a == [] {
      assert a + b == b;
    } else {
      hide Gathered;
      assert (a + b)[4..] == a[4..] + b && (a + b)[..4] == a[..4];
      BytesConcat(a[4..], b);
    }
  }

  /** `scr_bytes_encode_b64`. */
  method Encode(input: seq<byte>, url: bool) returns (s: seq<byte>)
    ensures s == Encoded(input, url)
  {
    var out := new byte[(|input| + 2) / 3 * 4 + 1];
    var o: nat := 0;
    var i := 0;
    ghost var k := 0;
    hide Encoded, Group;
    assert Rest(input, 0) == input by { assert input[0..] == input; }
    EncodedNone(url);
    while i < |input|
      invariant 0 <= i <= |input| + 2 && i == 3 * k && o <= 4 * k
      invariant out[..o] + Encoded(Rest(input, i), url) == Encoded(input, url)
    {
      RestGroup(input, i, url);
      GroupFits(|input|, k);
      o := PutGroup(out, o, input, i, url, Encoded(Rest(input, i + 3), url));
      i, k := i + 3, k + 1;
    }
    s := out[..o];
  }

  lemma GroupFits(n: nat, k: nat)
    requires 3 * k < n
    ensures 4 * k + 4 <= (n + 2) / 3 * 4
  {
  }

  lemma EncodedNone(url: bool)
    ensures Encoded([], url) == []
  {
  }

  function Rest(s: seq<byte>, i: nat): seq<byte> {
    if i < |s| then s[i..] else []
  }

  function Next(s: seq<byte>, i: nat): (g: seq<byte>)
    requires i < |s|
    ensures 1 <= |g| <= 3
  {
    if i + 3 <= |s| then s[i..i + 3] else s[i..]
  }

  lemma RestGroup(s: seq<byte>, i: nat, url: bool)
    requires i < |s|
    ensures Encoded(Rest(s, i), url) == Group(Next(s, i), url) + Encoded(Rest(s, i + 3), url)
  {
    if i + 3 <= |s| {
      assert s[i..][..3] == s[i..i + 3] && s[i..][3..] == s[i + 3..];
      if i + 3 == |s| { assert s[i..] == s[i..i + 3]; }
    }
  }

  lemma GroupIs(g: seq<byte>, url: bool)
    requires 1 <= |g| <= 3
    ensures Group(g, url) == Quad(Bits(g), |g|, url)
  {
  }

  /** Writes the characters of the group at `i`. */
  method PutGroup(out: array<byte>, o: nat, input: seq<byte>, i: nat, url: bool, ghost rest: seq<byte>) returns (n: nat)
    requires i < |input| && o + 4 <= out.Length
    modifies out
    ensures o <= n <= o + 4 && out[..n] == old(out[..o]) + Group(Next(input, i), url)
    ensures out[..n] + rest == old(out[..o]) + (Group(Next(input, i), url) + rest)
  {
    hide Digit, Bits, Next, Maybe;
    var v := GroupBits(input, i);
    ghost var k := |Next(input, i)|;
    NextLength(input, i);
    out[o], out[o + 1] := Digit(v / 262144 % 64, url), Digit(v / 4096 % 64, url);
    n := PutMaybe(out, o + 2, v / 64 % 64, i + 1 < |input|, url);
    n := PutMaybe(out, n, v % 64, i + 2 < |input|, url);
    assert out[..n] == old(out[..o]) + (Pair(v, url) + Maybe(v / 64 % 64, k > 1, url) + Maybe(v % 64, k > 2, url));
    hide Group;
    assert Group(Next(input, i), url) == Quad(v, k, url) by { GroupIs(Next(input, i), url); }
  }

  /** Up to three bytes from `i`, as the top of 24 bits. */
  method GroupBits(input: seq<byte>, i: nat) returns (v: nat)
    requires i < |input|
    ensures v == Bits(Next(input, i))
  {
    v := input[i] as int * 65536;
    if i + 1 < |input| { v := v + input[i + 1] as int * 256; }
    if i + 2 < |input| { v := v + input[i + 2] as int; }
  }

  lemma NextLength(s: seq<byte>, i: nat)
    requires i < |s|
    ensures |Next(s, i)| > 1 <==> i + 1 < |s|
    ensures |Next(s, i)| > 2 <==> i + 2 < |s|
  {
  }

  /** A character, or the padding for it. */
  method PutMaybe(out: array<byte>, o: nat, d: Six, present: bool, url: bool) returns (n: nat)
    requires o < out.Length
    modifies out
    ensures n <= o + 1 && out[..n] == old(out[..o]) + Maybe(d, present, url) && n == o + |Maybe(d, present, url)|
  {
    n := o;
    if present {
      out[n] := Digit(d, url);
      n := n + 1;
    } else if !url {
      out[n] := PAD;
      n := n + 1;
    }
  }

  /** The base64 arm of `scr_bytes_from_str`: it stays inside a buffer of `n / 4 * 3 + 2` bytes. */
  method Decode(input: seq<byte>) returns (s: seq<byte>)
    ensures s == Decoded(input) && |s| <= |input| / 4 * 3 + 2
  {
    hide Values, Bytes, Gathered, DigitValue, Read;
    var out := new byte[|input| / 4 * 3 + 2];
    var o: nat := 0;
    var acc, have: nat := 0, 0;
    var i := 0;
    ghost var done, held: seq<Six> := [], [];
    ghost var quads := 0;
    Nothing();
    NothingRead(input);
    while i < |input|
      invariant i <= |input| && |held| == have < 4 && acc == Gathered(held)
      invariant |done| == 4 * quads && o == 3 * quads && 4 * quads + have <= i
      invariant Read(input, i, done, held)
      invariant out[..o] == Bytes(done)
    {
      var v := DigitValue(input[i]);
      NextValue(input, i, done, held);
      i := i + 1;
      if v < 0 { continue; }
      GatheredNext(held, v);
      held := held + [v];
      acc := acc * 64 + v;
      have := have + 1;
      if have == 4 {
        QuadFits(|input|, quads, 4);
        o := PutThree(out, o, acc, done, held);
        QuadRead(input, i, done, held);
        done, held, quads := done + held, [], quads + 1;
        acc, have := 0, 0;
        Nothing();
      }
    }
    AllRead(input, done, held);
    QuadFits(|input|, quads, have);
    o := PutLast(out, o, acc, have, done, held);
    s := out[..o];
  }

  lemma QuadFits(n: nat, quads: nat, have: nat)
    requires 4 * quads + have <= n && have <= 4
    ensures have == 4 ==> 3 * quads + 3 <= n / 4 * 3 + 2
    ensures 3 * quads + 2 <= n / 4 * 3 + 2
  {
  }

  /** What two or three characters left over give. */
  method PutLast(out: array<byte>, o: nat, acc: nat, have: nat, ghost done: seq<Six>, ghost held: seq<Six>)
    returns (n: nat)
    requires o + 2 <= out.Length && out[..o] == Bytes(done)
    requires |done| % 4 == 0 && |held| == have < 4 && acc == Gathered(held)
    modifies out
    ensures n <= o + 2 && out[..n] == Bytes(done + held)
  {
    BytesConcat(done, held);
    LastBytes(held);
    hide Bytes, Gathered;
    n := o;
    if have == 2 {
      out[o] := (acc / 16 % 256) as byte;
      n := o + 1;
    } else if have == 3 {
      out[o], out[o + 1] := (acc / 1024 % 256) as byte, (acc / 4 % 256) as byte;
      n := o + 2;
    }
    assert out[..o] == Bytes(done);
  }

  method PutThree(out: array<byte>, o: nat, acc: nat, ghost done: seq<Six>, ghost held: seq<Six>) returns (n: nat)
    requires o + 3 <= out.Length && out[..o] == Bytes(done)
    requires |done| % 4 == 0 && |held| == 4 && acc == Gathered(held)
    modifies out
    ensures n == o + 3 && out[..n] == Bytes(done + held)
  {
    FourBytes(done, held);
    hide Bytes, Gathered;
    out[o], out[o + 1], out[o + 2] := (acc / 65536 % 256) as byte, (acc / 256 % 256) as byte, (acc % 256) as byte;
    n := o + 3;
    assert out[..n] == out[..o] + [out[o], out[o + 1], out[o + 2]];
  }

  lemma Nothing()
    ensures Values([]) == [] && Bytes([]) == [] && Gathered([]) == 0
  {
  }

  /** The first `i` characters had the values `done`, which are written, and `held`. */
  ghost predicate Read(s: seq<byte>, i: nat, done: seq<Six>, held: seq<Six>) {
    i <= |s| && Values(s[..i]) == done + held
  }

  lemma NothingRead(s: seq<byte>)
    ensures Read(s, 0, [], [])
  {
    ValuesNone();
    assert s[..0] == [];
  }

  lemma NextValue(s: seq<byte>, i: nat, done: seq<Six>, held: seq<Six>)
    requires i < |s| && Read(s, i, done, held)
    ensures if DigitValue(s[i]) < 0 then Read(s, i + 1, done, held) else Read(s, i + 1, done, held + [DigitValue(s[i])])
  {
    assert s[..i + 1][..i] == s[..i];
    if DigitValue(s[i]) >= 0 { assert done + held + [DigitValue(s[i])] == done + (held + [DigitValue(s[i])]); }
  }

  lemma QuadRead(s: seq<byte>, i: nat, done: seq<Six>, held: seq<Six>)
    requires Read(s, i, done, held)
    ensures Read(s, i, done + held, [])
  {
    assert done + held + [] == done + held;
  }

  lemma AllRead(s: seq<byte>, done: seq<Six>, held: seq<Six>)
    requires Read(s, |s|, done, held)
    ensures Values(s) == done + held
  {
    assert s[..|s|] == s;
  }

  lemma GatheredNext(vs: seq<Six>, v: Six)
    ensures Gathered(vs + [v]) == Gathered(vs) * 64 + v
  {
    assert (vs + [v])[..|vs|] == vs;
  }

  lemma FourBytes(done: seq<Six>, vs: seq<Six>)
    requires |done| % 4 == 0 && |vs| == 4
    ensures var acc := Gathered(vs);
      Bytes(done + vs) == Bytes(done) + [(acc / 65536 % 256) as byte, (acc / 256 % 256) as byte, (acc % 256) as byte]
  {
    BytesConcat(done, vs);
    hide Gathered;
    assert vs[..4] == vs && Bytes(vs[4..]) == [];
  }

  lemma LastBytes(vs: seq<Six>)
    requires |vs| < 4
    ensures |vs| < 2 ==> Bytes(vs) == []
    ensures |vs| == 2 ==> Bytes(vs) == [(Gathered(vs) / 16 % 256) as byte]
    ensures |vs| == 3 ==> Bytes(vs) == [(Gathered(vs) / 1024 % 256) as byte, (Gathered(vs) / 4 % 256) as byte]
  {
  }
}
