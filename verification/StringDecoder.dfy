/** The stepwise string decoder: a write decodes what is complete and holds back at most three bytes, packed in a
    number; however the bytes are cut into chunks, the result is that of decoding them at once. */
module StringDecoder {
  import opened Utf8Form
  import Utf8Decode
  import Base64

  datatype Encoding = Utf8 | Base64 | Base64Url

  // The packed state ----------------------------------------------------------------------------------------

  /** Up to three bytes as a 32-bit number: the count, then the bytes. */
  function Pack(bytes: seq<byte>): (p: nat)
    requires |bytes| <= 3
    ensures p < 0x1_0000_0000
  {
    |bytes| + (if |bytes| > 0 then bytes[0] as int * 256 else 0) + (if |bytes| > 1 then bytes[1] as int * 65536 else 0)
    + (if |bytes| > 2 then bytes[2] as int * 16777216 else 0)
  }

  function Unpack(p: nat): (bytes: seq<byte>)
    ensures |bytes| <= 3
  {
    var n := p % 256;
    [(p / 256 % 256) as byte, (p / 65536 % 256) as byte, (p / 16777216 % 256) as byte][..if n > 3 then 3 else n]
  }

  lemma PackUnpack(bytes: seq<byte>)
    requires |bytes| <= 3
    ensures Unpack(Pack(bytes)) == bytes
  {
    var b0 := if |bytes| > 0 then bytes[0] as int else 0;
    var b1 := if |bytes| > 1 then bytes[1] as int else 0;
    var b2 := if |bytes| > 2 then bytes[2] as int else 0;
    Packed(|bytes|, b0, b1, b2);
  }

  lemma Packed(n: nat, a: nat, b: nat, c: nat)
    requires n < 256 && a < 256 && b < 256 && c < 256
    ensures var p := n + a * 256 + b * 65536 + c * 16777216;
      p % 256 == n && p / 256 % 256 == a && p / 65536 % 256 == b && p / 16777216 % 256 == c
  {
    Digit(n, a + b * 256 + c * 65536);
    Digit(a, b + c * 256);
    Digit(b, c);
    Nested256(n + a * 256 + b * 65536 + c * 16777216);
  }

  lemma Digit(low: nat, rest: nat)
    requires low < 256
    ensures (low + rest * 256) % 256 == low && (low + rest * 256) / 256 == rest
  {
  }

  lemma Nested256(p: nat)
    ensures p / 65536 == p / 256 / 256 && p / 16777216 == p / 65536 / 256
  {
  }

  // What utf8 holds back ------------------------------------------------------------------------------------

  /** The length a first byte announces, well-formed or not. */
  function Announced(b: byte): nat {
    if 0xc0 <= b <= 0xdf then 2 else if 0xe0 <= b <= 0xef then 3 else if 0xf0 <= b <= 0xf7 then 4 else 0
  }

  /** The last `t` bytes begin a character that announced more. */
  predicate Truncated(s: seq<byte>, t: nat) {
    1 <= t <= 3 && t <= |s| && Announced(s[|s| - t]) > t && forall i :: |s| - t < i < |s| ==> IsTail(s[i])
  }

  /** How many bytes a write holds back. */
  function Held(s: seq<byte>): (t: nat)
    ensures t <= 3 && t <= |s| && (t > 0 ==> Truncated(s, t)) && (t == 0 ==> forall u :: !Truncated(s, u))
  {
    if Truncated(s, 1) then 1 else if Truncated(s, 2) then 2 else if Truncated(s, 3) then 3 else 0
  }

  /** Cutting before a byte that starts something is harmless. */
  lemma {:induction false} CutAtStart(a: seq<byte>, b: seq<byte>)
    requires b == [] || !IsTail(b[0])
    ensures Repaired(a + b) == Repaired(a) + Repaired(b)
    decreases |a|
  {
    if a == [] {
      assert a + b == b;
    } else {
      SameSubpart(a, b);
      CutAtStart(a[Subpart(a)..], b);
      CutStep(a, b);
    }
  }

  /** The first subpart of `a` does not reach into `b`. */
  lemma SameSubpart(a: seq<byte>, b: seq<byte>)
    requires a != [] && (b == [] || !IsTail(b[0]))
    ensures Subpart(a + b) == Subpart(a)
  {
    var k := Subpart(a + b);
    if k > |a| { NotAcross(a, b, k); }
    SubpartOfPrefix(a, b);
  }

  lemma NotAcross(a: seq<byte>, b: seq<byte>, k: nat)
    requires a != [] && b != [] && !IsTail(b[0]) && |a| < k <= |a + b|
    ensures !Partial((a + b)[..k])
  {
    var s := (a + b)[..k];
    assert s[|a|] == b[0];
  }

  lemma SliceConcat(a: seq<byte>, b: seq<byte>, k: nat)
    requires k <= |a|
    ensures (a + b)[..k] == a[..k] && (a + b)[k..] == a[k..] + b
  {
  }

  lemma Assoc(x: seq<byte>, y: seq<byte>, z: seq<byte>)
    ensures x + (y + z) == x + y + z
  {
  }

  lemma SubpartOfPrefix(a: seq<byte>, b: seq<byte>)
    requires a != [] && Subpart(a + b) <= |a|
    ensures Subpart(a + b) == Subpart(a)
  {
    var k, m := Subpart(a + b), Subpart(a);
    assert (a + b)[..k] == a[..k] && (a + b)[..m] == a[..m];
  }

  lemma CutStep(a: seq<byte>, b: seq<byte>)
    requires a != [] && Subpart(a + b) == Subpart(a)
    requires Repaired(a[Subpart(a)..] + b) == Repaired(a[Subpart(a)..]) + Repaired(b)
    ensures Repaired(a + b) == Repaired(a) + Repaired(b)
  {
    var k := Subpart(a);
    SliceConcat(a, b, k);
    var c := if IsChar(a[..k]) then a[..k] else REPLACEMENT;
    assert Repaired(a) == c + Repaired(a[k..]);
    assert Repaired(a + b) == c + Repaired(a[k..] + b);
    hide Repaired, IsChar, Subpart;
    Assoc(c, Repaired(a[k..]), Repaired(b));
  }

  /** Bytes that hold nothing back decode the same whatever follows. */
  lemma {:induction false} CutAtEnd(a: seq<byte>, b: seq<byte>)
    requires forall t :: !Truncated(a, t)
    ensures Repaired(a + b) == Repaired(a) + Repaired(b)
    decreases |a|
  {
    if a == [] {
      assert a + b == b;
    } else {
      var k := Subpart(a + b);
      if k > |a| {
        Inside(a, b, k);
      } else {
        SubpartOfPrefix(a, b);
        forall t ensures !Truncated(a[k..], t) {
          if Truncated(a[k..], t) { assert Truncated(a, t); }
        }
        CutAtEnd(a[k..], b);
        CutStep(a, b);
      }
    }
  }

  /** A character that begins in `a` and goes on in `b` is held back. */
  lemma Inside(a: seq<byte>, b: seq<byte>, k: nat)
    requires |a| < k <= |a + b| && a != [] && Partial((a + b)[..k])
    ensures Truncated(a, |a|)
  {
    var s := (a + b)[..k];
    assert forall i :: 0 <= i < |a| ==> s[i] == a[i];
  }

  /** Holding back what is truncated loses nothing. */
  lemma HoldBack(s: seq<byte>, rest: seq<byte>)
    ensures Held(s) <= 3 && Held(s) <= |s|
    ensures Repaired(s + rest) == Repaired(s[..|s| - Held(s)]) + Repaired(s[|s| - Held(s)..] + rest)
  {
    var t := Held(s);
    var x, y := s[..|s| - t], s[|s| - t..];
    assert t > 0 ==> y[0] == s[|s| - t] && !IsTail(y[0]);
    hide Repaired, Held, Truncated;
    assert s == x + y;
    Assoc(x, y, rest);
    if t == 0 {
      CutAtEnd(s, rest);
      assert y + rest == rest && x == s;
    } else {
      assert (y + rest)[0] == y[0];
      CutAtStart(x, y + rest);
    }
  }

  // Writing and ending --------------------------------------------------------------------------------------

  /** One-shot decoding. */
  function Whole(enc: Encoding, s: seq<byte>): seq<byte> {
    match enc
    case Utf8 => Repaired(s)
    case Base64 => Base64.Encoded(s, false)
    case Base64Url => Base64.Encoded(s, true)
  }

  /** How many bytes are not decoded yet. */
  function Tail(enc: Encoding, s: seq<byte>): (t: nat)
    ensures t <= 3 && t <= |s|
  {
    match enc case Utf8 => Held(s) case _ => |s| % 3
  }

  lemma TailIsSafe(enc: Encoding, s: seq<byte>, rest: seq<byte>)
    ensures var k := |s| - Tail(enc, s); Whole(enc, s + rest) == Whole(enc, s[..k]) + Whole(enc, s[k..] + rest)
  {
    match enc
    case Utf8 => HoldBack(s, rest);
    case Base64 => GroupsAreSafe(s, rest, false);
    case Base64Url => GroupsAreSafe(s, rest, true);
  }

  lemma GroupsAreSafe(s: seq<byte>, rest: seq<byte>, url: bool)
    ensures var k := |s| - |s| % 3;
      Base64.Encoded(s + rest, url) == Base64.Encoded(s[..k], url) + Base64.Encoded(s[k..] + rest, url)
  {
    var k := |s| - |s| % 3;
    assert k % 3 == 0;
    assert s == s[..k] + s[k..];
    Assoc(s[..k], s[k..], rest);
    Base64.EncodedConcat(s[..k], s[k..] + rest, url);
  }

  /** `scr_strdec_tail`: walks back over at most three bytes. */
  method FindTail(s: seq<byte>) returns (t: nat)
    ensures t == Held(s)
  {
    var scan := if |s| < 3 then |s| else 3;
    var back := 1;
    while back <= scan
      invariant 1 <= back <= scan + 1
      invariant forall i :: |s| - back < i < |s| ==> IsTail(s[i])
    {
      var b := s[|s| - back];
      if IsTail(b) {
        back := back + 1;
      } else {
        assert forall u :: u > back ==> !Truncated(s, u);
        return if back < Announced(b) then back else 0;
      }
    }
    return 0;
  }

  method DecodeWhole(enc: Encoding, s: seq<byte>) returns (out: seq<byte>)
    ensures out == Whole(enc, s)
  {
    match enc {
      case Utf8 => out := Utf8Decode.Decode(s);
      case Base64 => out := Base64.Encode(s, false);
      case Base64Url => out := Base64.Encode(s, true);
    }
  }

  /** `scr_strdec_write` and `scr_strdec_next`: the decoded part of the held bytes and the chunk, and the new state. */
  method Write(enc: Encoding, pending: nat, chunk: seq<byte>) returns (out: seq<byte>, hold: nat)
    ensures hold < 0x1_0000_0000
    ensures var s := Unpack(pending) + chunk;
      var k := |s| - Tail(enc, s); out == Whole(enc, s[..k]) && Unpack(hold) == s[k..]
  {
    var s := Unpack(pending) + chunk;
    var t: nat;
    if enc == Utf8 {
      t := FindTail(s);
    } else {
      t := |s| % 3;
    }
    PackUnpack(s[|s| - t..]);
    hold := Pack(s[|s| - t..]);
    out := DecodeWhole(enc, s[..|s| - t]);
  }

  /** `scr_strdec_end`: what is held is decoded as it stands. */
  method End(enc: Encoding, pending: nat) returns (out: seq<byte>)
    ensures out == Whole(enc, Unpack(pending))
  {
    out := DecodeWhole(enc, Unpack(pending));
  }

  function Joined(chunks: seq<seq<byte>>): seq<byte> {
    if chunks == [] then [] else chunks[0] + Joined(chunks[1..])
  }

  /** One write, whatever comes later. */
  lemma WriteIsSafe(enc: Encoding, held: seq<byte>, chunk: seq<byte>, rest: seq<byte>)
    ensures var s := held + chunk; var k := |s| - Tail(enc, s);
      Whole(enc, held + (chunk + rest)) == Whole(enc, s[..k]) + Whole(enc, s[k..] + rest)
  {
    hide Whole, Tail;
    Assoc(held, chunk, rest);
    TailIsSafe(enc, held + chunk, rest);
  }

  /** However the bytes are cut, the writes and the end give what decoding them at once gives. */
  method DecodeChunks(enc: Encoding, chunks: seq<seq<byte>>) returns (out: seq<byte>)
    ensures out == Whole(enc, Joined(chunks))
  {
    hide Whole, Tail, Unpack;
    var pending := 0;
    out := [];
    var i := 0;
    StartsEmpty();
    assert chunks[0..] == chunks && [] + Joined(chunks) == Joined(chunks);
    while i < |chunks|
      invariant i <= |chunks|
      invariant out + Whole(enc, Unpack(pending) + Joined(chunks[i..])) == Whole(enc, Joined(chunks))
    {
      assert chunks[i..][0] == chunks[i] && chunks[i..][1..] == chunks[i + 1..];
      WriteIsSafe(enc, Unpack(pending), chunks[i], Joined(chunks[i + 1..]));
      var piece, hold := Write(enc, pending, chunks[i]);
      Assoc(out, piece, Whole(enc, Unpack(hold) + Joined(chunks[i + 1..])));
      out, pending := out + piece, hold;
      i := i + 1;
    }
    assert Unpack(pending) + Joined(chunks[i..]) == Unpack(pending);
    var last := End(enc, pending);
    out := out + last;
  }

  lemma StartsEmpty()
    ensures Unpack(0) == []
  {
  }
}
