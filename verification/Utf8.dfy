/** UTF-8 as Rust's `String` stores it: the bytes that are hashed, written to
    files and compared by `str`'s ordering. */
module Utf8 {
  import opened Text

  type byte = x: int | 0 <= x < 256

  function EncodeChar(c: char): (bs: seq<byte>)
    ensures 1 <= |bs| <= 4
  {
    var n := c as int;
    if n < 0x80 then [n]
    else if n < 0x800 then [0xC0 + n / 0x40, 0x80 + n % 0x40]
    else if n < 0x10000 then [0xE0 + n / 0x1000, 0x80 + n / 0x40 % 0x40, 0x80 + n % 0x40]
    else [0xF0 + n / 0x40000, 0x80 + n / 0x1000 % 0x40, 0x80 + n / 0x40 % 0x40, 0x80 + n % 0x40]
  }

  function Encode(s: string): seq<byte>
  {
    if s == "" then [] else EncodeChar(s[0]) + Encode(s[1..])
  }

  predicate IsContinuation(b: byte) { 0x80 <= b < 0xC0 }

  function Low(b: byte): nat
    requires IsContinuation(b)
  {
    b - 0x80
  }

  function Decode2(a: byte, b: byte): Option<char>
    requires 0xC0 <= a < 0xE0
  {
    if !IsContinuation(b) then None
    else
      var n := (a as int - 0xC0) * 0x40 + Low(b);
      if n < 0x80 then None else Some(n as char)
  }

  function Decode3(a: byte, b: byte, c: byte): Option<char>
    requires 0xE0 <= a < 0xF0
  {
    if !IsContinuation(b) || !IsContinuation(c) then None
    else
      var n := (a as int - 0xE0) * 0x1000 + Low(b) * 0x40 + Low(c);
      if n < 0x800 || 0xD800 <= n < 0xE000 then None else Some(n as char)
  }

  function Decode4(a: byte, b: byte, c: byte, d: byte): Option<char>
    requires 0xF0 <= a
  {
    if !IsContinuation(b) || !IsContinuation(c) || !IsContinuation(d) then None
    else
      var n := (a as int - 0xF0) * 0x40000 + Low(b) * 0x1000 + Low(c) * 0x40 + Low(d);
      if n < 0x10000 || n >= 0x110000 then None else Some(n as char)
  }

  function Taking(c: Option<char>, k: nat): Option<(char, nat)>
  {
    match c
    case None => None
    case Some(x) => Some((x, k))
  }

  /** Reads one scalar value; overlong forms, surrogates and truncated sequences
      are refused. */
  function DecodeChar(bs: seq<byte>): (r: Option<(char, nat)>)
    ensures r.Some? ==> 1 <= r.value.1 <= |bs|
  {
    if |bs| == 0 then None
    else if bs[0] < 0x80 then Some((bs[0] as char, 1))
    else if bs[0] < 0xC0 then None
    else if bs[0] < 0xE0 then if |bs| < 2 then None else Taking(Decode2(bs[0], bs[1]), 2)
    else if bs[0] < 0xF0 then if |bs| < 3 then None else Taking(Decode3(bs[0], bs[1], bs[2]), 3)
    else if |bs| < 4 then None else Taking(Decode4(bs[0], bs[1], bs[2], bs[3]), 4)
  }

  /** `std::str::from_utf8`. */
  function Decode(bs: seq<byte>): Option<string>
    decreases |bs|
  {
    if |bs| == 0 then Some("")
    else
      match DecodeChar(bs)
      case None => None
      case Some((c, k)) =>
        match Decode(bs[k..])
        case None => None
        case Some(rest) => Some([c] + rest)
  }

  lemma Decode2Encoded(n: nat)
    requires 0x80 <= n < 0x800
    ensures Decode2(0xC0 + n / 0x40, 0x80 + n % 0x40) == Some(n as char)
  {
  }

  lemma Decode3Encoded(n: nat)
    requires 0x800 <= n < 0x10000 && !(0xD800 <= n < 0xE000)
    ensures Decode3(0xE0 + n / 0x1000, 0x80 + n / 0x40 % 0x40, 0x80 + n % 0x40) == Some(n as char)
  {
  }

  lemma Decode4Encoded(n: nat)
    requires 0x10000 <= n < 0x110000
    ensures Decode4(0xF0 + n / 0x40000, 0x80 + n / 0x1000 % 0x40, 0x80 + n / 0x40 % 0x40, 0x80 + n % 0x40)
         == Some(n as char)
  {
    var m := n / 0x40;
    var l := m / 0x40;
    assert n == m * 0x40 + n % 0x40 && m == l * 0x40 + m % 0x40 && l == l / 0x40 * 0x40 + l % 0x40;
    assert l == n / 0x1000 && l / 0x40 == n / 0x40000;
  }

  lemma DecodeEncodeChar(c: char, rest: seq<byte>)
    ensures DecodeChar(EncodeChar(c) + rest) == Some((c, |EncodeChar(c)|))
  {
    var n := c as int;
    if n < 0x80 {
    } else if n < 0x800 {
      Decode2Encoded(n);
    } else if n < 0x10000 {
      Decode3Encoded(n);
    } else {
      Decode4Encoded(n);
    }
  }

  lemma {:induction false} DecodeEncode(s: string)
    ensures Decode(Encode(s)) == Some(s)
    decreases |s|
  {
    if s != "" {
      var e := EncodeChar(s[0]);
      DecodeEncodeChar(s[0], Encode(s[1..]));
      DecodeEncode(s[1..]);
      assert Encode(s) == e + Encode(s[1..]);
      assert Encode(s)[|e|..] == Encode(s[1..]);
      assert s == [s[0]] + s[1..];
    }
  }

  lemma Decode2Exact(a: byte, b: byte)
    requires 0xC0 <= a < 0xE0 && Decode2(a, b).Some?
    ensures EncodeChar(Decode2(a, b).value) == [a, b]
  {
  }

  lemma Decode3Exact(a: byte, b: byte, c: byte)
    requires 0xE0 <= a < 0xF0 && Decode3(a, b, c).Some?
    ensures EncodeChar(Decode3(a, b, c).value) == [a, b, c]
  {
    var n := (a as int - 0xE0) * 0x1000 + Low(b) * 0x40 + Low(c);
    assert n / 0x1000 == a as int - 0xE0 && n / 0x40 == (a as int - 0xE0) * 0x40 + Low(b);
  }

  lemma FourDigits(h: nat, x: nat, y: nat, z: nat)
    requires x < 0x40 && y < 0x40 && z < 0x40
    ensures var n := h * 0x40000 + x * 0x1000 + y * 0x40 + z;
      n / 0x40000 == h && n / 0x1000 % 0x40 == x && n / 0x40 % 0x40 == y && n % 0x40 == z
  {
    var n := h * 0x40000 + x * 0x1000 + y * 0x40 + z;
    assert n / 0x1000 == h * 0x40 + x;
    assert n / 0x40 == (h * 0x40 + x) * 0x40 + y;
  }

  lemma Decode4Exact(a: byte, b: byte, c: byte, d: byte)
    requires 0xF0 <= a && Decode4(a, b, c, d).Some?
    ensures EncodeChar(Decode4(a, b, c, d).value) == [a, b, c, d]
  {
    var h := a as int - 0xF0;
    var n := h * 0x40000 + Low(b) * 0x1000 + Low(c) * 0x40 + Low(d);
    FourDigits(h, Low(b), Low(c), Low(d));
  }

  lemma DecodeCharExact(bs: seq<byte>)
    requires DecodeChar(bs).Some?
    ensures bs[..DecodeChar(bs).value.1] == EncodeChar(DecodeChar(bs).value.0)
  {
    if bs[0] < 0x80 {
    } else if bs[0] < 0xE0 {
      Decode2Exact(bs[0], bs[1]);
    } else if bs[0] < 0xF0 {
      Decode3Exact(bs[0], bs[1], bs[2]);
    } else {
      Decode4Exact(bs[0], bs[1], bs[2], bs[3]);
    }
  }

  lemma EncodeCons(c: char, rest: string)
    ensures Encode([c] + rest) == EncodeChar(c) + Encode(rest)
  {
    assert ([c] + rest)[1..] == rest;
  }

  lemma DecodeStep(bs: seq<byte>) returns (c: char, k: nat)
    requires |bs| > 0 && Decode(bs).Some?
    ensures 1 <= k <= |bs| && Decode(bs[k..]).Some? && Decode(bs).value == [c] + Decode(bs[k..]).value
    ensures bs == EncodeChar(c) + bs[k..]
  {
    c, k := DecodeChar(bs).value.0, DecodeChar(bs).value.1;
    DecodeCharExact(bs);
    assert bs == bs[..k] + bs[k..];
  }

  lemma {:induction false} DecodedIsEncoded(bs: seq<byte>)
    requires Decode(bs).Some?
    ensures Encode(Decode(bs).value) == bs
    decreases |bs|
  {
    if |bs| > 0 {
      var c, k := DecodeStep(bs);
      DecodedIsEncoded(bs[k..]);
      EncodeCons(c, Decode(bs[k..]).value);
    }
  }

  /** Bytes are read as a text exactly if they are its encoding: overlong forms, surrogates and
      truncated sequences are refused. */
  lemma DecodeExactly(bs: seq<byte>, s: string)
    ensures Decode(bs) == Some(s) <==> bs == Encode(s)
  {
    DecodeEncode(s);
    if Decode(bs).Some? { DecodedIsEncoded(bs); }
  }

  lemma EncodeInjective(a: string, b: string)
    requires Encode(a) == Encode(b)
    ensures a == b
  {
    DecodeEncode(a);
    DecodeEncode(b);
  }

  // ---------------------------------------------------------------------------
  // Byte order is code point order
  // ---------------------------------------------------------------------------

  predicate LessBytes(a: seq<byte>, b: seq<byte>)
    decreases |a|
  {
    if |b| == 0 then false
    else if |a| == 0 then true
    else if a[0] != b[0] then a[0] < b[0]
    else LessBytes(a[1..], b[1..])
  }

  lemma {:induction false} LessBytesAt(a: seq<byte>, b: seq<byte>, k: nat)
    requires k < |a| && k < |b| && a[..k] == b[..k] && a[k] < b[k]
    ensures LessBytes(a, b) && !LessBytes(b, a)
    decreases k
  {
    if k > 0 {
      assert a[0] == a[..k][0] == b[..k][0] == b[0];
      assert a[1..][..k - 1] == a[..k][1..] == b[..k][1..] == b[1..][..k - 1];
      LessBytesAt(a[1..], b[1..], k - 1);
    }
  }

  lemma {:induction false} LessBytesAfterPrefix(p: seq<byte>, a: seq<byte>, b: seq<byte>)
    ensures LessBytes(p + a, p + b) == LessBytes(a, b)
    decreases |p|
  {
    if |p| == 0 {
      assert p + a == a && p + b == b;
    } else {
      assert (p + a)[1..] == p[1..] + a && (p + b)[1..] == p[1..] + b;
      LessBytesAfterPrefix(p[1..], a, b);
    }
  }

  /** Two numbers compare by their high part first, then by their low six bits. */
  lemma SixBitOrder(x: nat, y: nat)
    requires x < y
    ensures x / 0x40 < y / 0x40 || (x / 0x40 == y / 0x40 && x % 0x40 < y % 0x40)
  {
  }

  lemma ThreeByteOrder(m: nat, n: nat) returns (k: nat)
    requires m < n
    ensures k < 3
    ensures k == 0 ==> m / 0x1000 < n / 0x1000
    ensures k == 1 ==> m / 0x1000 == n / 0x1000 && m / 0x40 % 0x40 < n / 0x40 % 0x40
    ensures k == 2 ==> m / 0x1000 == n / 0x1000 && m / 0x40 % 0x40 == n / 0x40 % 0x40 && m % 0x40 < n % 0x40
  {
    assert m / 0x1000 == m / 0x40 / 0x40 && n / 0x1000 == n / 0x40 / 0x40;
    SixBitOrder(m, n);
    if m / 0x40 == n / 0x40 {
      k := 2;
    } else {
      SixBitOrder(m / 0x40, n / 0x40);
      k := if m / 0x1000 == n / 0x1000 then 1 else 0;
    }
  }

  lemma FourByteOrder(m: nat, n: nat) returns (k: nat)
    requires m < n
    ensures k < 4
    ensures k == 0 ==> m / 0x40000 < n / 0x40000
    ensures k >= 1 ==> m / 0x40000 == n / 0x40000
    ensures k == 1 ==> m / 0x1000 % 0x40 < n / 0x1000 % 0x40
    ensures k >= 2 ==> m / 0x1000 % 0x40 == n / 0x1000 % 0x40
    ensures k == 2 ==> m / 0x40 % 0x40 < n / 0x40 % 0x40
    ensures k == 3 ==> m / 0x40 % 0x40 == n / 0x40 % 0x40 && m % 0x40 < n % 0x40
  {
    assert m / 0x40000 == m / 0x1000 / 0x40 && n / 0x40000 == n / 0x1000 / 0x40;
    var j := ThreeByteOrder(m, n);
    if j == 0 {
      SixBitOrder(m / 0x1000, n / 0x1000);
      k := if m / 0x40000 == n / 0x40000 then 1 else 0;
    } else {
      k := j + 1;
    }
  }

  /** Where the encodings of two different scalar values first differ. */
  lemma EncodeCharOrder(c: char, d: char) returns (k: nat)
    requires c < d
    ensures k < |EncodeChar(c)| && k < |EncodeChar(d)|
    ensures EncodeChar(c)[..k] == EncodeChar(d)[..k] && EncodeChar(c)[k] < EncodeChar(d)[k]
  {
    var x, y := EncodeChar(c), EncodeChar(d);
    var m, n := c as int, d as int;
    if |x| != |y| || |x| == 1 {
      k := 0;
    } else if |x| == 2 {
      SixBitOrder(m, n);
      k := if m / 0x40 == n / 0x40 then 1 else 0;
    } else if |x| == 3 {
      k := ThreeByteOrder(m, n);
    } else {
      k := FourByteOrder(m, n);
    }
  }

  /** `str`'s comparison of bytes orders strings exactly by code point, so sorting
      keys may be reasoned about on scalar values. */
  lemma {:induction false} EncodeOrder(a: string, b: string)
    ensures LessBytes(Encode(a), Encode(b)) == Less(a, b)
    decreases |a|
  {
    if |a| > 0 && |b| > 0 {
      var ea, eb := EncodeChar(a[0]), EncodeChar(b[0]);
      var ra, rb := Encode(a[1..]), Encode(b[1..]);
      if a[0] == b[0] {
        LessBytesAfterPrefix(ea, ra, rb);
        EncodeOrder(a[1..], b[1..]);
      } else if a[0] < b[0] {
        var k := EncodeCharOrder(a[0], b[0]);
        assert (ea + ra)[..k] == ea[..k] && (eb + rb)[..k] == eb[..k];
        LessBytesAt(ea + ra, eb + rb, k);
      } else {
        var k := EncodeCharOrder(b[0], a[0]);
        assert (ea + ra)[..k] == ea[..k] && (eb + rb)[..k] == eb[..k];
        LessBytesAt(eb + rb, ea + ra, k);
      }
    }
  }
}
