/** Base64 with the standard alphabet and padding (section 4 of RFC 4648). */
module Base64 {
  import opened Text
  import Utf8

  type byte = Utf8.byte

  function DigitChar64(d: nat): char
    requires d < 64
  {
    if d < 26 then ('A' as int + d) as char
    else if d < 52 then ('a' as int + d - 26) as char
    else if d < 62 then ('0' as int + d - 52) as char
    else if d == 62 then '+' else '/'
  }

  function DigitOf(c: char): (d: Option<nat>)
    ensures d.Some? ==> d.value < 64
  {
    if 'A' <= c <= 'Z' then Some(c as int - 'A' as int)
    else if 'a' <= c <= 'z' then Some(c as int - 'a' as int + 26)
    else if '0' <= c <= '9' then Some(c as int - '0' as int + 52)
    else if c == '+' then Some(62)
    else if c == '/' then Some(63)
    else None
  }

  lemma DigitRoundTrip(d: nat)
    requires d < 64
    ensures DigitOf(DigitChar64(d)) == Some(d) && DigitChar64(d) != '='
  {
  }

  // ---------------------------------------------------------------------------
  // Encoding: each three bytes are four digits
  // ---------------------------------------------------------------------------

  function First(a: byte): (d: nat) ensures d < 64 { a as int / 4 }

  function Second(a: byte, b: byte): (d: nat) ensures d < 64 { (a as int % 4) * 16 + b as int / 16 }

  function Third(b: byte, c: byte): (d: nat) ensures d < 64 { (b as int % 16) * 4 + c as int / 64 }

  function Fourth(c: byte): (d: nat) ensures d < 64 { c as int % 64 }

  function Group(d0: nat, d1: nat, d2: nat, d3: nat): string
    requires d0 < 64 && d1 < 64 && d2 < 64 && d3 < 64
  {
    [DigitChar64(d0), DigitChar64(d1), DigitChar64(d2), DigitChar64(d3)]
  }

  function Encode(bytes: seq<byte>): string
  {
    if |bytes| == 0 then ""
    else if |bytes| == 1 then
      [DigitChar64(First(bytes[0])), DigitChar64(Second(bytes[0], 0)), '=', '=']
    else if |bytes| == 2 then
      [DigitChar64(First(bytes[0])), DigitChar64(Second(bytes[0], bytes[1])), DigitChar64(Third(bytes[1], 0)), '=']
    else
      Group(First(bytes[0]), Second(bytes[0], bytes[1]), Third(bytes[1], bytes[2]), Fourth(bytes[2])) + Encode(bytes[3..])
  }

  // ---------------------------------------------------------------------------
  // Decoding: padding only in the last group, and unused bits zero
  // ---------------------------------------------------------------------------

  function Byte(n: nat): byte
    requires n < 256
  {
    n as byte
  }

  function ThreeBytes(d0: nat, d1: nat, d2: nat, d3: nat): seq<byte>
    requires d0 < 64 && d1 < 64 && d2 < 64 && d3 < 64
  {
    [Byte(d0 * 4 + d1 / 16), Byte((d1 % 16) * 16 + d2 / 4), Byte((d2 % 4) * 64 + d3)]
  }

  function Decode(s: string): Option<seq<byte>>
  {
    if s == "" then Some([])
    else if |s| < 4 || DigitOf(s[0]).None? || DigitOf(s[1]).None? then None
    else
      var d0, d1 := DigitOf(s[0]).value, DigitOf(s[1]).value;
      if |s| == 4 && s[3] == '=' then DecodeLast(Byte(d0 * 4 + d1 / 16), d1 % 16, s[2])
      else
        match (DigitOf(s[2]), DigitOf(s[3]), Decode(s[4..]))
        case (Some(d2), Some(d3), Some(rest)) =>
          Some(ThreeBytes(d0, d1, d2, d3) + rest)
        case _ => None
  }

  function DecodeLast(a: byte, bits: nat, c: char): Option<seq<byte>>
    requires bits < 16
  {
    if c == '=' then (if bits == 0 then Some([a]) else None)
    else match DigitOf(c)
         case None => None
         case Some(d2) => if d2 % 4 == 0 then Some([a, Byte(bits * 16 + d2 / 4)]) else None
  }

  lemma Regroup(a: byte, b: byte, c: byte)
    ensures First(a) * 4 + Second(a, b) / 16 == a as int
    ensures (Second(a, b) % 16) * 16 + Third(b, c) / 4 == b as int
    ensures (Third(b, c) % 4) * 64 + Fourth(c) == c as int
  {
  }

  lemma LastBitsZero(b: byte)
    ensures Third(b, 0) % 4 == 0 && Third(b, 0) / 4 == b as int % 16
  {
  }

  lemma DecodeGroup(d0: nat, d1: nat, d2: nat, d3: nat, tail: string)
    requires d0 < 64 && d1 < 64 && d2 < 64 && d3 < 64 && Decode(tail).Some?
    ensures Decode(Group(d0, d1, d2, d3) + tail) == Some(ThreeBytes(d0, d1, d2, d3) + Decode(tail).value)
  {
    var s := Group(d0, d1, d2, d3) + tail;
    DigitRoundTrip(d0);
    DigitRoundTrip(d1);
    DigitRoundTrip(d2);
    DigitRoundTrip(d3);
    assert s[4..] == tail;
  }

  lemma SameBytes(d0: nat, d1: nat, d2: nat, d3: nat, a: byte, b: byte, c: byte)
    requires d0 < 64 && d1 < 64 && d2 < 64 && d3 < 64
    requires d0 * 4 + d1 / 16 == a as int && (d1 % 16) * 16 + d2 / 4 == b as int && (d2 % 4) * 64 + d3 == c as int
    ensures ThreeBytes(d0, d1, d2, d3) == [a, b, c]
  {
  }

  lemma RegroupBytes(a: byte, b: byte, c: byte)
    ensures ThreeBytes(First(a), Second(a, b), Third(b, c), Fourth(c)) == [a, b, c]
  {
    Regroup(a, b, c);
    SameBytes(First(a), Second(a, b), Third(b, c), Fourth(c), a, b, c);
  }

  lemma DecodeTwo(d0: nat, d1: nat, d2: nat, a: byte, b: byte)
    requires d0 < 64 && d1 < 64 && d2 < 64 && d2 % 4 == 0
    requires d0 * 4 + d1 / 16 == a as int && (d1 % 16) * 16 + d2 / 4 == b as int
    ensures Decode([DigitChar64(d0), DigitChar64(d1), DigitChar64(d2), '=']) == Some([a, b])
  {
    DigitRoundTrip(d0);
    DigitRoundTrip(d1);
    DigitRoundTrip(d2);
  }

  lemma DecodeEncodeOne(a: byte)
    ensures Decode(Encode([a])) == Some([a])
  {
  }

  lemma DecodeEncodeTwo(a: byte, b: byte)
    ensures Decode(Encode([a, b])) == Some([a, b])
  {
    Regroup(a, b, 0);
    LastBitsZero(b);
    DecodeTwo(First(a), Second(a, b), Third(b, 0), a, b);
  }

  /** Decoding what was encoded gives the bytes back. */
  lemma {:induction false} DecodeEncode(bytes: seq<byte>)
    ensures Decode(Encode(bytes)) == Some(bytes)
  {
    if |bytes| == 1 {
      assert bytes == [bytes[0]];
      DecodeEncodeOne(bytes[0]);
    } else if |bytes| == 2 {
      assert bytes == [bytes[0], bytes[1]];
      DecodeEncodeTwo(bytes[0], bytes[1]);
    } else if |bytes| > 2 {
      var a, b, c, tail := bytes[0], bytes[1], bytes[2], Encode(bytes[3..]);
      DecodeEncode(bytes[3..]);
      RegroupBytes(a, b, c);
      DecodeGroup(First(a), Second(a, b), Third(b, c), Fourth(c), tail);
      assert bytes == [a, b, c] + bytes[3..];
    }
  }
}
