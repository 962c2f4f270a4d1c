/** Plain facts about strings that the other modules share: decimal digits, the
    order used by Rust's `str` comparison, and the trimming of white space. */
module Text {

  datatype Option<+T> = None | Some(value: T)

  // ---------------------------------------------------------------------------
  // Order
  // ---------------------------------------------------------------------------

  /** Strict lexicographic order by code point. */
  predicate Less(a: string, b: string)
    decreases |a|
  {
    if |b| == 0 then false
    else if |a| == 0 then true
    else if a[0] != b[0] then a[0] < b[0]
    else Less(a[1..], b[1..])
  }

  lemma {:induction false} LessIrreflexive(a: string)
    ensures !Less(a, a)
    decreases |a|
  {
    if |a| > 0 { LessIrreflexive(a[1..]); }
  }

  lemma {:induction false} LessTransitive(a: string, b: string, c: string)
    requires Less(a, b) && Less(b, c)
    ensures Less(a, c)
    decreases |a|
  {
    if |a| > 0 && a[0] == b[0] == c[0] { LessTransitive(a[1..], b[1..], c[1..]); }
  }

  lemma {:induction false} LessTotal(a: string, b: string)
    ensures Less(a, b) || a == b || Less(b, a)
    decreases |a|
  {
    if |a| > 0 && |b| > 0 && a[0] == b[0] {
      LessTotal(a[1..], b[1..]);
      assert a == [a[0]] + a[1..] && b == [b[0]] + b[1..];
    }
  }

  lemma LessAsymmetric(a: string, b: string)
    requires Less(a, b)
    ensures !Less(b, a)
  {
  }

  /** A common prefix does not influence the order. */
  lemma {:induction false} LessAfterPrefix(p: string, a: string, b: string)
    ensures Less(p + a, p + b) == Less(a, b)
    decreases |p|
  {
    if |p| == 0 {
      assert p + a == a && p + b == b;
    } else {
      assert (p + a)[1..] == p[1..] + a && (p + b)[1..] == p[1..] + b;
      LessAfterPrefix(p[1..], a, b);
    }
  }

  // ---------------------------------------------------------------------------
  // Decimal digits
  // ---------------------------------------------------------------------------

  predicate IsDigit(c: char) { '0' <= c <= '9' }

  predicate AllDigits(s: string) { forall i :: 0 <= i < |s| ==> IsDigit(s[i]) }

  function DigitChar(d: nat): (c: char)
    requires d < 10
    ensures IsDigit(c)
  {
    ('0' as int + d) as char
  }

  function DigitValue(c: char): nat
    requires IsDigit(c)
  {
    c as int - '0' as int
  }

  function Pow10(k: nat): (p: nat)
    ensures p >= 1
  {
    if k == 0 then 1 else 10 * Pow10(k - 1)
  }

  /** The shortest decimal text of a natural number. */
  function NatText(n: nat): (s: string)
    ensures |s| > 0 && AllDigits(s)
  {
    if n < 10 then [DigitChar(n)] else NatText(n / 10) + [DigitChar(n % 10)]
  }

  function IntText(n: int): string
  {
    if n < 0 then "-" + NatText(-n) else NatText(n)
  }

  lemma {:induction false} NatTextLeading(n: nat)
    ensures |NatText(n)| > 1 ==> n > 0 && NatText(n)[0] != '0'
  {
    if n >= 10 {
      NatTextLeading(n / 10);
      assert n / 10 < 10 ==> NatText(n / 10) == [DigitChar(n / 10)];
      assert NatText(n)[0] == NatText(n / 10)[0];
    }
  }

  /** Digits without a needless zero in front are the shortest text of their value. */
  lemma {:induction false} DigitsAreText(s: string)
    requires AllDigits(s) && |s| > 0 && (|s| > 1 ==> s[0] != '0')
    ensures NatText(NatValue(s)) == s
  {
    var front := s[..|s| - 1];
    assert s == front + [s[|s| - 1]];
    if |s| > 1 {
      DigitsAreText(front);
      assert NatValue(front) > 0 by { assert NatText(0)[0] == '0'; }
      assert NatValue(s) / 10 == NatValue(front) && NatValue(s) % 10 == DigitValue(s[|s| - 1]);
    } else {
      assert NatValue(front) == 0;
    }
  }

  /** A minus sign before negative numbers, no needless zero, and the digits say the value. */
  lemma IntTextReads(n: int)
    ensures var digits := if n < 0 then IntText(n)[1..] else IntText(n);
      && (n < 0 ==> IntText(n)[0] == '-')
      && |digits| > 0 && AllDigits(digits) && (|digits| > 1 ==> digits[0] != '0')
      && NatValue(digits) == if n < 0 then -n else n
  {
    var m := if n < 0 then -n else n;
    NatTextValue(m);
    NatTextLeading(m);
    assert n < 0 ==> IntText(n)[1..] == NatText(m);
  }

  /** The decimal text of `n` in exactly `width` digits, as `{:0width$}` prints it
      when the number fits. */
  function PadText(n: nat, width: nat): (s: string)
    ensures |s| == width && AllDigits(s)
  {
    if width == 0 then "" else PadText(n / 10, width - 1) + [DigitChar(n % 10)]
  }

  function NatValue(s: string): nat
    requires AllDigits(s)
  {
    if |s| == 0 then 0
    else 10 * NatValue(s[..|s| - 1]) + DigitValue(s[|s| - 1])
  }

  lemma {:induction false} NatTextValue(n: nat)
    ensures NatValue(NatText(n)) == n
  {
    if n >= 10 {
      NatTextValue(n / 10);
      assert NatText(n)[..|NatText(n)| - 1] == NatText(n / 10);
    } else {
      assert NatText(n)[..0] == "";
    }
  }

  lemma IntTextInjective(a: int, b: int)
    requires IntText(a) == IntText(b)
    ensures a == b
  {
    if a < 0 {
      assert IntText(a)[0] == '-';
      assert b < 0;
      assert IntText(a)[1..] == NatText(-a) && IntText(b)[1..] == NatText(-b);
      NatTextValue(-a);
      NatTextValue(-b);
    } else {
      assert IsDigit(IntText(a)[0]);
      assert b >= 0;
      NatTextValue(a);
      NatTextValue(b);
    }
  }

  lemma {:induction false} PadTextValue(n: nat, width: nat)
    requires n < Pow10(width)
    ensures NatValue(PadText(n, width)) == n
  {
    if width > 0 {
      PadTextValue(n / 10, width - 1);
      assert PadText(n, width)[..width - 1] == PadText(n / 10, width - 1);
    }
  }

  /** Fixed-width digits are the padded text of their value. */
  lemma {:induction false} ValuePadText(s: string)
    requires AllDigits(s)
    ensures NatValue(s) < Pow10(|s|) && PadText(NatValue(s), |s|) == s
  {
    if |s| > 0 {
      var front := s[..|s| - 1];
      ValuePadText(front);
      assert NatValue(s) / 10 == NatValue(front);
      assert s == front + [s[|s| - 1]];
    }
  }

  /** Fixed-width digits compare as their values do. */
  lemma {:induction false} PadTextOrder(a: nat, b: nat, width: nat, x: string, y: string)
    requires a < b < Pow10(width)
    ensures Less(PadText(a, width) + x, PadText(b, width) + y)
  {
    if width > 0 {
      var pa, pb := PadText(a / 10, width - 1), PadText(b / 10, width - 1);
      var ta, tb := [DigitChar(a % 10)] + x, [DigitChar(b % 10)] + y;
      assert PadText(a, width) + x == pa + ta && PadText(b, width) + y == pb + tb;
      if a / 10 < b / 10 {
        PadTextOrder(a / 10, b / 10, width - 1, ta, tb);
      } else {
        LessAfterPrefix(pa, ta, tb);
      }
    }
  }

  // ---------------------------------------------------------------------------
  // White space, prefixes and splitting
  // ---------------------------------------------------------------------------

  /** The Unicode `White_Space` property, which `str::trim` removes. */
  predicate IsWhiteSpace(c: char)
  {
    var n := c as int;
    0x9 <= n <= 0xD || n == 0x20 || n == 0x85 || n == 0xA0 || n == 0x1680 ||
    0x2000 <= n <= 0x200A || n == 0x2028 || n == 0x2029 || n == 0x202F ||
    n == 0x205F || n == 0x3000
  }

  lemma WhiteSpaceIs(c: char)
    ensures IsWhiteSpace(c) <==>
            c as int in {0x9, 0xA, 0xB, 0xC, 0xD, 0x20, 0x85, 0xA0, 0x1680, 0x2000, 0x2001, 0x2002, 0x2003, 0x2004, 0x2005,
                         0x2006, 0x2007, 0x2008, 0x2009, 0x200A, 0x2028, 0x2029, 0x202F, 0x205F, 0x3000}
  {
  }

  predicate AllWhiteSpace(s: string) { forall i :: 0 <= i < |s| ==> IsWhiteSpace(s[i]) }

  /** `char::is_control`: general category Cc. */
  predicate IsControl(c: char)
  {
    c as int < 0x20 || 0x7F <= c as int <= 0x9F
  }

  /** `starts_with`, of texts and of bytes. */
  predicate StartsWith<T(==)>(s: seq<T>, prefix: seq<T>) { |prefix| <= |s| && s[..|prefix|] == prefix }

  /** `to_ascii_lowercase`. */
  function LowerAscii(s: string): (r: string)
    ensures |r| == |s|
  {
    if |s| == 0 then ""
    else [if 'A' <= s[0] <= 'Z' then (s[0] as int + 32) as char else s[0]] + LowerAscii(s[1..])
  }

  /** Only the letters from A to Z change, each to the one at its place from a to z. */
  lemma {:induction false} LowerAsciiAt(s: string, i: nat)
    requires i < |s|
    ensures var lower := LowerAscii(s)[i];
      if 'A' <= s[i] <= 'Z' then 'a' <= lower <= 'z' && lower as int - 'a' as int == s[i] as int - 'A' as int
      else lower == s[i]
  {
    if i > 0 { LowerAsciiAt(s[1..], i - 1); }
  }

  function TrimStart(s: string): string
  {
    if |s| > 0 && IsWhiteSpace(s[0]) then TrimStart(s[1..]) else s
  }

  function TrimEnd(s: string): string
  {
    if |s| > 0 && IsWhiteSpace(s[|s| - 1]) then TrimEnd(s[..|s| - 1]) else s
  }

  function Trim(s: string): string { TrimEnd(TrimStart(s)) }

  lemma {:induction false} TrimStartDropsPadding(pad: string, s: string)
    requires AllWhiteSpace(pad)
    ensures TrimStart(pad + s) == TrimStart(s)
    decreases |pad|
  {
    if |pad| == 0 {
      assert pad + s == s;
    } else {
      assert (pad + s)[1..] == pad[1..] + s;
      TrimStartDropsPadding(pad[1..], s);
    }
  }

  lemma {:induction false} TrimEndDropsPadding(s: string, pad: string)
    requires AllWhiteSpace(pad)
    ensures TrimEnd(s + pad) == TrimEnd(s)
    decreases |pad|
  {
    if |pad| == 0 {
      assert s + pad == s;
    } else {
      assert (s + pad)[..|s + pad| - 1] == s + pad[..|pad| - 1];
      TrimEndDropsPadding(s, pad[..|pad| - 1]);
    }
  }

  /** TrimStart leaves a text without leading white space alone, also when
      something is appended to it. */
  lemma {:induction false} TrimStartAppend(s: string, pad: string)
    requires AllWhiteSpace(pad)
    ensures TrimEnd(TrimStart(s + pad)) == TrimEnd(TrimStart(s))
    decreases |s|
  {
    if |s| > 0 && IsWhiteSpace(s[0]) {
      assert (s + pad)[1..] == s[1..] + pad;
      TrimStartAppend(s[1..], pad);
    } else if |s| > 0 {
      TrimEndDropsPadding(s, pad);
    } else {
      assert s + pad == pad + "";
      TrimStartDropsPadding(pad, "");
    }
  }

  /** Surrounding white space never changes the trimmed text. */
  lemma TrimIgnoresPadding(left: string, s: string, right: string)
    requires AllWhiteSpace(left) && AllWhiteSpace(right)
    ensures Trim(left + s + right) == Trim(s)
  {
    assert left + s + right == left + (s + right);
    TrimStartDropsPadding(left, s + right);
    TrimStartAppend(s, right);
  }

  lemma {:induction false} TrimStartIs(s: string) returns (left: string)
    ensures AllWhiteSpace(left) && s == left + TrimStart(s)
    ensures TrimStart(s) != "" ==> !IsWhiteSpace(TrimStart(s)[0])
    decreases |s|
  {
    left := "";
    if |s| > 0 && IsWhiteSpace(s[0]) {
      var rest := TrimStartIs(s[1..]);
      left := [s[0]] + rest;
      assert s == [s[0]] + s[1..];
    }
  }

  lemma {:induction false} TrimEndIs(s: string) returns (right: string)
    ensures AllWhiteSpace(right) && s == TrimEnd(s) + right
    ensures TrimEnd(s) != "" ==> !IsWhiteSpace(TrimEnd(s)[|TrimEnd(s)| - 1])
    decreases |s|
  {
    right := "";
    if |s| > 0 && IsWhiteSpace(s[|s| - 1]) {
      var rest := TrimEndIs(s[..|s| - 1]);
      right := rest + [s[|s| - 1]];
      assert s == s[..|s| - 1] + [s[|s| - 1]];
    }
  }

  /** What is trimmed away is white space, and what is left neither begins nor ends with
      any; nothing is left exactly of a text that is all white space. */
  lemma TrimIs(s: string) returns (left: string, right: string)
    ensures s == left + Trim(s) + right && AllWhiteSpace(left) && AllWhiteSpace(right)
    ensures Trim(s) != "" ==> !IsWhiteSpace(Trim(s)[0]) && !IsWhiteSpace(Trim(s)[|Trim(s)| - 1])
    ensures Trim(s) == "" <==> AllWhiteSpace(s)
  {
    left := TrimStartIs(s);
    right := TrimEndIs(TrimStart(s));
    assert s == left + (Trim(s) + right) == left + Trim(s) + right;
    if Trim(s) != "" {
      assert Trim(s)[0] == TrimStart(s)[0];
      assert s[|left|] == Trim(s)[0];
    }
  }

  /** The first position of `c`, or the length when `c` does not occur. */
  function IndexOf(s: string, c: char): (k: nat)
    ensures k <= |s|
    ensures forall i :: 0 <= i < k ==> s[i] != c
    ensures k < |s| ==> s[k] == c
  {
    if |s| == 0 || s[0] == c then 0 else 1 + IndexOf(s[1..], c)
  }

  /** `str::split(c)`: always at least one piece. */
  function Split(s: string, c: char): (parts: seq<string>)
    ensures |parts| >= 1
    decreases |s|
  {
    var k := IndexOf(s, c);
    if k == |s| then [s] else [s[..k]] + Split(s[k + 1..], c)
  }

  lemma SplitOnce(a: string, c: char, rest: string)
    requires c !in a
    ensures Split(a + [c] + rest, c) == [a] + Split(rest, c)
  {
    var s := a + [c] + rest;
    assert s[|a|] == c;
    assert forall i :: 0 <= i < |a| ==> s[i] == a[i];
    assert IndexOf(s, c) == |a|;
    assert s[..|a|] == a && s[|a| + 1..] == rest;
  }

  lemma SplitNone(a: string, c: char)
    requires c !in a
    ensures Split(a, c) == [a]
  {
  }
}
