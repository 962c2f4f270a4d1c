/** Building blocks of the payloads that are hashed for idempotency: decimal texts,
    and objects with a fixed list of keys of which some may be absent. */
module Payload {
  import opened Text
  import opened Json
  import opened Calendar
  import opened CanonicalJson

  // ---------------------------------------------------------------------------
  // Decimals
  // ---------------------------------------------------------------------------

  /** `rust_decimal::Decimal`: a sign, a coefficient and the number of digits after
      the point. 1.5 and 1.50 are different values of this type. */
  datatype Decimal = Decimal(negative: bool, coefficient: nat, scale: nat)

  const ZERO := Decimal(false, 0, 0)

  /** `Decimal`'s text, which is also how it is serialized. */
  function DecimalText(d: Decimal): string
  {
    (if d.negative then "-" else "") + MagnitudeText(d.coefficient, d.scale)
  }

  /** A coefficient without its last `scale` digits. */
  function Whole(coefficient: nat, scale: nat): nat
    decreases scale
  {
    if scale == 0 then coefficient else Whole(coefficient / 10, scale - 1)
  }

  function MagnitudeText(coefficient: nat, scale: nat): (s: string)
    ensures |s| > 0 && IsDigit(s[0])
  {
    if scale == 0 then NatText(coefficient)
    else NatText(Whole(coefficient, scale)) + "." + PadText(coefficient, scale)
  }

  /** The digits before and after the point make up the coefficient. */
  lemma {:induction false} WholeAndPad(a: nat, b: nat, scale: nat)
    requires Whole(a, scale) == Whole(b, scale) && PadText(a, scale) == PadText(b, scale)
    ensures a == b
    decreases scale
  {
    if scale > 0 {
      var n := scale - 1;
      assert PadText(a, scale)[..n] == PadText(a / 10, n) && PadText(b, scale)[..n] == PadText(b / 10, n);
      assert PadText(a, scale)[n] == DigitChar(a % 10) && PadText(b, scale)[n] == DigitChar(b % 10);
      WholeAndPad(a / 10, b / 10, n);
    }
  }

  lemma LastDigit(x: string, y: string, d: nat)
    requires AllDigits(x) && AllDigits(y) && d < 10
    ensures NatValue(x + (y + [DigitChar(d)])) == 10 * NatValue(x + y) + d
  {
    var s := x + (y + [DigitChar(d)]);
    assert s[..|s| - 1] == x + y;
  }

  lemma {:induction false} WholeAndPadValue(coefficient: nat, scale: nat)
    ensures NatValue(NatText(Whole(coefficient, scale)) + PadText(coefficient, scale)) == coefficient
    decreases scale
  {
    var whole := NatText(Whole(coefficient, scale));
    if scale == 0 {
      NatTextValue(coefficient);
      assert whole + PadText(coefficient, 0) == NatText(coefficient);
    } else {
      WholeAndPadValue(coefficient / 10, scale - 1);
      LastDigit(whole, PadText(coefficient / 10, scale - 1), coefficient % 10);
    }
  }

  /** How digits are read as an amount: a point before the last `scale` of them if there are
      any decimals, at least one digit before it, and no needless zero in front; and the
      digits together are the coefficient. */
  predicate ReadsAsAmount(text: string, coefficient: nat, scale: nat)
  {
    && |text| > (if scale == 0 then 0 else scale + 1)
    && var whole := if scale == 0 then text else text[..|text| - scale - 1];
    && var decimals := text[|text| - scale..];
    && (scale > 0 ==> text[|text| - scale - 1] == '.')
    && AllDigits(whole) && AllDigits(decimals) && (|whole| > 1 ==> whole[0] != '0')
    && NatValue(whole + decimals) == coefficient
  }

  lemma MagnitudeTextReads(coefficient: nat, scale: nat)
    ensures ReadsAsAmount(MagnitudeText(coefficient, scale), coefficient, scale)
  {
    var text := MagnitudeText(coefficient, scale);
    var whole, decimals := NatText(Whole(coefficient, scale)), PadText(coefficient, scale);
    WholeAndPadValue(coefficient, scale);
    NatTextLeading(Whole(coefficient, scale));
    if scale == 0 {
      assert decimals == "" && text == whole;
      assert text[|text|..] == "";
    } else {
      assert text[|text| - scale..] == decimals && text[..|text| - scale - 1] == whole;
    }
  }

  /** A decimal's text is a minus sign, if it is negative, and its amount. */
  lemma DecimalTextReads(d: Decimal)
    ensures |DecimalText(d)| > 0 && (d.negative <==> DecimalText(d)[0] == '-')
    ensures ReadsAsAmount(DecimalText(d)[if d.negative then 1 else 0..], d.coefficient, d.scale)
  {
    MagnitudeTextReads(d.coefficient, d.scale);
    assert d.negative ==> DecimalText(d)[1..] == MagnitudeText(d.coefficient, d.scale);
  }

  lemma PointPosition(x: string, y: string)
    requires '.' !in x
    ensures IndexOf(x + "." + y, '.') == |x|
    ensures (x + "." + y)[..|x|] == x && (x + "." + y)[|x| + 1..] == y
  {
    var s := x + "." + y;
    assert s[|x|] == '.' && forall i :: 0 <= i < |x| ==> s[i] == x[i];
  }

  lemma PointIffScale(coefficient: nat, scale: nat)
    ensures '.' in MagnitudeText(coefficient, scale) <==> scale != 0
  {
  }

  lemma MagnitudeTextInjective(a: nat, s: nat, b: nat, t: nat)
    requires MagnitudeText(a, s) == MagnitudeText(b, t)
    ensures a == b && s == t
  {
    PointIffScale(a, s);
    PointIffScale(b, t);
    if s == 0 {
      NatTextValue(a);
      NatTextValue(b);
    } else {
      PointPosition(NatText(Whole(a, s)), PadText(a, s));
      PointPosition(NatText(Whole(b, t)), PadText(b, t));
      assert s == |PadText(a, s)| == |PadText(b, t)| == t;
      NatTextValue(Whole(a, s));
      NatTextValue(Whole(b, t));
      WholeAndPad(a, b, s);
    }
  }

  lemma SignFirst(x: string, y: string, n: bool, m: bool)
    requires |x| > 0 && |y| > 0 && IsDigit(x[0]) && IsDigit(y[0])
    requires (if n then "-" else "") + x == (if m then "-" else "") + y
    ensures n == m && x == y
  {
    var s, t := (if n then "-" else "") + x, (if m then "-" else "") + y;
    assert n ==> s[0] == '-' && s[1..] == x;
    assert m ==> t[0] == '-' && t[1..] == y;
    assert !n ==> s == x;
    assert !m ==> t == y;
  }

  /** The text of a decimal determines sign, coefficient and scale. */
  lemma DecimalTextInjective(a: Decimal, b: Decimal)
    requires DecimalText(a) == DecimalText(b)
    ensures a == b
  {
    SignFirst(MagnitudeText(a.coefficient, a.scale), MagnitudeText(b.coefficient, b.scale), a.negative, b.negative);
    MagnitudeTextInjective(a.coefficient, a.scale, b.coefficient, b.scale);
  }

  function Signed(d: Decimal): int
  {
    if d.negative then -(d.coefficient as int) else d.coefficient as int
  }

  /** Equal as numbers. */
  predicate SameAmount(a: Decimal, b: Decimal)
  {
    Signed(a) * Pow10(b.scale) == Signed(b) * Pow10(a.scale)
  }

  /** Equal amounts have equal texts exactly when they are written with the same
      number of decimals (and zero with the same sign). */
  lemma SameAmountSameText(a: Decimal, b: Decimal)
    requires SameAmount(a, b)
    ensures DecimalText(a) == DecimalText(b) <==> a.scale == b.scale && a.negative == b.negative
  {
    if DecimalText(a) == DecimalText(b) {
      DecimalTextInjective(a, b);
    }
    if a.scale == b.scale {
      CancelFactor(Signed(a), Signed(b), Pow10(a.scale));
    }
  }

  lemma CancelFactor(x: int, y: int, p: nat)
    requires p > 0 && x * p == y * p
    ensures x == y
  {
    if x < y { FactorKeepsOrder(x, y, p); } else if y < x { FactorKeepsOrder(y, x, p); }
  }

  lemma {:induction false} FactorKeepsOrder(x: int, y: int, p: nat)
    requires p > 0 && x < y
    ensures x * p < y * p
    decreases p
  {
  }

  lemma DateParts(d: Date)
    requires ValidDate(d)
    ensures var s := DateText(d);
            |s| == (if d.year < 0 then 11 else 10)
            && NatValue(PadText(if d.year < 0 then -d.year else d.year, 4)) == (if d.year < 0 then -d.year else d.year)
            && NatValue(PadText(d.month, 2)) == d.month && NatValue(PadText(d.day, 2)) == d.day
            && s[|s| - 10..|s| - 6] == PadText(if d.year < 0 then -d.year else d.year, 4)
            && s[|s| - 5..|s| - 3] == PadText(d.month, 2) && s[|s| - 2..] == PadText(d.day, 2)
  {
    assert Pow10(2) == 100 && Pow10(4) == 10000;
    PadTextValue(if d.year < 0 then -d.year else d.year, 4);
    PadTextValue(d.month, 2);
    PadTextValue(d.day, 2);
  }

  lemma DateTextInjective(a: Date, b: Date)
    requires ValidDate(a) && ValidDate(b) && DateText(a) == DateText(b)
    ensures a == b
  {
    DateParts(a);
    DateParts(b);
  }

  // ---------------------------------------------------------------------------
  // Objects with optional members
  // ---------------------------------------------------------------------------

  function Map<T, U>(o: Option<T>, f: T -> U): Option<U>
  {
    match o
    case None => None
    case Some(v) => Some(f(v))
  }

  predicate Distinct(keys: seq<string>)
  {
    forall i, k :: 0 <= i < k < |keys| ==> keys[i] != keys[k]
  }

  /** The members that are present, in the order of `keys`. */
  function Members(keys: seq<string>, values: seq<Option<Json>>): seq<Field>
    requires |keys| == |values|
  {
    if |keys| == 0 then []
    else
      (match values[0] case None => [] case Some(v) => [Field(keys[0], v)])
      + Members(keys[1..], values[1..])
  }

  predicate ValidValues(values: seq<Option<Json>>)
  {
    forall i :: 0 <= i < |values| && values[i].Some? ==> Valid(values[i].value)
  }

  lemma {:induction false} MembersKeys(keys: seq<string>, values: seq<Option<Json>>)
    requires |keys| == |values|
    ensures forall i :: 0 <= i < |Members(keys, values)| ==> Members(keys, values)[i].key in keys
  {
    if |keys| > 0 { MembersKeys(keys[1..], values[1..]); }
  }

  lemma {:induction false} MembersValid(keys: seq<string>, values: seq<Option<Json>>)
    requires |keys| == |values| && Distinct(keys) && ValidValues(values)
    ensures Valid(Obj(Members(keys, values)))
  {
    if |keys| > 0 {
      MembersValid(keys[1..], values[1..]);
      MembersKeys(keys[1..], values[1..]);
    }
  }

  lemma {:induction false} MembersLookup(keys: seq<string>, values: seq<Option<Json>>, i: nat)
    requires |keys| == |values| && Distinct(keys) && i < |keys|
    ensures Lookup(Members(keys, values), keys[i]) == values[i]
  {
    var rest := Members(keys[1..], values[1..]);
    if values[0].Some? {
      assert Members(keys, values)[1..] == rest;
    } else {
      assert Members(keys, values) == rest;
    }
    if i > 0 {
      assert keys[1..][i - 1] == keys[i] && keys[0] != keys[i];
      MembersLookup(keys[1..], values[1..], i - 1);
    } else {
      LookupAbsent(keys[1..], values[1..], keys[0]);
    }
  }

  lemma {:induction false} AllMembers(keys: seq<string>, values: seq<Option<Json>>)
    requires |keys| == |values| && forall i :: 0 <= i < |values| ==> values[i].Some?
    ensures |Members(keys, values)| == |keys|
  {
    if |keys| > 0 { AllMembers(keys[1..], values[1..]); }
  }

  lemma LookupAbsent(keys: seq<string>, values: seq<Option<Json>>, key: string)
    requires |keys| == |values| && key !in keys
    ensures Lookup(Members(keys, values), key).None?
  {
    MembersKeys(keys, values);
    if Lookup(Members(keys, values), key).Some? {
      var k := LookupSome(Members(keys, values), key);
    }
  }

  /** Objects with the same meaning agree on every key. */
  lemma SameLookup(x: seq<Field>, y: seq<Field>, key: string)
    requires Valid(Obj(x)) && Valid(Obj(y)) && SameFields(x, y)
    ensures Lookup(x, key).Some? <==> Lookup(y, key).Some?
    ensures Lookup(x, key).Some? ==> SameMeaning(Lookup(x, key).value, Lookup(y, key).value)
  {
    if Lookup(x, key).Some? {
      var i := LookupSome(x, key);
      assert HasCounterpart(x[i], y);
      var k :| 0 <= k < |y| && y[k].key == x[i].key && SameMeaning(x[i].value, y[k].value);
      LookupFound(y, k);
    }
    if Lookup(y, key).Some? {
      var k := LookupSome(y, key);
      assert HasKey(x, y[k].key);
      var i :| 0 <= i < |x| && x[i].key == y[k].key;
      LookupFound(x, i);
    }
  }

  ghost predicate SameOption(a: Option<Json>, b: Option<Json>)
  {
    (a.Some? <==> b.Some?) && (a.Some? ==> SameMeaning(a.value, b.value))
  }

  /** Two objects over the same keys mean the same only if they agree member by
      member, absent members included. */
  lemma SameMembers(keys: seq<string>, v: seq<Option<Json>>, w: seq<Option<Json>>)
    requires |keys| == |v| == |w| && Distinct(keys) && ValidValues(v) && ValidValues(w)
    requires SameMeaning(Obj(Members(keys, v)), Obj(Members(keys, w)))
    ensures forall i :: 0 <= i < |keys| ==> SameOption(v[i], w[i])
  {
    MembersValid(keys, v);
    MembersValid(keys, w);
    forall i | 0 <= i < |keys|
      ensures SameOption(v[i], w[i])
    {
      SameLookup(Members(keys, v), Members(keys, w), keys[i]);
      MembersLookup(keys, v, i);
      MembersLookup(keys, w, i);
    }
  }

  lemma SameInt(a: int, b: int)
    requires SameOption(Some(Int(a)), Some(Int(b)))
    ensures a == b
  {
    IntTextInjective(a, b);
  }

  function IntValue(n: int): Json { Int(n) }

  function DecimalValue(d: Decimal): Json { Str(DecimalText(d)) }

  function StrValue(s: string): Json { Str(s) }

  lemma SameIntOption(a: Option<int>, b: Option<int>)
    requires SameOption(Map(a, IntValue), Map(b, IntValue))
    ensures a == b
  {
    if a.Some? { IntTextInjective(a.value, b.value); }
  }

  lemma SameDecimalOption(a: Option<Decimal>, b: Option<Decimal>)
    requires SameOption(Map(a, DecimalValue), Map(b, DecimalValue))
    ensures a == b
  {
    if a.Some? { DecimalTextInjective(a.value, b.value); }
  }

  lemma SameStrOption(a: Option<string>, b: Option<string>)
    requires SameOption(Map(a, StrValue), Map(b, StrValue))
    ensures a == b
  {
  }
}
