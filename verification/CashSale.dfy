/** The cash-sale request: validation of its lines and the payload that is hashed. */
module CashSale {
  import opened Text
  import opened Json
  import opened Calendar
  import opened CanonicalJson
  import opened Payload

  datatype Line = Line(
    variantId: int,
    quantity: Option<Decimal>,
    unitPrice: Option<Decimal>,
    saleUnit: Option<string>,
    packUnitId: Option<int>,
    packQuantity: Option<Decimal>,
    extraQuantity: Option<Decimal>,
    packPrice: Option<Decimal>)

  datatype Request = Request(
    requestId: string,
    cashSessionId: int,
    warehouseId: int,
    fiscalPeriodId: int,
    documentDate: Date,
    lines: seq<Line>,
    discountAmount: Option<Decimal>)

  datatype LineError =
    | VariantNotPositive
    | NeitherBaseNorPack
    | QuantityNotPositive
    | UnitPriceNegative
    | PackQuantityBelowOne
    | PackPriceNegative

  // ---------------------------------------------------------------------------
  // Validation
  // ---------------------------------------------------------------------------

  predicate IsBase(l: Line)
  {
    l.saleUnit.None? && l.quantity.Some? && l.unitPrice.Some? && l.packUnitId.None?
    && l.packQuantity.None? && l.extraQuantity.None? && l.packPrice.None?
  }

  predicate IsPack(l: Line)
  {
    l.saleUnit == Some("PACK") && l.quantity.None? && l.unitPrice.None?
    && l.packUnitId.Some? && l.packQuantity.Some? && l.packPrice.Some?
  }

  predicate IsNegative(d: Decimal) { d.negative && d.coefficient > 0 }

  predicate IsPositive(d: Decimal) { !d.negative && d.coefficient > 0 }

  predicate AtLeastOne(d: Decimal) { !d.negative && d.coefficient >= Pow10(d.scale) }

  /** `CashSaleLineInput::validate`: the first check that fails decides. */
  function Validate(l: Line): Option<LineError>
  {
    if l.variantId <= 0 then Some(VariantNotPositive)
    else if !IsBase(l) && !IsPack(l) then Some(NeitherBaseNorPack)
    else if l.quantity.Some? && !IsPositive(l.quantity.value) then Some(QuantityNotPositive)
    else if l.unitPrice.Some? && IsNegative(l.unitPrice.value) then Some(UnitPriceNegative)
    else if l.packQuantity.Some? && !AtLeastOne(l.packQuantity.value) then Some(PackQuantityBelowOne)
    else if l.packPrice.Some? && IsNegative(l.packPrice.value) then Some(PackPriceNegative)
    else None
  }

  /** What an accepted line looks like: one of two disjoint shapes. The extra quantity
      of a pack line is not checked at all. */
  lemma ValidateAccepts(l: Line)
    ensures Validate(l).None? <==>
            && l.variantId > 0
            && (|| (l.saleUnit.None? && l.packUnitId.None? && l.packQuantity.None? && l.extraQuantity.None?
                    && l.packPrice.None? && l.quantity.Some? && l.unitPrice.Some?
                    && Signed(l.quantity.value) > 0 && Signed(l.unitPrice.value) >= 0)
                || (l.saleUnit == Some("PACK") && l.packUnitId.Some? && l.quantity.None? && l.unitPrice.None?
                    && l.packQuantity.Some? && l.packPrice.Some?
                    && Signed(l.packQuantity.value) >= Pow10(l.packQuantity.value.scale) && Signed(l.packPrice.value) >= 0))
    ensures !(IsBase(l) && IsPack(l))
  {
  }

  /** Why a line is refused: a fault is reported when there is no earlier one. */
  lemma ValidateRefuses(l: Line)
    ensures Validate(l) == Some(VariantNotPositive) <==> l.variantId <= 0
    ensures Validate(l) == Some(NeitherBaseNorPack) ==> l.variantId > 0 && !IsBase(l) && !IsPack(l)
    ensures Validate(l) == Some(QuantityNotPositive) ==> l.saleUnit.None? && Signed(l.quantity.value) <= 0
    ensures Validate(l) == Some(UnitPriceNegative) ==>
              l.saleUnit.None? && Signed(l.quantity.value) > 0 && Signed(l.unitPrice.value) < 0
    ensures Validate(l) == Some(PackQuantityBelowOne) ==>
              l.saleUnit == Some("PACK") && Signed(l.packQuantity.value) < Pow10(l.packQuantity.value.scale)
    ensures Validate(l) == Some(PackPriceNegative) ==>
              && l.saleUnit == Some("PACK") && Signed(l.packQuantity.value) >= Pow10(l.packQuantity.value.scale)
              && Signed(l.packPrice.value) < 0
  {
  }

  // ---------------------------------------------------------------------------
  // The payload
  // ---------------------------------------------------------------------------

  const LINE_KEYS := ["variant_id", "quantity", "unit_price", "sale_unit",
                      "pack_unit_id", "pack_quantity", "extra_quantity", "pack_price"]

  function LineValues(l: Line): (r: seq<Option<Json>>)
    ensures |r| == 8 && ValidValues(r)
  {
    [Some(Int(l.variantId)), Map(l.quantity, DecimalValue), Map(l.unitPrice, DecimalValue),
     Map(l.saleUnit, StrValue), Map(l.packUnitId, IntValue), Map(l.packQuantity, DecimalValue),
     Map(l.extraQuantity, DecimalValue), Map(l.packPrice, DecimalValue)]
  }

  /** A serialized line: absent fields are skipped. */
  function LineJson(l: Line): Json { Obj(Members(LINE_KEYS, LineValues(l))) }

  const SALE_KEYS := ["cash_session_id", "warehouse_id", "fiscal_period_id",
                      "document_date", "lines", "discount_amount"]

  function Discount(r: Request): Decimal
  {
    match r.discountAmount
    case Some(d) => d
    case None => ZERO
  }

  function LinesJson(lines: seq<Line>): Json
  {
    Arr(seq(|lines|, i requires 0 <= i < |lines| => LineJson(lines[i])))
  }

  function SaleValues(r: Request): seq<Option<Json>>
    requires ValidDate(r.documentDate)
  {
    [Some(Int(r.cashSessionId)), Some(Int(r.warehouseId)), Some(Int(r.fiscalPeriodId)),
     Some(Str(DateText(r.documentDate))), Some(LinesJson(r.lines)),
     Some(Str(DecimalText(Discount(r))))]
  }

  function SaleJson(r: Request): Json
    requires ValidDate(r.documentDate)
  {
    Obj(Members(SALE_KEYS, SaleValues(r)))
  }

  datatype PayloadResult = Payload(json: Json) | Rejected(line: nat, error: LineError)

  /** `canonical_cash_sale_payload`, before hashing: the first bad line rejects the
      request. */
  method CanonicalPayload(r: Request) returns (result: PayloadResult)
    requires ValidDate(r.documentDate)
    ensures match result
            case Payload(j) =>
              j == SaleJson(r) && forall i :: 0 <= i < |r.lines| ==> Validate(r.lines[i]).None?
            case Rejected(n, e) =>
              n < |r.lines| && Validate(r.lines[n]) == Some(e)
              && forall i :: 0 <= i < n ==> Validate(r.lines[i]).None?
  {
    for n := 0 to |r.lines|
      invariant forall i :: 0 <= i < n ==> Validate(r.lines[i]).None?
    {
      var verdict := Validate(r.lines[n]);
      if verdict.Some? {
        return Rejected(n, verdict.value);
      }
    }
    result := Payload(SaleJson(r));
  }

  lemma LineKeysDistinct()
    ensures Distinct(LINE_KEYS) && |LINE_KEYS| == 8
  {
  }

  lemma SaleKeysDistinct()
    ensures Distinct(SALE_KEYS) && |SALE_KEYS| == 6
  {
  }

  // ---------------------------------------------------------------------------
  // What the payload says
  // ---------------------------------------------------------------------------

  /** The serialized decimal: its text. */
  function Amount(d: Option<Decimal>): Option<Json>
  {
    if d.Some? then Some(Str(DecimalText(d.value))) else None
  }

  /** A serialized line has the fields that are there under their own names, amounts as
      texts, and no others. */
  lemma LineSays(l: Line)
    ensures var fields := LineJson(l).fields;
      && Lookup(fields, "variant_id") == Some(Int(l.variantId))
      && Lookup(fields, "quantity") == Amount(l.quantity)
      && Lookup(fields, "unit_price") == Amount(l.unitPrice)
      && Lookup(fields, "sale_unit") == (if l.saleUnit.Some? then Some(Str(l.saleUnit.value)) else None)
      && Lookup(fields, "pack_unit_id") == (if l.packUnitId.Some? then Some(Int(l.packUnitId.value)) else None)
      && Lookup(fields, "pack_quantity") == Amount(l.packQuantity)
      && Lookup(fields, "extra_quantity") == Amount(l.extraQuantity)
      && Lookup(fields, "pack_price") == Amount(l.packPrice)
    ensures forall f :: f in LineJson(l).fields ==>
      f.key in ["variant_id", "quantity", "unit_price", "sale_unit",
                "pack_unit_id", "pack_quantity", "extra_quantity", "pack_price"]
  {
    var keys, values := LINE_KEYS, LineValues(l);
    LineKeysDistinct();
    MembersLookup(keys, values, 0);
    MembersLookup(keys, values, 1);
    MembersLookup(keys, values, 2);
    MembersLookup(keys, values, 3);
    MembersLookup(keys, values, 4);
    MembersLookup(keys, values, 5);
    MembersLookup(keys, values, 6);
    MembersLookup(keys, values, 7);
    MembersKeys(keys, values);
  }

  /** The payload of a sale has its own session, warehouse, period and date, the serialized
      lines in their order, the text of the given discount or else "0", and nothing more. */
  lemma SaleSays(r: Request)
    requires ValidDate(r.documentDate)
    ensures var fields := SaleJson(r).fields;
      && Lookup(fields, "cash_session_id") == Some(Int(r.cashSessionId))
      && Lookup(fields, "warehouse_id") == Some(Int(r.warehouseId))
      && Lookup(fields, "fiscal_period_id") == Some(Int(r.fiscalPeriodId))
      && Lookup(fields, "document_date") == Some(Str(DateText(r.documentDate)))
      && Lookup(fields, "discount_amount")
         == Some(Str(if r.discountAmount.Some? then DecimalText(r.discountAmount.value) else "0"))
      && (match Lookup(fields, "lines")
          case Some(Arr(items)) => |items| == |r.lines| && forall i :: 0 <= i < |items| ==> items[i] == LineJson(r.lines[i])
          case _ => false)
    ensures forall f :: f in SaleJson(r).fields ==>
      f.key in ["cash_session_id", "warehouse_id", "fiscal_period_id", "document_date", "lines", "discount_amount"]
  {
    var keys, values := SALE_KEYS, SaleValues(r);
    SaleKeysDistinct();
    MembersLookup(keys, values, 0);
    MembersLookup(keys, values, 1);
    MembersLookup(keys, values, 2);
    MembersLookup(keys, values, 3);
    MembersLookup(keys, values, 4);
    MembersLookup(keys, values, 5);
    MembersKeys(keys, values);
    assert DecimalText(ZERO) == "0" by { assert NatText(0) == "0"; }
  }

  lemma LineJsonValid(l: Line)
    ensures Valid(LineJson(l))
  {
    LineKeysDistinct();
    MembersValid(LINE_KEYS, LineValues(l));
  }

  lemma LinesJsonValid(lines: seq<Line>)
    ensures Valid(LinesJson(lines))
  {
    forall i | 0 <= i < |lines| ensures Valid(LineJson(lines[i])) { LineJsonValid(lines[i]); }
  }

  lemma SaleJsonValid(r: Request)
    requires ValidDate(r.documentDate)
    ensures ValidValues(SaleValues(r)) && Valid(SaleJson(r))
  {
    SaleKeysDistinct();
    LinesJsonValid(r.lines);
    MembersValid(SALE_KEYS, SaleValues(r));
  }

  /** A serialized line determines the line: skipped fields can be recovered, and a
      base line never collides with a pack line. */
  lemma LineJsonInjective(a: Line, b: Line)
    requires SameMeaning(LineJson(a), LineJson(b))
    ensures a == b
  {
    LineKeysDistinct();
    SameMembers(LINE_KEYS, LineValues(a), LineValues(b));
    LineValuesDetermineLine(a, b);
  }

  lemma LineValuesDetermineLine(a: Line, b: Line)
    requires forall i :: 0 <= i < 8 ==> SameOption(LineValues(a)[i], LineValues(b)[i])
    ensures a == b
  {
    var v, w := LineValues(a), LineValues(b);
    assert SameOption(v[0], w[0]) && SameOption(v[1], w[1]) && SameOption(v[2], w[2]) && SameOption(v[3], w[3]);
    assert SameOption(v[4], w[4]) && SameOption(v[5], w[5]) && SameOption(v[6], w[6]) && SameOption(v[7], w[7]);
    SameInt(a.variantId, b.variantId);
    SameDecimalOption(a.quantity, b.quantity);
    SameDecimalOption(a.unitPrice, b.unitPrice);
    SameStrOption(a.saleUnit, b.saleUnit);
    SameIntOption(a.packUnitId, b.packUnitId);
    SameDecimalOption(a.packQuantity, b.packQuantity);
    SameDecimalOption(a.extraQuantity, b.extraQuantity);
    SameDecimalOption(a.packPrice, b.packPrice);
  }

  lemma LinesJsonInjective(a: seq<Line>, b: seq<Line>)
    requires SameMeaning(LinesJson(a), LinesJson(b))
    ensures a == b
  {
    var x, y := LinesJson(a).items, LinesJson(b).items;
    assert SameItems(x, y);
    forall i | 0 <= i < |a|
      ensures a[i] == b[i]
    {
      assert SameMeaning(x[i], y[i]);
      LineJsonInjective(a[i], b[i]);
    }
  }

  /** The fields of a sale that its payload speaks of. A missing discount counts as
      the decimal 0 without decimals, and as no other. */
  predicate SameSale(a: Request, b: Request)
  {
    a.cashSessionId == b.cashSessionId && a.warehouseId == b.warehouseId
    && a.fiscalPeriodId == b.fiscalPeriodId && a.documentDate == b.documentDate
    && a.lines == b.lines
    && (a.discountAmount == b.discountAmount
        || (a.discountAmount in [None, Some(Decimal(false, 0, 0))] && b.discountAmount in [None, Some(Decimal(false, 0, 0))]))
  }

  lemma SaleJsonInjective(a: Request, b: Request)
    requires ValidDate(a.documentDate) && ValidDate(b.documentDate)
    requires SameMeaning(SaleJson(a), SaleJson(b))
    ensures SameSale(a, b)
  {
    SaleKeysDistinct();
    SaleJsonValid(a);
    SaleJsonValid(b);
    SameMembers(SALE_KEYS, SaleValues(a), SaleValues(b));
    SaleValuesDetermineSale(a, b);
  }

  lemma SaleValuesDetermineSale(a: Request, b: Request)
    requires ValidDate(a.documentDate) && ValidDate(b.documentDate)
    requires forall i :: 0 <= i < 6 ==> SameOption(SaleValues(a)[i], SaleValues(b)[i])
    ensures SameSale(a, b)
  {
    var v, w := SaleValues(a), SaleValues(b);
    assert SameOption(v[0], w[0]) && SameOption(v[1], w[1]) && SameOption(v[2], w[2]);
    assert SameOption(v[3], w[3]) && SameOption(v[4], w[4]) && SameOption(v[5], w[5]);
    SameInt(a.cashSessionId, b.cashSessionId);
    SameInt(a.warehouseId, b.warehouseId);
    SameInt(a.fiscalPeriodId, b.fiscalPeriodId);
    DateTextInjective(a.documentDate, b.documentDate);
    LinesJsonInjective(a.lines, b.lines);
    DecimalTextInjective(Discount(a), Discount(b));
  }

  lemma SameSaleSameJson(a: Request, b: Request)
    requires ValidDate(a.documentDate) && ValidDate(b.documentDate) && SameSale(a, b)
    ensures SaleJson(a) == SaleJson(b)
  {
    assert Discount(a) == Discount(b);
    assert SaleValues(a) == SaleValues(b);
  }

  /** Two sales have the same canonical payload exactly when they agree on session,
      warehouse, period, date, lines and discount; the request id plays no part. */
  lemma SamePayloadIffSameSale(a: Request, b: Request)
    requires ValidDate(a.documentDate) && ValidDate(b.documentDate)
    ensures Canonicalize(SaleJson(a)) == Canonicalize(SaleJson(b)) <==> SameSale(a, b)
  {
    if SameSale(a, b) {
      SameSaleSameJson(a, b);
    } else if Canonicalize(SaleJson(a)) == Canonicalize(SaleJson(b)) {
      SaleJsonValid(a);
      SaleJsonValid(b);
      CanonicalEqualIffSameMeaning(SaleJson(a), SaleJson(b));
      SaleJsonInjective(a, b);
    }
  }

  // ---------------------------------------------------------------------------
  // Equal amounts
  // ---------------------------------------------------------------------------

  predicate SameAmounts(a: Option<Decimal>, b: Option<Decimal>)
  {
    a.Some? == b.Some? && (a.Some? ==> SameAmount(a.value, b.value))
  }

  /** Written with as many decimals, and with the same sign. */
  predicate SameForm(a: Option<Decimal>, b: Option<Decimal>)
  {
    a.Some? && b.Some? ==> a.value.scale == b.value.scale && a.value.negative == b.value.negative
  }

  predicate LineOfSameAmounts(a: Line, b: Line)
  {
    && a.variantId == b.variantId && a.saleUnit == b.saleUnit && a.packUnitId == b.packUnitId
    && SameAmounts(a.quantity, b.quantity) && SameAmounts(a.unitPrice, b.unitPrice)
    && SameAmounts(a.packQuantity, b.packQuantity) && SameAmounts(a.extraQuantity, b.extraQuantity)
    && SameAmounts(a.packPrice, b.packPrice)
  }

  predicate LineOfSameForm(a: Line, b: Line)
  {
    && SameForm(a.quantity, b.quantity) && SameForm(a.unitPrice, b.unitPrice)
    && SameForm(a.packQuantity, b.packQuantity) && SameForm(a.extraQuantity, b.extraQuantity)
    && SameForm(a.packPrice, b.packPrice)
  }

  /** The two sales say the same, as far as amounts go by their value. */
  predicate SaleOfSameAmounts(a: Request, b: Request)
  {
    && a.cashSessionId == b.cashSessionId && a.warehouseId == b.warehouseId
    && a.fiscalPeriodId == b.fiscalPeriodId && a.documentDate == b.documentDate
    && |a.lines| == |b.lines| && (forall i :: 0 <= i < |a.lines| ==> LineOfSameAmounts(a.lines[i], b.lines[i]))
    && SameAmount(Discount(a), Discount(b))
  }

  predicate SaleOfSameForm(a: Request, b: Request)
    requires |a.lines| == |b.lines|
  {
    && SameForm(Some(Discount(a)), Some(Discount(b)))
    && forall i :: 0 <= i < |a.lines| ==> LineOfSameForm(a.lines[i], b.lines[i])
  }

  lemma AmountAndForm(a: Option<Decimal>, b: Option<Decimal>)
    requires SameAmounts(a, b)
    ensures a == b <==> SameForm(a, b)
  {
    if a.Some? && SameForm(a, b) {
      SameAmountSameText(a.value, b.value);
      DecimalTextInjective(a.value, b.value);
    }
  }

  lemma LineAmountsAndForm(a: Line, b: Line)
    requires LineOfSameAmounts(a, b)
    ensures a == b <==> LineOfSameForm(a, b)
  {
    AmountAndForm(a.quantity, b.quantity);
    AmountAndForm(a.unitPrice, b.unitPrice);
    AmountAndForm(a.packQuantity, b.packQuantity);
    AmountAndForm(a.extraQuantity, b.extraQuantity);
    AmountAndForm(a.packPrice, b.packPrice);
  }

  /** Amounts are compared as texts: two sales of the same amounts have the same payload
      exactly when every amount, the discount's and those of the lines, is written with
      as many decimals and the same sign. So a retry that writes "15.0" for "15" is a
      conflict. */
  lemma AmountsAreTexts(a: Request, b: Request)
    requires ValidDate(a.documentDate) && SaleOfSameAmounts(a, b)
    ensures Canonicalize(SaleJson(a)) == Canonicalize(SaleJson(b)) <==> SaleOfSameForm(a, b)
  {
    SamePayloadIffSameSale(a, b);
    AmountAndForm(Some(Discount(a)), Some(Discount(b)));
    forall i | 0 <= i < |a.lines|
      ensures a.lines[i] == b.lines[i] <==> LineOfSameForm(a.lines[i], b.lines[i])
    {
      LineAmountsAndForm(a.lines[i], b.lines[i]);
    }
    if SaleOfSameForm(a, b) { assert a.lines == b.lines; }
  }

  /** One amount, written with one decimal more the second time. */
  lemma OneDecimalMore() returns (price: Decimal, again: Decimal)
    ensures IsPositive(price) && IsPositive(again) && SameAmount(price, again) && price.scale != again.scale
  {
    price, again := Decimal(false, 15, 0), Decimal(false, 150, 1);
    assert Pow10(0) == 1 && Pow10(1) == 10;
  }

  /** A valid sale, and the same sale with its price and its discount written with one
      decimal more, under the same request id. */
  lemma TrailingZeroConflicts(id: string) returns (a: Request, b: Request)
    ensures a.requestId == b.requestId == id && ValidDate(a.documentDate) && SaleOfSameAmounts(a, b)
    ensures |a.lines| == 1 && Validate(a.lines[0]).None? && Validate(b.lines[0]).None?
    ensures Canonicalize(SaleJson(a)) != Canonicalize(SaleJson(b))
  {
    var price, again := OneDecimalMore();
    var line := Line(1, Some(price), Some(price), None, None, None, None, None);
    var other := line.(unitPrice := Some(again));
    a := Request(id, 1, 1, 1, Date(2026, 1, 1), [line], Some(price));
    b := Request(id, 1, 1, 1, Date(2026, 1, 1), [other], Some(again));
    assert LineOfSameAmounts(line, other) && !LineOfSameForm(line, other);
    assert a.lines[0] == line && b.lines[0] == other;
    AmountsAreTexts(a, b);
  }
}
