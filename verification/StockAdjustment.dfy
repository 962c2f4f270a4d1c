/** The stock-adjustment request and the payload that is hashed for it. */
module StockAdjustment {
  import opened Text
  import opened Json
  import opened Calendar
  import opened CanonicalJson
  import opened Payload

  datatype Reason = Damage | Shrinkage | Expired | FoundStock | RecordingError | Other

  datatype Request = Request(
    requestId: string,
    warehouseId: int,
    variantId: int,
    unitId: int,
    quantityDelta: Decimal,
    reason: Reason,
    note: Option<string>,
    fiscalPeriodId: int,
    documentDate: Date)

  /** `StockAdjustmentReason::as_db_str`. */
  function DbText(r: Reason): string
  {
    match r
    case Damage => "DAMAGE"
    case Shrinkage => "SHRINKAGE"
    case Expired => "EXPIRED"
    case FoundStock => "FOUND_STOCK"
    case RecordingError => "RECORDING_ERROR"
    case Other => "OTHER"
  }

  /** `StockAdjustmentReason::parse`. */
  function ParseReason(text: string): Option<Reason>
  {
    if text == "DAMAGE" then Some(Damage)
    else if text == "SHRINKAGE" then Some(Shrinkage)
    else if text == "EXPIRED" then Some(Expired)
    else if text == "FOUND_STOCK" then Some(FoundStock)
    else if text == "RECORDING_ERROR" then Some(RecordingError)
    else if text == "OTHER" then Some(Other)
    else None
  }

  /** A reason is read back from its own text, and from no other. */
  lemma ReasonReadsBack(text: string, r: Reason)
    ensures ParseReason(text) == Some(r) <==> text == DbText(r)
  {
    assert |"DAMAGE"| == 6 && |"SHRINKAGE"| == 9 && |"EXPIRED"| == 7;
    assert |"FOUND_STOCK"| == 11 && |"RECORDING_ERROR"| == 15 && |"OTHER"| == 5;
  }

  lemma DbTextInjective(a: Reason, b: Reason)
    requires DbText(a) == DbText(b)
    ensures a == b
  {
    ReasonReadsBack(DbText(a), a);
    ReasonReadsBack(DbText(b), b);
  }

  /** A note without its surrounding white space; a blank note is no note. */
  function NormalizeNote(note: Option<string>): Option<string>
  {
    match note
    case None => None
    case Some(text) => if Trim(text) == "" then None else Some(Trim(text))
  }

  /** No note is left exactly of a missing one and of one that is all white space; otherwise
      what is left is the text between the white space around it. */
  lemma NormalizedNote(note: Option<string>) returns (left: string, right: string)
    ensures NormalizeNote(note).None? <==> note.None? || AllWhiteSpace(note.value)
    ensures NormalizeNote(note).Some? ==>
              var text := NormalizeNote(note).value;
              && note == Some(left + text + right) && AllWhiteSpace(left) && AllWhiteSpace(right)
              && |text| > 0 && !IsWhiteSpace(text[0]) && !IsWhiteSpace(text[|text| - 1])
  {
    left, right := "", "";
    if note.Some? { left, right := TrimIs(note.value); }
  }

  const KEYS := ["warehouse_id", "variant_id", "unit_id", "quantity_delta",
                 "reason_code", "note", "fiscal_period_id", "document_date"]

  function NoteJson(note: Option<string>): Json
  {
    match note
    case None => Null
    case Some(text) => Str(text)
  }

  function Values(r: Request): (v: seq<Option<Json>>)
    requires ValidDate(r.documentDate)
    ensures |v| == 8 && ValidValues(v)
  {
    [Some(Int(r.warehouseId)), Some(Int(r.variantId)), Some(Int(r.unitId)),
     Some(Str(DecimalText(r.quantityDelta))), Some(Str(DbText(r.reason))),
     Some(NoteJson(NormalizeNote(r.note))), Some(Int(r.fiscalPeriodId)),
     Some(Str(DateText(r.documentDate)))]
  }

  /** `canonical_payload`, with the normalized note. */
  function AdjustmentJson(r: Request): Json
    requires ValidDate(r.documentDate)
  {
    Obj(Members(KEYS, Values(r)))
  }

  lemma KeysDistinct()
    ensures Distinct(KEYS) && |KEYS| == 8
  {
  }

  /** The payload has the request's fields under their own names, amount, reason and date as
      texts and the normalized note or null, and no more. */
  lemma AdjustmentSays(r: Request)
    requires ValidDate(r.documentDate)
    ensures var fields := AdjustmentJson(r).fields;
      && Lookup(fields, "warehouse_id") == Some(Int(r.warehouseId))
      && Lookup(fields, "variant_id") == Some(Int(r.variantId))
      && Lookup(fields, "unit_id") == Some(Int(r.unitId))
      && Lookup(fields, "quantity_delta") == Some(Str(DecimalText(r.quantityDelta)))
      && (match Lookup(fields, "reason_code")
          case Some(Str(text)) => ParseReason(text) == Some(r.reason)
          case _ => false)
      && (match Lookup(fields, "note")
          case Some(Null) => NormalizeNote(r.note).None?
          case Some(Str(text)) => NormalizeNote(r.note) == Some(text)
          case _ => false)
      && Lookup(fields, "fiscal_period_id") == Some(Int(r.fiscalPeriodId))
      && Lookup(fields, "document_date") == Some(Str(DateText(r.documentDate)))
      && |fields| == 8
  {
    var values := Values(r);
    KeysDistinct();
    ReasonReadsBack(DbText(r.reason), r.reason);
    MembersLookup(KEYS, values, 0);
    MembersLookup(KEYS, values, 1);
    MembersLookup(KEYS, values, 2);
    MembersLookup(KEYS, values, 3);
    MembersLookup(KEYS, values, 4);
    MembersLookup(KEYS, values, 5);
    MembersLookup(KEYS, values, 6);
    MembersLookup(KEYS, values, 7);
    AllMembers(KEYS, values);
  }

  predicate SameAdjustment(a: Request, b: Request)
  {
    a.warehouseId == b.warehouseId && a.variantId == b.variantId && a.unitId == b.unitId
    && a.quantityDelta == b.quantityDelta && a.reason == b.reason
    && NormalizeNote(a.note) == NormalizeNote(b.note)
    && a.fiscalPeriodId == b.fiscalPeriodId && a.documentDate == b.documentDate
  }

  lemma ValuesDetermineAdjustment(a: Request, b: Request)
    requires ValidDate(a.documentDate) && ValidDate(b.documentDate)
    requires forall i :: 0 <= i < 8 ==> SameOption(Values(a)[i], Values(b)[i])
    ensures SameAdjustment(a, b)
  {
    var v, w := Values(a), Values(b);
    assert SameOption(v[0], w[0]) && SameOption(v[1], w[1]) && SameOption(v[2], w[2]) && SameOption(v[3], w[3]);
    assert SameOption(v[4], w[4]) && SameOption(v[5], w[5]) && SameOption(v[6], w[6]) && SameOption(v[7], w[7]);
    SameInt(a.warehouseId, b.warehouseId);
    SameInt(a.variantId, b.variantId);
    SameInt(a.unitId, b.unitId);
    SameInt(a.fiscalPeriodId, b.fiscalPeriodId);
    DecimalTextInjective(a.quantityDelta, b.quantityDelta);
    DbTextInjective(a.reason, b.reason);
    DateTextInjective(a.documentDate, b.documentDate);
  }

  /** Two adjustments have the same canonical payload exactly when they agree field by
      field, notes being compared without surrounding white space. */
  lemma SamePayloadIffSameAdjustment(a: Request, b: Request)
    requires ValidDate(a.documentDate) && ValidDate(b.documentDate)
    ensures Canonicalize(AdjustmentJson(a)) == Canonicalize(AdjustmentJson(b)) <==> SameAdjustment(a, b)
  {
    KeysDistinct();
    MembersValid(KEYS, Values(a));
    MembersValid(KEYS, Values(b));
    CanonicalEqualIffSameMeaning(AdjustmentJson(a), AdjustmentJson(b));
    if SameAdjustment(a, b) {
      assert Values(a) == Values(b);
    } else if Canonicalize(AdjustmentJson(a)) == Canonicalize(AdjustmentJson(b)) {
      SameMembers(KEYS, Values(a), Values(b));
      ValuesDetermineAdjustment(a, b);
    }
  }

  /** Padding a note with white space never changes the payload. */
  lemma NotePaddingIgnored(a: Request, left: string, text: string, right: string)
    requires ValidDate(a.documentDate) && a.note == Some(text)
    requires AllWhiteSpace(left) && AllWhiteSpace(right)
    ensures Canonicalize(AdjustmentJson(a.(note := Some(left + text + right)))) == Canonicalize(AdjustmentJson(a))
  {
    TrimIgnoresPadding(left, text, right);
    SamePayloadIffSameAdjustment(a.(note := Some(left + text + right)), a);
  }
}
