/** Applying an opening state: the mappings are validated, sorted by line, and turned
    into the list that is hashed and the list that is sent to the database. */
module OpeningState {
  import opened Text
  import opened Json
  import opened CanonicalJson
  import opened Payload
  import Utf8

  datatype Mapping = Mapping(
    lineId: int,
    customerId: Option<int>,
    supplierId: Option<int>,
    accountCode: Option<string>)

  datatype Request = Request(
    requestId: string,
    packageId: int,
    fiscalPeriodId: int,
    mappings: seq<Mapping>)

  // ---------------------------------------------------------------------------
  // Validation
  // ---------------------------------------------------------------------------

  predicate HasControl(s: string) { exists i :: 0 <= i < |s| && IsControl(s[i]) }

  predicate ValidCode(code: string)
  {
    Trim(code) != "" && |Utf8.Encode(Trim(code))| <= 120 && !HasControl(Trim(code))
  }

  /** The mapping's own `validate`. */
  predicate ValidMapping(m: Mapping)
  {
    && m.lineId > 0
    && (m.customerId.Some? ==> m.customerId.value > 0)
    && (m.supplierId.Some? ==> m.supplierId.value > 0)
    && !(m.customerId.Some? && m.supplierId.Some?)
    && (m.accountCode.Some? ==> ValidCode(m.accountCode.value))
    && (m.customerId.Some? || m.supplierId.Some? || m.accountCode.Some?)
  }

  predicate DistinctLines(ms: seq<Mapping>)
  {
    forall i, k :: 0 <= i < k < |ms| ==> ms[i].lineId != ms[k].lineId
  }

  predicate ValidHeader(r: Request)
  {
    && 8 <= |Utf8.Encode(Trim(r.requestId))| <= 128 && !HasControl(Trim(r.requestId))
    && r.packageId > 0 && r.fiscalPeriodId > 0 && |r.mappings| <= 5000
  }

  /** What `ApplyOpeningStateRequest::validate` accepts. */
  predicate ValidRequest(r: Request)
  {
    && ValidHeader(r)
    && (forall i :: 0 <= i < |r.mappings| ==> ValidMapping(r.mappings[i]))
    && DistinctLines(r.mappings)
  }

  /** The validation loop, with its set of line ids seen so far. */
  method Validate(r: Request) returns (ok: bool)
    ensures ok <==> ValidRequest(r)
    ensures ok <==>
      && 8 <= |Utf8.Encode(Trim(r.requestId))| <= 128 && (forall c :: c in Trim(r.requestId) ==> !IsControl(c))
      && r.packageId > 0 && r.fiscalPeriodId > 0 && |r.mappings| <= 5000
      && (forall i, k :: 0 <= i < k < |r.mappings| ==> r.mappings[i].lineId != r.mappings[k].lineId)
      && (forall m :: m in r.mappings ==>
            && m.lineId > 0
            && (m.customerId.None? || (m.customerId.value > 0 && m.supplierId.None?))
            && (m.supplierId.None? || m.supplierId.value > 0)
            && (match m.accountCode
                case None => m.customerId.Some? || m.supplierId.Some?
                case Some(code) =>
                  0 < |Utf8.Encode(Trim(code))| <= 120 && forall c :: c in Trim(code) ==> !IsControl(c)))
  {
    if !ValidHeader(r) {
      return false;
    }
    var lineIds: set<int> := {};
    for n := 0 to |r.mappings|
      invariant forall i :: 0 <= i < n ==> ValidMapping(r.mappings[i])
      invariant forall i, k :: 0 <= i < k < n ==> r.mappings[i].lineId != r.mappings[k].lineId
      invariant forall id :: id in lineIds <==> exists i :: 0 <= i < n && r.mappings[i].lineId == id
    {
      var m := r.mappings[n];
      if !ValidMapping(m) {
        return false;
      }
      if m.lineId in lineIds {
        return false;
      }
      lineIds := lineIds + {m.lineId};
    }
    ok := true;
  }

  // ---------------------------------------------------------------------------
  // Sorting by line
  // ---------------------------------------------------------------------------

  predicate SortedByLine(ms: seq<Mapping>)
  {
    forall i, k :: 0 <= i < k < |ms| ==> ms[i].lineId < ms[k].lineId
  }

  function InsertByLine(m: Mapping, ms: seq<Mapping>): seq<Mapping>
  {
    if |ms| == 0 then [m]
    else if m.lineId <= ms[0].lineId then [m] + ms
    else [ms[0]] + InsertByLine(m, ms[1..])
  }

  /** `sort_by_key(|mapping| mapping.line_id)`, a stable sort. */
  function SortByLine(ms: seq<Mapping>): seq<Mapping>
  {
    if |ms| == 0 then [] else InsertByLine(ms[0], SortByLine(ms[1..]))
  }

  lemma {:induction false} InsertPermutes(m: Mapping, ms: seq<Mapping>)
    ensures multiset(InsertByLine(m, ms)) == multiset(ms) + multiset{m}
  {
    if |ms| > 0 && m.lineId > ms[0].lineId {
      InsertPermutes(m, ms[1..]);
      assert ms == [ms[0]] + ms[1..];
    }
  }

  lemma {:induction false} SortPermutes(ms: seq<Mapping>)
    ensures multiset(SortByLine(ms)) == multiset(ms)
  {
    if |ms| > 0 {
      SortPermutes(ms[1..]);
      InsertPermutes(ms[0], SortByLine(ms[1..]));
      assert ms == [ms[0]] + ms[1..];
    }
  }

  lemma SameMembersOf(a: seq<Mapping>, b: seq<Mapping>)
    requires multiset(a) == multiset(b)
    ensures forall m :: m in a <==> m in b
  {
    forall m ensures m in a <==> m in b { assert m in multiset(a) <==> m in multiset(b); }
  }

  lemma {:induction false} InsertKeepsSorted(m: Mapping, ms: seq<Mapping>)
    requires SortedByLine(ms) && forall i :: 0 <= i < |ms| ==> ms[i].lineId != m.lineId
    ensures SortedByLine(InsertByLine(m, ms))
  {
    if |ms| > 0 && m.lineId > ms[0].lineId {
      var rest := InsertByLine(m, ms[1..]);
      InsertKeepsSorted(m, ms[1..]);
      InsertPermutes(m, ms[1..]);
      forall k | 0 <= k < |rest|
        ensures ms[0].lineId < rest[k].lineId
      {
        assert rest[k] in multiset(rest);
        assert rest[k] == m || rest[k] in ms[1..];
      }
    }
  }

  lemma {:induction false} SortByLineSorts(ms: seq<Mapping>)
    requires DistinctLines(ms)
    ensures SortedByLine(SortByLine(ms))
  {
    if |ms| > 0 {
      var rest := SortByLine(ms[1..]);
      SortByLineSorts(ms[1..]);
      SortPermutes(ms[1..]);
      SameMembersOf(rest, ms[1..]);
      forall i | 0 <= i < |rest|
        ensures rest[i].lineId != ms[0].lineId
      {
        assert rest[i] in ms[1..];
      }
      InsertKeepsSorted(ms[0], rest);
    }
  }

  lemma SortedHead(a: seq<Mapping>, m: Mapping)
    requires SortedByLine(a) && |a| > 0 && m in a
    ensures a[0].lineId <= m.lineId && (a[0].lineId == m.lineId ==> m == a[0])
    ensures m in a[1..] <==> m != a[0]
  {
  }

  /** Two sorted lists with the same members are the same list. */
  lemma {:induction false} SortedUnique(a: seq<Mapping>, b: seq<Mapping>)
    requires SortedByLine(a) && SortedByLine(b) && forall m :: m in a <==> m in b
    ensures a == b
  {
    assert |a| > 0 ==> a[0] in b;
    assert |b| > 0 ==> b[0] in a;
    if |a| > 0 {
      SortedHead(b, a[0]);
      SortedHead(a, b[0]);
      assert a[0] == b[0];
      forall m
        ensures m in a[1..] <==> m in b[1..]
      {
        if m in a { SortedHead(a, m); SortedHead(b, m); }
      }
      SortedUnique(a[1..], b[1..]);
    }
  }

  // ---------------------------------------------------------------------------
  // The two payloads
  // ---------------------------------------------------------------------------

  function TrimmedCode(code: Option<string>): Option<string>
  {
    match code
    case None => None
    case Some(text) => Some(Trim(text))
  }

  /** A mapping as both payloads see it: its account code without surrounding space. */
  function Normalize(m: Mapping): (r: Mapping)
    ensures r.lineId == m.lineId
  {
    Mapping(m.lineId, m.customerId, m.supplierId, TrimmedCode(m.accountCode))
  }

  function NormalizeAll(ms: seq<Mapping>): (r: seq<Mapping>)
    ensures |r| == |ms|
  {
    if |ms| == 0 then [] else [Normalize(ms[0])] + NormalizeAll(ms[1..])
  }

  lemma {:induction false} NormalizeAllAt(ms: seq<Mapping>, i: nat)
    requires i < |ms|
    ensures NormalizeAll(ms)[i] == Normalize(ms[i])
  {
    if i > 0 { NormalizeAllAt(ms[1..], i - 1); }
  }

  function OrNull(o: Option<Json>): Json
  {
    match o
    case None => Null
    case Some(j) => j
  }

  const HASHED_KEYS := ["lineId", "customerId", "supplierId", "accountCode"]
  const DATABASE_KEYS := ["line_id", "customer_id", "supplier_id", "account_code"]

  function MappingValues(m: Mapping): (v: seq<Option<Json>>)
    ensures |v| == 4 && ValidValues(v)
  {
    var n := Normalize(m);
    [Some(Int(n.lineId)), Some(OrNull(Map(n.customerId, IntValue))),
     Some(OrNull(Map(n.supplierId, IntValue))), Some(OrNull(Map(n.accountCode, StrValue)))]
  }

  /** A row has the mapping's line, its customer, its supplier and its account code without
      surrounding space under the four keys, null standing for what is missing, and no
      more. */
  predicate Carries(row: Json, m: Mapping, line: string, customer: string, supplier: string, account: string)
  {
    && row.Obj?
    && Lookup(row.fields, line) == Some(Int(m.lineId))
    && Lookup(row.fields, customer) == Some(if m.customerId.Some? then Int(m.customerId.value) else Null)
    && Lookup(row.fields, supplier) == Some(if m.supplierId.Some? then Int(m.supplierId.value) else Null)
    && Lookup(row.fields, account) == Some(if m.accountCode.Some? then Str(Trim(m.accountCode.value)) else Null)
    && |row.fields| == 4
  }

  function HashedMapping(m: Mapping): Json { Obj(Members(HASHED_KEYS, MappingValues(m))) }

  function DatabaseMapping(m: Mapping): Json { Obj(Members(DATABASE_KEYS, MappingValues(m))) }

  function HashedList(ms: seq<Mapping>): Json
  {
    Arr(seq(|ms|, i requires 0 <= i < |ms| => HashedMapping(ms[i])))
  }

  function DatabaseList(ms: seq<Mapping>): Json
  {
    Arr(seq(|ms|, i requires 0 <= i < |ms| => DatabaseMapping(ms[i])))
  }

  const PAYLOAD_KEYS := ["packageId", "fiscalPeriodId", "mappings"]

  function PayloadValues(r: Request): seq<Option<Json>>
  {
    [Some(Int(r.packageId)), Some(Int(r.fiscalPeriodId)), Some(HashedList(SortByLine(r.mappings)))]
  }

  function PayloadJson(r: Request): Json { Obj(Members(PAYLOAD_KEYS, PayloadValues(r))) }

  lemma KeysDistinct()
    ensures Distinct(HASHED_KEYS) && Distinct(DATABASE_KEYS) && Distinct(PAYLOAD_KEYS)
    ensures |HASHED_KEYS| == |DATABASE_KEYS| == 4 && |PAYLOAD_KEYS| == 3
  {
  }

  lemma RowCarries(keys: seq<string>, m: Mapping)
    requires Distinct(keys) && |keys| == 4
    ensures Carries(Obj(Members(keys, MappingValues(m))), m, keys[0], keys[1], keys[2], keys[3])
  {
    var values := MappingValues(m);
    MembersLookup(keys, values, 0);
    MembersLookup(keys, values, 1);
    MembersLookup(keys, values, 2);
    MembersLookup(keys, values, 3);
    AllMembers(keys, values);
  }

  /** The row sent to the database at a position carries exactly the values that were
      hashed at that position, under the database's names: those of the mapping itself. */
  lemma ListsAlign(ms: seq<Mapping>, i: nat)
    requires i < |ms|
    ensures |HashedList(ms).items| == |DatabaseList(ms).items| == |ms|
    ensures Carries(HashedList(ms).items[i], ms[i], "lineId", "customerId", "supplierId", "accountCode")
    ensures Carries(DatabaseList(ms).items[i], ms[i], "line_id", "customer_id", "supplier_id", "account_code")
  {
    KeysDistinct();
    RowCarries(HASHED_KEYS, ms[i]);
    RowCarries(DATABASE_KEYS, ms[i]);
  }

  /** The payload has the package, the fiscal period and the hashed list, and no more. */
  lemma PayloadSays(r: Request)
    ensures var fields := PayloadJson(r).fields;
      && Lookup(fields, "packageId") == Some(Int(r.packageId))
      && Lookup(fields, "fiscalPeriodId") == Some(Int(r.fiscalPeriodId))
      && Lookup(fields, "mappings") == Some(HashedList(SortByLine(r.mappings)))
      && |fields| == 3
  {
    var values := PayloadValues(r);
    KeysDistinct();
    MembersLookup(PAYLOAD_KEYS, values, 0);
    MembersLookup(PAYLOAD_KEYS, values, 1);
    MembersLookup(PAYLOAD_KEYS, values, 2);
    AllMembers(PAYLOAD_KEYS, values);
  }

  /** The rows that are hashed, one mapping after the other. */
  method HashedRows(ms: seq<Mapping>) returns (rows: seq<Json>)
    ensures Arr(rows) == HashedList(ms)
  {
    rows := [];
    for i := 0 to |ms|
      invariant |rows| == i
      invariant forall k :: 0 <= k < i ==> rows[k] == HashedMapping(ms[k])
    {
      var row := HashedMapping(ms[i]);
      rows := rows + [row];
    }
    assert rows == HashedList(ms).items;
  }

  /** The rows that are sent to the database, one mapping after the other. */
  method DatabaseRows(ms: seq<Mapping>) returns (rows: seq<Json>)
    ensures Arr(rows) == DatabaseList(ms)
  {
    rows := [];
    for i := 0 to |ms|
      invariant |rows| == i
      invariant forall k :: 0 <= k < i ==> rows[k] == DatabaseMapping(ms[k])
    {
      var row := DatabaseMapping(ms[i]);
      rows := rows + [row];
    }
    assert rows == DatabaseList(ms).items;
  }

  /** `apply` up to the database call: a clone of the mappings is sorted in place, and
      both lists are built from it. Each row is of one mapping, in the order of the lines,
      under the names that the hash and the database know its fields by. */
  method Apply(r: Request) returns (accepted: bool, payload: Json, database: Json)
    ensures accepted <==> ValidRequest(r)
    ensures accepted ==> payload == PayloadJson(r) && database == DatabaseList(SortByLine(r.mappings))
    ensures accepted ==>
      var sorted := SortByLine(r.mappings);
      && multiset(sorted) == multiset(r.mappings) && SortedByLine(sorted)
      && |database.items| == |sorted|
      && (forall i :: 0 <= i < |sorted| ==>
            Carries(database.items[i], sorted[i], "line_id", "customer_id", "supplier_id", "account_code"))
      && Lookup(payload.fields, "packageId") == Some(Int(r.packageId))
      && Lookup(payload.fields, "fiscalPeriodId") == Some(Int(r.fiscalPeriodId))
      && |payload.fields| == 3
      && (match Lookup(payload.fields, "mappings")
          case Some(Arr(items)) =>
            |items| == |sorted|
            && forall i :: 0 <= i < |sorted| ==>
                 Carries(items[i], sorted[i], "lineId", "customerId", "supplierId", "accountCode")
          case _ => false)
  {
    payload, database := Null, Null;
    accepted := Validate(r);
    if accepted {
      var mappings := SortByLine(r.mappings);
      var hashed := HashedRows(mappings);
      payload := Obj(Members(PAYLOAD_KEYS, [Some(Int(r.packageId)), Some(Int(r.fiscalPeriodId)), Some(Arr(hashed))]));
      var rows := DatabaseRows(mappings);
      database := Arr(rows);
      SortPermutes(r.mappings);
      SortByLineSorts(r.mappings);
      forall i | 0 <= i < |mappings|
        ensures Carries(rows[i], mappings[i], "line_id", "customer_id", "supplier_id", "account_code")
        ensures Carries(hashed[i], mappings[i], "lineId", "customerId", "supplierId", "accountCode")
      {
        ListsAlign(mappings, i);
      }
      PayloadSays(r);
    }
  }

  lemma PayloadJsonValid(r: Request)
    ensures ValidValues(PayloadValues(r)) && Valid(PayloadJson(r))
  {
    KeysDistinct();
    var ms := SortByLine(r.mappings);
    forall i | 0 <= i < |ms| ensures Valid(HashedMapping(ms[i])) { MembersValid(HASHED_KEYS, MappingValues(ms[i])); }
    assert Valid(HashedList(ms));
    MembersValid(PAYLOAD_KEYS, PayloadValues(r));
  }

  lemma SameOrNullInt(a: Option<int>, b: Option<int>)
    requires SameMeaning(OrNull(Map(a, IntValue)), OrNull(Map(b, IntValue)))
    ensures a == b
  {
    if a.Some? && b.Some? { IntTextInjective(a.value, b.value); }
  }

  lemma HashedMappingInjective(a: Mapping, b: Mapping)
    requires SameMeaning(HashedMapping(a), HashedMapping(b))
    ensures Normalize(a) == Normalize(b)
  {
    KeysDistinct();
    var v, w := MappingValues(a), MappingValues(b);
    SameMembers(HASHED_KEYS, v, w);
    assert SameOption(v[0], w[0]) && SameOption(v[1], w[1]) && SameOption(v[2], w[2]) && SameOption(v[3], w[3]);
    SameInt(a.lineId, b.lineId);
    SameOrNullInt(a.customerId, b.customerId);
    SameOrNullInt(a.supplierId, b.supplierId);
  }

  lemma HashedListInjective(a: seq<Mapping>, b: seq<Mapping>)
    requires SameMeaning(HashedList(a), HashedList(b))
    ensures NormalizeAll(a) == NormalizeAll(b)
  {
    var x, y := HashedList(a).items, HashedList(b).items;
    assert SameItems(x, y);
    forall i | 0 <= i < |a|
      ensures Normalize(a[i]) == Normalize(b[i])
    {
      assert SameMeaning(x[i], y[i]);
      HashedMappingInjective(a[i], b[i]);
    }
    forall i | 0 <= i < |a|
      ensures NormalizeAll(a)[i] == NormalizeAll(b)[i]
    {
      NormalizeAllAt(a, i);
      NormalizeAllAt(b, i);
    }
  }

  lemma HashedListOfNormalized(a: seq<Mapping>, b: seq<Mapping>)
    requires NormalizeAll(a) == NormalizeAll(b)
    ensures HashedList(a) == HashedList(b)
  {
    assert |a| == |b|;
    forall i | 0 <= i < |a|
      ensures HashedMapping(a[i]) == HashedMapping(b[i])
    {
      NormalizeAllAt(a, i);
      NormalizeAllAt(b, i);
    }
    assert HashedList(a).items == HashedList(b).items;
  }

  // Normalizing commutes with sorting, because it leaves line ids alone.

  lemma {:induction false} InsertNormalized(m: Mapping, ms: seq<Mapping>)
    ensures NormalizeAll(InsertByLine(m, ms)) == InsertByLine(Normalize(m), NormalizeAll(ms))
  {
    if |ms| > 0 {
      if m.lineId <= ms[0].lineId {
        assert ([m] + ms)[1..] == ms;
      } else {
        InsertNormalized(m, ms[1..]);
        assert ([ms[0]] + InsertByLine(m, ms[1..]))[1..] == InsertByLine(m, ms[1..]);
      }
    } else {
      assert NormalizeAll([m]) == [Normalize(m)] + NormalizeAll([]);
    }
  }

  lemma {:induction false} SortNormalized(ms: seq<Mapping>)
    ensures NormalizeAll(SortByLine(ms)) == SortByLine(NormalizeAll(ms))
  {
    if |ms| > 0 {
      SortNormalized(ms[1..]);
      InsertNormalized(ms[0], SortByLine(ms[1..]));
    }
  }

  lemma NormalizedDistinct(ms: seq<Mapping>)
    requires DistinctLines(ms)
    ensures DistinctLines(NormalizeAll(ms))
  {
    forall i | 0 <= i < |ms| ensures NormalizeAll(ms)[i].lineId == ms[i].lineId { NormalizeAllAt(ms, i); }
  }

  /** The same package, period and mappings, in any order and with any white space around
      the account codes. */
  predicate SameApplication(a: Request, b: Request)
  {
    a.packageId == b.packageId && a.fiscalPeriodId == b.fiscalPeriodId
    && multiset(NormalizeAll(a.mappings)) == multiset(NormalizeAll(b.mappings))
  }

  lemma SortIsPermutationInvariant(a: seq<Mapping>, b: seq<Mapping>)
    requires DistinctLines(a) && DistinctLines(b)
    ensures multiset(a) == multiset(b) <==> SortByLine(a) == SortByLine(b)
  {
    SortPermutes(a);
    SortPermutes(b);
    if multiset(a) == multiset(b) {
      SortByLineSorts(a);
      SortByLineSorts(b);
      SameMembersOf(SortByLine(a), SortByLine(b));
      SortedUnique(SortByLine(a), SortByLine(b));
    }
  }

  lemma SameMappingsSortAlike(a: seq<Mapping>, b: seq<Mapping>)
    requires DistinctLines(a) && DistinctLines(b)
    ensures multiset(NormalizeAll(a)) == multiset(NormalizeAll(b))
        <==> NormalizeAll(SortByLine(a)) == NormalizeAll(SortByLine(b))
  {
    SortNormalized(a);
    SortNormalized(b);
    NormalizedDistinct(a);
    NormalizedDistinct(b);
    SortIsPermutationInvariant(NormalizeAll(a), NormalizeAll(b));
  }

  /** Two accepted requests have the same canonical payload exactly when they name the
      same package and period and the same mappings, whatever their order and the
      white space around their account codes. */
  lemma SamePayloadIffSameApplication(a: Request, b: Request)
    requires ValidRequest(a) && ValidRequest(b)
    ensures Canonicalize(PayloadJson(a)) == Canonicalize(PayloadJson(b)) <==> SameApplication(a, b)
  {
    var x, y := SortByLine(a.mappings), SortByLine(b.mappings);
    KeysDistinct();
    PayloadJsonValid(a);
    PayloadJsonValid(b);
    CanonicalEqualIffSameMeaning(PayloadJson(a), PayloadJson(b));
    SameMappingsSortAlike(a.mappings, b.mappings);
    if SameApplication(a, b) {
      HashedListOfNormalized(x, y);
      assert PayloadValues(a) == PayloadValues(b);
    } else if Canonicalize(PayloadJson(a)) == Canonicalize(PayloadJson(b)) {
      var v, w := PayloadValues(a), PayloadValues(b);
      SameMembers(PAYLOAD_KEYS, v, w);
      assert SameOption(v[0], w[0]) && SameOption(v[1], w[1]) && SameOption(v[2], w[2]);
      SameInt(a.packageId, b.packageId);
      SameInt(a.fiscalPeriodId, b.fiscalPeriodId);
      HashedListInjective(x, y);
    }
  }
}
