/** The canonical form of a JSON payload: keys sorted at every depth, printed
    compactly. The database only ever compares hashes of this form, so two payloads
    must print alike exactly when they mean the same. */
module CanonicalJson {
  import opened Text
  import opened Json
  import Utf8

  type byte = Utf8.byte

  /** Equal up to the order of object keys, at every depth. */
  ghost predicate SameMeaning(a: Json, b: Json)
    decreases a, 1
  {
    match (a, b)
    case (Arr(x), Arr(y)) => SameItems(x, y)
    case (Obj(x), Obj(y)) => SameFields(x, y)
    case _ => a == b
  }

  ghost predicate SameItems(x: seq<Json>, y: seq<Json>)
    decreases x, 0
  {
    |x| == |y| && forall i :: 0 <= i < |x| ==> SameMeaning(x[i], y[i])
  }

  /** Every field of one object has a counterpart in the other, and the other
      object has no further keys. */
  ghost predicate SameFields(x: seq<Field>, y: seq<Field>)
    decreases x, 0
  {
    && (forall i :: 0 <= i < |x| ==> HasCounterpart(x[i], y))
    && (forall k :: 0 <= k < |y| ==> HasKey(x, y[k].key))
  }

  ghost predicate HasCounterpart(f: Field, y: seq<Field>)
    decreases f, 2
  {
    exists k :: 0 <= k < |y| && y[k].key == f.key && SameMeaning(f.value, y[k].value)
  }

  predicate HasKey(fields: seq<Field>, key: string)
  {
    exists i :: 0 <= i < |fields| && fields[i].key == key
  }

  // ---------------------------------------------------------------------------
  // Sorting fields by key
  // ---------------------------------------------------------------------------

  predicate Sorted(fields: seq<Field>)
  {
    forall i, k :: 0 <= i < k < |fields| ==> Less(fields[i].key, fields[k].key)
  }

  function InsertField(f: Field, fields: seq<Field>): (r: seq<Field>)
    ensures multiset(r) == multiset(fields) + multiset{f}
    decreases |fields|
  {
    if |fields| == 0 then [f]
    else if Less(f.key, fields[0].key) then [f] + fields
    else
      assert fields == [fields[0]] + fields[1..];
      [fields[0]] + InsertField(f, fields[1..])
  }

  function SortFields(fields: seq<Field>): (r: seq<Field>)
    ensures multiset(r) == multiset(fields)
    ensures |r| == |fields|
    decreases |fields|
  {
    if |fields| == 0 then []
    else
      assert fields == [fields[0]] + fields[1..];
      var r := InsertField(fields[0], SortFields(fields[1..]));
      assert |multiset(r)| == |r| && |multiset(fields)| == |fields|;
      r
  }

  lemma {:induction false} InsertKeepsSorted(f: Field, fields: seq<Field>)
    requires Sorted(fields)
    requires forall i :: 0 <= i < |fields| ==> fields[i].key != f.key
    ensures Sorted(InsertField(f, fields))
    decreases |fields|
  {
    if |fields| > 0 && !Less(f.key, fields[0].key) {
      var rest := InsertField(f, fields[1..]);
      InsertKeepsSorted(f, fields[1..]);
      LessTotal(f.key, fields[0].key);
      forall k | 0 <= k < |rest|
        ensures Less(fields[0].key, rest[k].key)
      {
        assert rest[k] in multiset(rest);
        assert rest[k] == f || rest[k] in fields[1..];
      }
    } else if |fields| > 0 {
      forall k | 0 <= k < |fields|
        ensures Less(f.key, fields[k].key)
      {
        if k > 0 { LessTransitive(f.key, fields[0].key, fields[k].key); }
      }
    }
  }

  lemma SortFieldsElements(fields: seq<Field>, f: Field)
    ensures f in SortFields(fields) <==> f in fields
  {
    assert f in multiset(SortFields(fields)) <==> f in multiset(fields);
  }

  lemma {:induction false} SortFieldsSorted(fields: seq<Field>)
    requires DistinctKeys(fields)
    ensures Sorted(SortFields(fields))
    decreases |fields|
  {
    if |fields| > 0 {
      var rest := SortFields(fields[1..]);
      SortFieldsSorted(fields[1..]);
      forall i | 0 <= i < |rest|
        ensures rest[i].key != fields[0].key
      {
        SortFieldsElements(fields[1..], rest[i]);
      }
      InsertKeepsSorted(fields[0], rest);
    }
  }

  lemma SortedDistinct(fields: seq<Field>)
    requires Sorted(fields)
    ensures DistinctKeys(fields)
  {
    forall i, k | 0 <= i < k < |fields|
      ensures fields[i].key != fields[k].key
    {
      LessIrreflexive(fields[i].key);
    }
  }

  /** A sorted list is determined by its elements. */
  lemma {:induction false} SortedUnique(a: seq<Field>, b: seq<Field>)
    requires Sorted(a) && Sorted(b)
    requires forall f :: f in a <==> f in b
    ensures a == b
    decreases |a|
  {
    assert |b| > 0 ==> b[0] in b;
    if |a| > 0 {
      assert a[0] in b && |b| > 0 && b[0] in a;
      if a[0].key != b[0].key {
        LessAsymmetric(a[0].key, b[0].key) by {
          assert a[0] != b[0];
          var i :| 0 <= i < |b| && b[i] == a[0];
          var k :| 0 <= k < |a| && a[k] == b[0];
          assert Less(b[0].key, b[i].key) && Less(a[0].key, a[k].key);
        }
        assert false;
      }
      SortedDistinct(a);
      SortedDistinct(b);
      assert a[0] == b[0];
      forall f
        ensures f in a[1..] <==> f in b[1..]
      {
        assert f in a[1..] ==> f in a && f != a[0];
        assert f in b[1..] ==> f in b && f != b[0];
        assert f in a && f != a[0] ==> f in a[1..];
        assert f in b && f != b[0] ==> f in b[1..];
      }
      SortedUnique(a[1..], b[1..]);
      assert a == [a[0]] + a[1..] && b == [b[0]] + b[1..];
    }
  }

  lemma {:induction false} SortFieldsFixed(fields: seq<Field>)
    requires Sorted(fields)
    ensures SortFields(fields) == fields
  {
    SortedDistinct(fields);
    SortFieldsSorted(fields);
    forall f ensures f in SortFields(fields) <==> f in fields { SortFieldsElements(fields, f); }
    SortedUnique(SortFields(fields), fields);
  }

  // ---------------------------------------------------------------------------
  // The canonical form
  // ---------------------------------------------------------------------------

  function SortKeys(j: Json): Json
    decreases j, 1
  {
    match j
    case Arr(items) => Arr(ItemsSorted(items))
    case Obj(fields) => Obj(SortFields(ValuesSorted(fields)))
    case _ => j
  }

  function ItemsSorted(items: seq<Json>): (r: seq<Json>)
    ensures |r| == |items|
    decreases items, 0
  {
    seq(|items|, i requires 0 <= i < |items| => SortKeys(items[i]))
  }

  /** The fields of an object with sorted values, still in the original order. */
  function ValuesSorted(fields: seq<Field>): (r: seq<Field>)
    ensures |r| == |fields|
    ensures forall i :: 0 <= i < |r| ==> r[i].key == fields[i].key
    decreases fields, 0
  {
    seq(|fields|, i requires 0 <= i < |fields| => Field(fields[i].key, SortKeys(fields[i].value)))
  }

  function Canonicalize(j: Json): seq<byte>
  {
    Utf8.Encode(Print(SortKeys(j)))
  }

  predicate DeepSorted(j: Json)
  {
    match j
    case Arr(items) => forall i :: 0 <= i < |items| ==> DeepSorted(items[i])
    case Obj(fields) =>
      Sorted(fields) && forall i :: 0 <= i < |fields| ==> DeepSorted(fields[i].value)
    case _ => true
  }

  /** Where a field of a sorted object comes from. */
  lemma FieldBehind(fields: seq<Field>, n: nat) returns (i: nat)
    requires n < |fields|
    ensures i < |fields|
    ensures SortFields(ValuesSorted(fields))[n] == Field(fields[i].key, SortKeys(fields[i].value))
  {
    var vs := ValuesSorted(fields);
    SortFieldsElements(vs, SortFields(vs)[n]);
    i :| 0 <= i < |vs| && vs[i] == SortFields(vs)[n];
  }

  /** Sorting keeps a value valid and sorts the keys of every object inside it. */
  lemma {:induction false} SortKeysSorts(j: Json)
    requires Valid(j)
    ensures Valid(SortKeys(j)) && DeepSorted(SortKeys(j))
    decreases j, 1
  {
    match j
    case Arr(items) =>
      forall i | 0 <= i < |items|
        ensures Valid(ItemsSorted(items)[i]) && DeepSorted(ItemsSorted(items)[i])
      {
        SortKeysSorts(items[i]);
      }
    case Obj(fields) => SortFieldsSorts(fields);
    case _ =>
  }

  lemma {:induction false} SortFieldsSorts(fields: seq<Field>)
    requires Valid(Obj(fields))
    ensures DistinctKeys(SortFields(ValuesSorted(fields))) && Sorted(SortFields(ValuesSorted(fields)))
    ensures forall n :: 0 <= n < |fields| ==>
              Valid(SortFields(ValuesSorted(fields))[n].value) && DeepSorted(SortFields(ValuesSorted(fields))[n].value)
    decreases fields, 0
  {
    var vs := ValuesSorted(fields);
    SortFieldsSorted(vs);
    SortedDistinct(SortFields(vs));
    forall n | 0 <= n < |fields|
      ensures Valid(SortFields(vs)[n].value) && DeepSorted(SortFields(vs)[n].value)
    {
      var i := FieldBehind(fields, n);
      SortKeysSorts(fields[i].value);
    }
  }

  lemma {:induction false} SortedIsFixed(j: Json)
    requires DeepSorted(j)
    ensures SortKeys(j) == j
    decreases j
  {
    match j
    case Arr(items) =>
      forall i | 0 <= i < |items| ensures ItemsSorted(items)[i] == items[i] { SortedIsFixed(items[i]); }
      assert ItemsSorted(items) == items;
    case Obj(fields) =>
      forall i | 0 <= i < |fields|
        ensures ValuesSorted(fields)[i] == fields[i]
      {
        SortedIsFixed(fields[i].value);
      }
      assert ValuesSorted(fields) == fields;
      SortFieldsFixed(fields);
    case _ =>
  }

  /** Sorting twice is sorting once. */
  lemma SortKeysIdempotent(j: Json)
    requires Valid(j)
    ensures SortKeys(SortKeys(j)) == SortKeys(j)
  {
    SortKeysSorts(j);
    SortedIsFixed(SortKeys(j));
  }

  // ---------------------------------------------------------------------------
  // Same canonical form if and only if same meaning
  // ---------------------------------------------------------------------------

  lemma {:induction false} SameMeaningSortsAlike(a: Json, b: Json)
    requires Valid(a) && Valid(b) && SameMeaning(a, b)
    ensures SortKeys(a) == SortKeys(b)
    decreases a, 1
  {
    match (a, b)
    case (Arr(x), Arr(y)) => SameItemsSortAlike(x, y);
    case (Obj(x), Obj(y)) => SameFieldsSortAlike(x, y);
    case _ =>
  }

  lemma {:induction false} SameItemsSortAlike(x: seq<Json>, y: seq<Json>)
    requires Valid(Arr(x)) && Valid(Arr(y)) && SameItems(x, y)
    ensures ItemsSorted(x) == ItemsSorted(y)
    decreases x, 0
  {
    forall i | 0 <= i < |x|
      ensures ItemsSorted(x)[i] == ItemsSorted(y)[i]
    {
      SameMeaningSortsAlike(x[i], y[i]);
    }
  }

  /** A field and its counterpart become the same field once their values are sorted. */
  lemma {:induction false} CounterpartSortsAlike(f: Field, y: seq<Field>) returns (k: nat)
    requires Valid(f.value) && Valid(Obj(y)) && HasCounterpart(f, y)
    ensures k < |y| && y[k].key == f.key && SortKeys(f.value) == SortKeys(y[k].value)
    decreases f, 0
  {
    k :| 0 <= k < |y| && y[k].key == f.key && SameMeaning(f.value, y[k].value);
    SameMeaningSortsAlike(f.value, y[k].value);
  }

  lemma {:induction false} SameFieldsSortAlike(x: seq<Field>, y: seq<Field>)
    requires Valid(Obj(x)) && Valid(Obj(y)) && SameFields(x, y)
    ensures SortFields(ValuesSorted(x)) == SortFields(ValuesSorted(y))
    decreases x, 0
  {
    var vx, vy := ValuesSorted(x), ValuesSorted(y);
    forall i | 0 <= i < |x|
      ensures vx[i] in vy
    {
      var k := CounterpartSortsAlike(x[i], y);
      assert vx[i] == vy[k];
    }
    forall k | 0 <= k < |y|
      ensures vy[k] in vx
    {
      var i :| 0 <= i < |x| && x[i].key == y[k].key;
      var k' := CounterpartSortsAlike(x[i], y);
      assert k' == k;
      assert vx[i] == vy[k];
    }
    SameElementsSortAlike(vx, vy);
  }

  lemma SameElementsSortAlike(x: seq<Field>, y: seq<Field>)
    requires DistinctKeys(x) && DistinctKeys(y)
    requires forall f :: f in x <==> f in y
    ensures SortFields(x) == SortFields(y)
  {
    SortFieldsSorted(x);
    SortFieldsSorted(y);
    forall f
      ensures f in SortFields(x) <==> f in SortFields(y)
    {
      SortFieldsElements(x, f);
      SortFieldsElements(y, f);
    }
    SortedUnique(SortFields(x), SortFields(y));
  }

  lemma {:induction false} SortedAlikeSameMeaning(a: Json, b: Json)
    requires Valid(a) && Valid(b) && SortKeys(a) == SortKeys(b)
    ensures SameMeaning(a, b)
    decreases a, 1
  {
    match (a, b)
    case (Arr(x), Arr(y)) =>
      forall i | 0 <= i < |x|
        ensures SameMeaning(x[i], y[i])
      {
        assert ItemsSorted(x)[i] == ItemsSorted(y)[i];
        SortedAlikeSameMeaning(x[i], y[i]);
      }
    case (Obj(x), Obj(y)) => SortedAlikeSameFields(x, y);
    case _ =>
  }

  lemma {:induction false} SortedAlikeSameFields(x: seq<Field>, y: seq<Field>)
    requires Valid(Obj(x)) && Valid(Obj(y)) && SortFields(ValuesSorted(x)) == SortFields(ValuesSorted(y))
    ensures SameFields(x, y)
    decreases x, 0
  {
    var vx, vy := ValuesSorted(x), ValuesSorted(y);
    forall i | 0 <= i < |x|
      ensures HasCounterpart(x[i], y)
    {
      var k := SharedElement(vx, vy, i);
      SortedAlikeSameMeaning(x[i].value, y[k].value);
    }
    forall k | 0 <= k < |y|
      ensures HasKey(x, y[k].key)
    {
      var i := SharedElement(vy, vx, k);
      assert x[i].key == y[k].key;
    }
  }

  lemma SharedElement(x: seq<Field>, y: seq<Field>, i: nat) returns (k: nat)
    requires i < |x| && SortFields(x) == SortFields(y)
    ensures k < |y| && y[k] == x[i]
  {
    SortFieldsElements(x, x[i]);
    SortFieldsElements(y, x[i]);
    k :| 0 <= k < |y| && y[k] == x[i];
  }

  /** The contract of the idempotency hash: the canonical bytes of two payloads are
      equal exactly when the payloads are equal up to key order at every depth. */
  lemma CanonicalEqualIffSameMeaning(a: Json, b: Json)
    requires Valid(a) && Valid(b)
    ensures Canonicalize(a) == Canonicalize(b) <==> SameMeaning(a, b)
  {
    SortKeysSorts(a);
    SortKeysSorts(b);
    if Canonicalize(a) == Canonicalize(b) {
      Utf8.EncodeInjective(Print(SortKeys(a)), Print(SortKeys(b)));
      PrintInjective(SortKeys(a), SortKeys(b));
      SortedAlikeSameMeaning(a, b);
    }
    if SameMeaning(a, b) {
      SameMeaningSortsAlike(a, b);
    }
  }

  /** The canonical bytes are UTF-8 JSON text, and reading them gives back a value
      with the meaning of the original. */
  lemma CanonicalReadsBack(j: Json)
    requires Valid(j)
    ensures Utf8.Decode(Canonicalize(j)) == Some(Print(SortKeys(j)))
    ensures Parse(Print(SortKeys(j))) == Some(SortKeys(j))
    ensures SameMeaning(j, SortKeys(j))
  {
    SortKeysSorts(j);
    Utf8.DecodeEncode(Print(SortKeys(j)));
    ParseDocument(SortKeys(j));
    SortKeysIdempotent(j);
    SortedAlikeSameMeaning(j, SortKeys(j));
  }

  // ---------------------------------------------------------------------------
  // The hash
  // ---------------------------------------------------------------------------

  /** SHA-256 stands for any function without collisions. */
  ghost predicate CollisionFree<D(!new)>(hash: seq<byte> -> D)
  {
    forall x, y :: hash(x) == hash(y) ==> x == y
  }

  function PayloadHash<D>(hash: seq<byte> -> D, j: Json): D { hash(Canonicalize(j)) }

  lemma HashEqualIffSameMeaning<D(!new)>(hash: seq<byte> -> D, a: Json, b: Json)
    requires CollisionFree(hash) && Valid(a) && Valid(b)
    ensures PayloadHash(hash, a) == PayloadHash(hash, b) <==> SameMeaning(a, b)
  {
    CanonicalEqualIffSameMeaning(a, b);
  }

  // ---------------------------------------------------------------------------
  // The loop that builds a sorted object
  // ---------------------------------------------------------------------------

  function KeysOf(fields: seq<Field>): (keys: seq<string>)
    ensures |keys| == |fields|
    ensures forall i :: 0 <= i < |keys| ==> keys[i] == fields[i].key
  {
    if |fields| == 0 then [] else [fields[0].key] + KeysOf(fields[1..])
  }

  function InsertKey(key: string, keys: seq<string>): seq<string>
  {
    if |keys| == 0 then [key]
    else if Less(key, keys[0]) then [key] + keys
    else [keys[0]] + InsertKey(key, keys[1..])
  }

  /** `Vec::<&String>::sort`. */
  function SortStrings(keys: seq<string>): seq<string>
  {
    if |keys| == 0 then [] else InsertKey(keys[0], SortStrings(keys[1..]))
  }

  lemma {:induction false} InsertKeyOf(f: Field, fields: seq<Field>)
    ensures KeysOf(InsertField(f, fields)) == InsertKey(f.key, KeysOf(fields))
    decreases |fields|
  {
    if |fields| > 0 && !Less(f.key, fields[0].key) {
      InsertKeyOf(f, fields[1..]);
      var r := [fields[0]] + InsertField(f, fields[1..]);
      assert r[1..] == InsertField(f, fields[1..]);
      assert KeysOf(fields)[1..] == KeysOf(fields[1..]);
    } else if |fields| > 0 {
      assert ([f] + fields)[1..] == fields;
    }
  }

  /** Sorting the keys alone gives the keys of the sorted fields. */
  lemma {:induction false} SortStringsOf(fields: seq<Field>)
    ensures KeysOf(SortFields(fields)) == SortStrings(KeysOf(fields))
    decreases |fields|
  {
    if |fields| > 0 {
      SortStringsOf(fields[1..]);
      InsertKeyOf(fields[0], SortFields(fields[1..]));
      assert KeysOf(fields)[1..] == KeysOf(fields[1..]);
    }
  }

  /** `Map::insert`: replaces the value of a key in its place, or appends it. */
  function MapInsert(fields: seq<Field>, key: string, value: Json): seq<Field>
  {
    if |fields| == 0 then [Field(key, value)]
    else if fields[0].key == key then [Field(key, value)] + fields[1..]
    else [fields[0]] + MapInsert(fields[1..], key, value)
  }

  lemma {:induction false} InsertNewKey(fields: seq<Field>, key: string, value: Json)
    requires forall i :: 0 <= i < |fields| ==> fields[i].key != key
    ensures MapInsert(fields, key, value) == fields + [Field(key, value)]
    decreases |fields|
  {
    if |fields| > 0 {
      InsertNewKey(fields[1..], key, value);
    }
  }

  /** `sort_keys` as the source runs it: an object's keys are collected and sorted,
      and inserted one by one into a new map. */
  method SortKeysLoop(value: Json) returns (sorted: Json)
    requires Valid(value)
    ensures sorted == SortKeys(value)
    decreases value, 1
  {
    match value
    case Obj(fields) =>
      var sortedMap := SortObjectLoop(fields);
      sorted := Obj(sortedMap);
    case Arr(items) =>
      var out: seq<Json> := [];
      for n := 0 to |items|
        invariant out == ItemsSorted(items)[..n]
      {
        var v := SortKeysLoop(items[n]);
        out := out + [v];
        assert ItemsSorted(items)[..n + 1] == ItemsSorted(items)[..n] + [ItemsSorted(items)[n]];
      }
      assert ItemsSorted(items)[..|items|] == ItemsSorted(items);
      sorted := Arr(out);
    case _ =>
      sorted := value;
  }

  method SortObjectLoop(fields: seq<Field>) returns (sortedMap: seq<Field>)
    requires Valid(Obj(fields))
    ensures sortedMap == SortFields(ValuesSorted(fields))
    decreases fields, 0
  {
    var keys := SortStrings(KeysOf(fields));
    ghost var target := SortFields(ValuesSorted(fields));
    SortedKeysOf(fields);
    SortFieldsSorts(fields);
    sortedMap := [];
    for n := 0 to |keys|
      invariant sortedMap == target[..n]
    {
      ghost var i := LookupSortedKey(fields, n);
      var v := SortKeysLoop(Lookup(fields, keys[n]).value);
      AppendNext(target, n);
      sortedMap := MapInsert(sortedMap, keys[n], v);
    }
    assert target[..|keys|] == target;
  }

  lemma SortedKeysOf(fields: seq<Field>)
    ensures SortStrings(KeysOf(fields)) == KeysOf(SortFields(ValuesSorted(fields)))
  {
    assert KeysOf(ValuesSorted(fields)) == KeysOf(fields);
    SortStringsOf(ValuesSorted(fields));
  }

  /** The value found under the n-th sorted key is the one whose sorted form stands
      at position n of the result. */
  lemma LookupSortedKey(fields: seq<Field>, n: nat) returns (i: nat)
    requires DistinctKeys(fields) && n < |fields|
    ensures i < |fields|
    ensures Lookup(fields, SortFields(ValuesSorted(fields))[n].key) == Some(fields[i].value)
    ensures SortFields(ValuesSorted(fields))[n].value == SortKeys(fields[i].value)
  {
    i := FieldBehind(fields, n);
    LookupFound(fields, i);
  }

  lemma AppendNext(target: seq<Field>, n: nat)
    requires DistinctKeys(target) && n < |target|
    ensures MapInsert(target[..n], target[n].key, target[n].value) == target[..n + 1]
  {
    InsertNewKey(target[..n], target[n].key, target[n].value);
  }
}
