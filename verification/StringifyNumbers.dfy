/** Turning listed number fields of a database result into text. */
module StringifyNumbers {
  import opened Json
  import opened CanonicalJson

  /** A number field under one of the keys becomes the text of its number. */
  function StringifyField(f: Field, keys: seq<string>): Field
  {
    if f.key in keys && f.value.Number? then Field(f.key, Str(f.value.token)) else f
  }

  function StringifyFields(fields: seq<Field>, keys: seq<string>): (r: seq<Field>)
    ensures |r| == |fields|
  {
    if |fields| == 0 then [] else [StringifyField(fields[0], keys)] + StringifyFields(fields[1..], keys)
  }

  function Stringify(j: Json, keys: seq<string>): Json
  {
    match j
    case Obj(fields) => Obj(StringifyFields(fields, keys))
    case _ => j
  }

  lemma {:induction false} StringifiedAt(fields: seq<Field>, keys: seq<string>, i: nat)
    requires i < |fields|
    ensures StringifyFields(fields, keys)[i] == StringifyField(fields[i], keys)
  {
    if i > 0 { StringifiedAt(fields[1..], keys, i - 1); }
  }

  lemma {:induction false} InsertExisting(fields: seq<Field>, i: nat, value: Json)
    requires DistinctKeys(fields) && i < |fields|
    ensures MapInsert(fields, fields[i].key, value) == fields[i := Field(fields[i].key, value)]
  {
    if i > 0 {
      assert fields[0].key != fields[i].key;
      InsertExisting(fields[1..], i - 1, value);
      assert fields[i := Field(fields[i].key, value)] == [fields[0]] + fields[1..][i - 1 := Field(fields[i].key, value)];
    } else {
      assert fields[0 := Field(fields[0].key, value)] == [Field(fields[0].key, value)] + fields[1..];
    }
  }

  /** One turn of the loop: the field under the key, if it is a number. */
  function StringifyKey(fields: seq<Field>, key: string): seq<Field>
  {
    match Lookup(fields, key)
    case Some(Number(token)) => MapInsert(fields, key, Str(token))
    case _ => fields
  }

  lemma {:induction false} KeyTurn(fields: seq<Field>, key: string)
    requires DistinctKeys(fields)
    ensures StringifyKey(fields, key) == StringifyFields(fields, [key])
  {
    var r := StringifyKey(fields, key);
    if Lookup(fields, key).Some? {
      var i := LookupSome(fields, key);
      if fields[i].value.Number? { InsertExisting(fields, i, Str(fields[i].value.token)); }
      forall k | 0 <= k < |fields|
        ensures r[k] == StringifyFields(fields, [key])[k]
      {
        StringifiedAt(fields, [key], k);
        assert k != i ==> fields[k].key != key;
      }
    } else {
      forall k | 0 <= k < |fields|
        ensures r[k] == StringifyFields(fields, [key])[k]
      {
        StringifiedAt(fields, [key], k);
        if fields[k].key == key { LookupFound(fields, k); }
      }
    }
  }

  /** Turning the fields of some keys, then those of one more, is turning all of them. */
  lemma Join(fields: seq<Field>, keys: seq<string>, key: string)
    ensures StringifyFields(StringifyFields(fields, keys), [key]) == StringifyFields(fields, keys + [key])
  {
  }

  lemma KeysKept(fields: seq<Field>, keys: seq<string>)
    ensures forall i :: 0 <= i < |fields| ==> StringifyFields(fields, keys)[i].key == fields[i].key
    ensures DistinctKeys(fields) ==> DistinctKeys(StringifyFields(fields, keys))
  {
  }

  lemma NoKeys(fields: seq<Field>)
    ensures StringifyFields(fields, []) == fields
  {
  }

  /** A JSON value that is changed in place. */
  class JsonCell {
    var value: Json

    constructor (value: Json)
      ensures this.value == value
    {
      this.value := value;
    }

    /** `stringify_json_numbers`: one key after the other, looking the field up and
        inserting its text in its place. */
    method StringifyJsonNumbers(keys: seq<string>)
      requires Valid(value)
      modifies this
      ensures value == Stringify(old(value), keys)
    {
      if !value.Obj? {
        return;
      }
      ghost var fields := value.fields;
      NoKeys(fields);
      assert keys[..0] == [];
      for n := 0 to |keys|
        invariant value == Obj(StringifyFields(fields, keys[..n]))
      {
        KeysKept(fields, keys[..n]);
        KeyTurn(value.fields, keys[n]);
        Join(fields, keys[..n], keys[n]);
        assert keys[..n + 1] == keys[..n] + [keys[n]];
        var item := Lookup(value.fields, keys[n]);
        if item.Some? && item.value.Number? {
          value := Obj(MapInsert(value.fields, keys[n], Str(item.value.token)));
        }
      }
      assert keys[..|keys|] == keys;
    }
  }

  /** Exactly the listed number fields change, each to the text of its number; keys and
      their order stay. */
  lemma ExactlyListed(fields: seq<Field>, keys: seq<string>, i: nat)
    requires i < |fields|
    ensures var r := StringifyFields(fields, keys);
      |r| == |fields| && r[i].key == fields[i].key
      && (r[i] != fields[i] <==> fields[i].key in keys && fields[i].value.Number?)
      && (r[i] != fields[i] ==> r[i].value == Str(fields[i].value.token))
  {
    StringifiedAt(fields, keys, i);
  }

  /** The order of the key list and repetitions in it do not matter. */
  lemma OnlyKeySetMatters(j: Json, keys: seq<string>, others: seq<string>)
    requires forall k :: k in keys <==> k in others
    ensures Stringify(j, keys) == Stringify(j, others)
  {
    if j.Obj? {
      forall i | 0 <= i < |j.fields|
        ensures StringifyFields(j.fields, keys)[i] == StringifyFields(j.fields, others)[i]
      {
        StringifiedAt(j.fields, keys, i);
        StringifiedAt(j.fields, others, i);
      }
    }
  }

  /** Turning twice is turning once. */
  lemma Idempotent(j: Json, keys: seq<string>)
    ensures Stringify(Stringify(j, keys), keys) == Stringify(j, keys)
  {
    if j.Obj? {
      var once := StringifyFields(j.fields, keys);
      forall i | 0 <= i < |j.fields|
        ensures StringifyFields(once, keys)[i] == once[i]
      {
        StringifiedAt(j.fields, keys, i);
        StringifiedAt(once, keys, i);
      }
    }
  }
}
