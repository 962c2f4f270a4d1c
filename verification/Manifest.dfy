/** The manifest of a backup bundle and its JSON form, as the derived serializer writes
    it and the derived deserializer reads it. */
module Manifest {
  import opened Text
  import opened Json
  import opened CanonicalJson
  import opened PathList

  const U32_MAX: nat := 0xFFFF_FFFF
  const U64_MAX: nat := 0xFFFF_FFFF_FFFF_FFFF

  datatype Meta = Meta(size: nat, sha256: string)

  type Entry = Listed<Meta>

  datatype Manifest = Manifest(
    formatVersion: nat,
    applicationVersion: string,
    schemaVersion: string,
    createdAtUnix: nat,
    dumpFilename: string,
    files: seq<Entry>)

  /** The widths of the source's integer fields. */
  predicate InRange(m: Manifest)
  {
    m.formatVersion <= U32_MAX && m.createdAtUnix <= U64_MAX
    && forall i :: 0 <= i < |m.files| ==> m.files[i].value.size <= U64_MAX
  }

  // ---------------------------------------------------------------------------
  // Writing
  // ---------------------------------------------------------------------------

  function EntryFields(e: Entry): seq<Field>
  {
    [Field("path", Str(e.path)), Field("size_bytes", Int(e.value.size)), Field("sha256", Str(e.value.sha256))]
  }

  function EntriesJson(files: seq<Entry>): (r: seq<Json>)
    ensures |r| == |files|
  {
    if |files| == 0 then [] else [Obj(EntryFields(files[0]))] + EntriesJson(files[1..])
  }

  function ManifestFields(m: Manifest): seq<Field>
  {
    [Field("bundle_format_version", Int(m.formatVersion)),
     Field("application_version", Str(m.applicationVersion)),
     Field("schema_version", Str(m.schemaVersion)),
     Field("created_at_unix", Int(m.createdAtUnix)),
     Field("database_dump_filename", Str(m.dumpFilename)),
     Field("files", Arr(EntriesJson(m.files)))]
  }

  function ManifestJson(m: Manifest): Json { Obj(ManifestFields(m)) }

  // ---------------------------------------------------------------------------
  // Reading
  // ---------------------------------------------------------------------------

  /** A field of a struct: it must be there, and not twice. Other fields are ignored. */
  function StructField(fields: seq<Field>, key: string): Option<Json>
  {
    if |fields| == 0 then None
    else if fields[0].key == key then (if HasKey(fields[1..], key) then None else Some(fields[0].value))
    else StructField(fields[1..], key)
  }

  function ReadText(j: Option<Json>): Option<string>
  {
    match j
    case Some(Str(text)) => Some(text)
    case _ => None
  }

  /** An unsigned integer of limited width: digits only, no leading zero. */
  function ReadNat(j: Option<Json>, max: nat): (r: Option<nat>)
    ensures r.Some? ==> r.value <= max
  {
    match j
    case Some(Number(token)) =>
      if AllDigits(token) && |token| > 0 && (|token| > 1 ==> token[0] != '0') && NatValue(token) <= max
      then Some(NatValue(token)) else None
    case _ => None
  }

  function ReadEntry(j: Json): (r: Option<Entry>)
    ensures r.Some? ==> r.value.value.size <= U64_MAX
  {
    match j
    case Obj(fields) =>
      var path := ReadText(StructField(fields, "path"));
      var size := ReadNat(StructField(fields, "size_bytes"), U64_MAX);
      var sha256 := ReadText(StructField(fields, "sha256"));
      if path.Some? && size.Some? && sha256.Some?
      then Some(Listed(path.value, Meta(size.value, sha256.value))) else None
    case _ => None
  }

  function ReadEntries(items: seq<Json>): (r: Option<seq<Entry>>)
    ensures r.Some? ==> forall i :: 0 <= i < |r.value| ==> r.value[i].value.size <= U64_MAX
  {
    if |items| == 0 then Some([])
    else
      var first, rest := ReadEntry(items[0]), ReadEntries(items[1..]);
      if first.Some? && rest.Some? then Some([first.value] + rest.value) else None
  }

  function ReadFiles(j: Option<Json>): (r: Option<seq<Entry>>)
    ensures r.Some? ==> forall i :: 0 <= i < |r.value| ==> r.value[i].value.size <= U64_MAX
  {
    match j
    case Some(Arr(items)) => ReadEntries(items)
    case _ => None
  }

  function ReadManifest(j: Json): (r: Option<Manifest>)
    ensures r.Some? ==> InRange(r.value)
  {
    match j
    case Obj(fields) =>
      Assemble(ReadNat(StructField(fields, "bundle_format_version"), U32_MAX),
               ReadText(StructField(fields, "application_version")),
               ReadText(StructField(fields, "schema_version")),
               ReadNat(StructField(fields, "created_at_unix"), U64_MAX),
               ReadText(StructField(fields, "database_dump_filename")),
               ReadFiles(StructField(fields, "files")))
    case _ => None
  }

  function Assemble(format: Option<nat>, application: Option<string>, schema: Option<string>,
                    created: Option<nat>, dump: Option<string>, files: Option<seq<Entry>>): Option<Manifest>
  {
    if format.Some? && application.Some? && schema.Some? && created.Some? && dump.Some? && files.Some?
    then Some(Manifest(format.value, application.value, schema.value, created.value, dump.value, files.value))
    else None
  }

  // ---------------------------------------------------------------------------
  // Reading back what was written
  // ---------------------------------------------------------------------------

  lemma {:induction false} StructFieldFound(fields: seq<Field>, i: nat)
    requires DistinctKeys(fields) && i < |fields|
    ensures StructField(fields, fields[i].key) == Some(fields[i].value)
  {
    if i > 0 {
      assert fields[0].key != fields[i].key;
      StructFieldFound(fields[1..], i - 1);
    } else {
      forall k | 0 <= k < |fields[1..]| ensures fields[1..][k].key != fields[0].key {
        assert fields[1..][k] == fields[k + 1];
      }
    }
  }

  lemma ReadInt(n: nat, max: nat)
    requires n <= max
    ensures ReadNat(Some(Int(n)), max) == Some(n)
  {
    NatTextValue(n);
    NatTextLeading(n);
  }

  /** A number is read exactly from its shortest text, and only up to the maximum. */
  lemma ReadNatExactly(j: Option<Json>, max: nat, n: nat)
    ensures ReadNat(j, max) == Some(n) <==> n <= max && j == Some(Number(NatText(n)))
  {
    if ReadNat(j, max) == Some(n) {
      DigitsAreText(j.value.token);
    } else if n <= max && j == Some(Number(NatText(n))) {
      NatTextValue(n);
      NatTextLeading(n);
    }
  }

  /** A field of a struct is read exactly if its key occurs once. */
  lemma {:induction false} StructFieldOnce(fields: seq<Field>, key: string, i: nat)
    requires i < |fields| && fields[i].key == key
    ensures StructField(fields, key) == Some(fields[i].value)
        <==> forall k :: 0 <= k < |fields| && k != i ==> fields[k].key != key
    ensures StructField(fields, key).None? <==> exists k :: 0 <= k < |fields| && k != i && fields[k].key == key
  {
    var rest := fields[1..];
    if fields[0].key == key {
      if HasKey(rest, key) {
        var k :| 0 <= k < |rest| && rest[k].key == key;
        assert fields[k + 1].key == key && fields[0].key == key;
      } else {
        assert forall k :: 0 < k < |fields| ==> fields[k] == rest[k - 1];
      }
    } else {
      StructFieldOnce(rest, key, i - 1);
      assert forall k :: 0 < k < |fields| ==> fields[k] == rest[k - 1];
      if k :| 0 <= k < |rest| && k != i - 1 && rest[k].key == key { assert fields[k + 1].key == key; }
    }
  }

  /** The widths of the fields of what is read. */
  lemma ReadWidths(j: Json)
    requires ReadManifest(j).Some?
    ensures ReadManifest(j).value.formatVersion < 0x1_0000_0000
    ensures ReadManifest(j).value.createdAtUnix < 0x1_0000_0000_0000_0000
    ensures forall e :: e in ReadManifest(j).value.files ==> e.value.size < 0x1_0000_0000_0000_0000
  {
  }

  /** The members are written in the order of the struct's fields. */
  lemma WrittenOrder(m: Manifest, e: Entry)
    ensures |EntryFields(e)| == 3 && |ManifestFields(m)| == 6
    ensures EntryFields(e)[0].key == "path" && EntryFields(e)[1].key == "size_bytes" && EntryFields(e)[2].key == "sha256"
    ensures ManifestFields(m)[0].key == "bundle_format_version" && ManifestFields(m)[1].key == "application_version"
    ensures ManifestFields(m)[2].key == "schema_version" && ManifestFields(m)[3].key == "created_at_unix"
    ensures ManifestFields(m)[4].key == "database_dump_filename" && ManifestFields(m)[5].key == "files"
  {
  }

  lemma EntryKeysDistinct(e: Entry)
    ensures DistinctKeys(EntryFields(e))
  {
  }

  lemma ManifestKeysDistinct(m: Manifest)
    ensures DistinctKeys(ManifestFields(m))
  {
  }

  lemma ReadEntryBack(e: Entry)
    requires e.value.size <= U64_MAX
    ensures ReadEntry(Obj(EntryFields(e))) == Some(e)
  {
    var f := EntryFields(e);
    EntryKeysDistinct(e);
    StructFieldFound(f, 0);
    StructFieldFound(f, 1);
    StructFieldFound(f, 2);
    ReadInt(e.value.size, U64_MAX);
  }

  lemma {:induction false} ReadEntriesBack(files: seq<Entry>)
    requires forall i :: 0 <= i < |files| ==> files[i].value.size <= U64_MAX
    ensures ReadEntries(EntriesJson(files)) == Some(files)
  {
    if |files| > 0 {
      ReadEntryBack(files[0]);
      ReadEntriesBack(files[1..]);
      assert EntriesJson(files)[0] == Obj(EntryFields(files[0]));
      assert EntriesJson(files)[1..] == EntriesJson(files[1..]);
      assert files == [files[0]] + files[1..];
    }
  }

  /** What the deserializer makes of six fields in the serializer's order. */
  lemma ReadSixFields(f: seq<Field>)
    requires DistinctKeys(f) && |f| == 6
    requires f[0].key == "bundle_format_version" && f[1].key == "application_version" && f[2].key == "schema_version"
    requires f[3].key == "created_at_unix" && f[4].key == "database_dump_filename" && f[5].key == "files"
    ensures ReadManifest(Obj(f))
         == Assemble(ReadNat(Some(f[0].value), U32_MAX), ReadText(Some(f[1].value)), ReadText(Some(f[2].value)),
                     ReadNat(Some(f[3].value), U64_MAX), ReadText(Some(f[4].value)), ReadFiles(Some(f[5].value)))
  {
    StructFieldFound(f, 0);
    StructFieldFound(f, 1);
    StructFieldFound(f, 2);
    StructFieldFound(f, 3);
    StructFieldFound(f, 4);
    StructFieldFound(f, 5);
  }

  lemma AssembleValues(m: Manifest)
    requires InRange(m)
    ensures Assemble(ReadNat(Some(Int(m.formatVersion)), U32_MAX), ReadText(Some(Str(m.applicationVersion))),
                     ReadText(Some(Str(m.schemaVersion))), ReadNat(Some(Int(m.createdAtUnix)), U64_MAX),
                     ReadText(Some(Str(m.dumpFilename))), ReadFiles(Some(Arr(EntriesJson(m.files))))) == Some(m)
  {
    ReadInt(m.formatVersion, U32_MAX);
    ReadInt(m.createdAtUnix, U64_MAX);
    ReadEntriesBack(m.files);
  }

  /** Reading the JSON form of a manifest gives the manifest back. */
  lemma ReadBack(m: Manifest)
    requires InRange(m)
    ensures ReadManifest(ManifestJson(m)) == Some(m)
  {
    ManifestKeysDistinct(m);
    ReadSixFields(ManifestFields(m));
    AssembleValues(m);
  }

  lemma {:induction false} EntriesJsonValid(files: seq<Entry>)
    ensures forall i :: 0 <= i < |files| ==> Valid(EntriesJson(files)[i])
  {
    if |files| > 0 {
      EntryKeysDistinct(files[0]);
      EntriesJsonValid(files[1..]);
      assert Valid(EntriesJson(files)[0]);
      forall i | 0 < i < |files| ensures Valid(EntriesJson(files)[i]) {
        assert EntriesJson(files)[i] == EntriesJson(files[1..])[i - 1];
      }
    }
  }

  lemma ManifestJsonValid(m: Manifest)
    ensures Valid(ManifestJson(m))
  {
    ManifestKeysDistinct(m);
    EntriesJsonValid(m.files);
  }
}
