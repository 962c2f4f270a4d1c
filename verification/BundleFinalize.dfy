/** The change of a staged bundle to format 2, which the embedded engine makes: both version
    files and the manifest are rewritten, and the checksum file that goes with them. */
module BundleFinalize {
  import opened Text
  import opened PathList
  import opened Manifest
  import opened BundleFiles
  import opened BundleSeal
  import opened BundleCreation
  import opened Json
  import Checksums
  import RewriteValidates
  import SchemaRewrite
  import Utf8

  const BUNDLE_FORMAT_VERSION_2: nat := 2
  const SOURCE_EMBEDDED := "EMBEDDED"

  datatype BackupKind = Manual | Daily | PreUpdate | PreRestore

  function KindText(kind: BackupKind): string
  {
    match kind
    case Manual => "MANUAL"
    case Daily => "DAILY"
    case PreUpdate => "PRE_UPDATE"
    case PreRestore => "PRE_RESTORE"
  }

  /** `BackupKind::parse`, which the catalogue reads the kind with. */
  function ParseKind(text: Option<string>): string
  {
    match text
    case Some("MANUAL") => "MANUAL"
    case Some("DAILY") => "DAILY"
    case Some("PRE_UPDATE") => "PRE_UPDATE"
    case Some("PRE_RESTORE") => "PRE_RESTORE"
    case _ => "UNKNOWN"
  }

  /** Every kind is known by its own text when it is read, and any other text is unknown. */
  lemma KindsAreKnown(kind: BackupKind, other: BackupKind, text: Option<string>)
    ensures ParseKind(text) == "UNKNOWN" <==>
            text !in [Some(KindText(Manual)), Some(KindText(Daily)), Some(KindText(PreUpdate)), Some(KindText(PreRestore))]
    ensures ParseKind(Some(KindText(kind))) == KindText(kind) && KindText(kind) != "UNKNOWN"
    ensures KindText(kind) == KindText(other) <==> kind == other
  {
    assert |"MANUAL"| == 6 && |"DAILY"| == 5 && |"PRE_UPDATE"| == 10 && |"PRE_RESTORE"| == 11 && |"UNKNOWN"| == 7;
  }

  datatype Metadata = Metadata(schemaVersion: string, applicationVersion: string, kind: BackupKind)

  /** Not empty and without control characters, after trimming. */
  predicate TextAccepted(text: string)
  {
    Trim(text) != "" && forall i :: 0 <= i < |Trim(text)| ==> !IsControl(Trim(text)[i])
  }

  // ---------------------------------------------------------------------------
  // The new manifest
  // ---------------------------------------------------------------------------

  /** `serde_json`'s map sorts the keys of the objects. */
  function SortedEntryFields(e: Entry): seq<Field>
  {
    [Field("path", Str(e.path)), Field("sha256", Str(e.value.sha256)), Field("size_bytes", Int(e.value.size))]
  }

  function SortedEntriesJson(files: seq<Entry>): (r: seq<Json>)
    ensures |r| == |files|
  {
    if |files| == 0 then [] else [Obj(SortedEntryFields(files[0]))] + SortedEntriesJson(files[1..])
  }

  function FinalFields(n: Manifest, kind: BackupKind): seq<Field>
  {
    [Field("application_version", Str(n.applicationVersion)),
     Field("backup_kind", Str(KindText(kind))),
     Field("bundle_format_version", Int(n.formatVersion)),
     Field("created_at_unix", Int(n.createdAtUnix)),
     Field("database_dump_filename", Str(n.dumpFilename)),
     Field("dump_includes_privileges", Bool(true)),
     Field("files", Arr(SortedEntriesJson(n.files))),
     Field("schema_version", Str(n.schemaVersion)),
     Field("source", Str(SOURCE_EMBEDDED))]
  }

  function FinalBytes(n: Manifest, kind: BackupKind): seq<byte> { Utf8.Encode(Print(Obj(FinalFields(n, kind)))) }

  function VersionBytes(version: string): seq<byte> { Utf8.Encode(Trim(version) + "\n") }

  function MetaOf(env: Environment, bytes: seq<byte>): Meta { Meta(|bytes|, env.sha(bytes)) }

  function FinalEntry(e: Entry, schema: Meta, application: Meta): Entry
  {
    if e.path == SCHEMA_VERSION_FILENAME then Listed(e.path, schema)
    else if e.path == APPLICATION_VERSION_FILENAME then Listed(e.path, application)
    else e
  }

  function FinalEntries(entries: seq<Entry>, schema: Meta, application: Meta): (r: seq<Entry>)
    ensures |r| == |entries|
  {
    if |entries| == 0 then []
    else [FinalEntry(entries[0], schema, application)] + FinalEntries(entries[1..], schema, application)
  }

  function NewEntries(env: Environment, m: Manifest, meta: Metadata): (r: seq<Entry>)
    ensures |r| == |m.files|
  {
    FinalEntries(m.files, MetaOf(env, VersionBytes(meta.schemaVersion)), MetaOf(env, VersionBytes(meta.applicationVersion)))
  }

  function FinalManifest(env: Environment, m: Manifest, meta: Metadata): Manifest
  {
    m.(formatVersion := BUNDLE_FORMAT_VERSION_2, schemaVersion := Trim(meta.schemaVersion),
       applicationVersion := Trim(meta.applicationVersion), files := SortByPath(NewEntries(env, m, meta)))
  }

  /** The loop over the entries: refuses a path that occurs twice, and rewrites and counts the
      entries of the two version files. */
  method FinalizeEntries(entries: seq<Entry>, schema: Meta, application: Meta) returns (r: Option<seq<Entry>>)
    ensures r.Some? <==>
            DistinctPaths(entries) && Lists(entries, "schema-version.txt") && Lists(entries, "application-version.txt")
    ensures r.Some? ==> r.value == FinalEntries(entries, schema, application)
  {
    NamesApart();
    var seen: set<string> := {};
    var updated: seq<Entry> := [];
    var schemaEntries, applicationEntries := 0, 0;
    for n := 0 to |entries|
      invariant updated == FinalEntries(entries[..n], schema, application)
      invariant DistinctPaths(entries[..n])
      invariant forall p :: p in seen <==> Lists(entries[..n], p)
      invariant schemaEntries == if SCHEMA_VERSION_FILENAME in seen then 1 else 0
      invariant applicationEntries == if APPLICATION_VERSION_FILENAME in seen then 1 else 0
    {
      var e := entries[n];
      if e.path in seen {
        ghost var i :| 0 <= i < n && entries[..n][i].path == e.path;
        assert entries[i].path == entries[n].path;
        return None;
      }
      NextEntry(entries, n, schema, application);
      seen := seen + {e.path};
      updated := updated + [FinalEntry(e, schema, application)];
      if e.path == SCHEMA_VERSION_FILENAME {
        schemaEntries := schemaEntries + 1;
      } else if e.path == APPLICATION_VERSION_FILENAME {
        applicationEntries := applicationEntries + 1;
      }
    }
    assert entries[..|entries|] == entries;
    r := if schemaEntries != 1 || applicationEntries != 1 then None else Some(updated);
  }

  lemma NamesApart()
    ensures SCHEMA_VERSION_FILENAME != APPLICATION_VERSION_FILENAME
  {
    assert SCHEMA_VERSION_FILENAME[0] == 's' && APPLICATION_VERSION_FILENAME[0] == 'a';
  }

  lemma {:induction false} FinalAppend(entries: seq<Entry>, e: Entry, schema: Meta, application: Meta)
    ensures FinalEntries(entries + [e], schema, application)
         == FinalEntries(entries, schema, application) + [FinalEntry(e, schema, application)]
  {
    if |entries| > 0 {
      FinalAppend(entries[1..], e, schema, application);
      assert (entries + [e])[1..] == entries[1..] + [e];
    }
  }

  lemma NextEntry(entries: seq<Entry>, n: nat, schema: Meta, application: Meta)
    requires n < |entries| && DistinctPaths(entries[..n]) && !Lists(entries[..n], entries[n].path)
    ensures FinalEntries(entries[..n + 1], schema, application)
         == FinalEntries(entries[..n], schema, application) + [FinalEntry(entries[n], schema, application)]
    ensures DistinctPaths(entries[..n + 1])
    ensures forall p :: Lists(entries[..n + 1], p) <==> Lists(entries[..n], p) || p == entries[n].path
  {
    SchemaRewrite.NextEntry(entries, n, schema);
    assert entries[..n + 1] == entries[..n] + [entries[n]];
    FinalAppend(entries[..n], entries[n], schema, application);
  }

  // ---------------------------------------------------------------------------
  // The finalized bundle
  // ---------------------------------------------------------------------------

  function WithVersions(files: Files, meta: Metadata): Files
  {
    files[SCHEMA_VERSION_FILENAME := VersionBytes(meta.schemaVersion)]
         [APPLICATION_VERSION_FILENAME := VersionBytes(meta.applicationVersion)]
  }

  function Finalized(env: Environment, b: Bundle, m: Manifest, meta: Metadata): Bundle
  {
    var n := FinalManifest(env, m, meta);
    b.(files := Sealed(env, WithVersions(b.files, meta), n, FinalBytes(n, meta.kind)))
  }

  /** `finalize_bundle_metadata` refuses nothing, if no read or write fails. */
  predicate Finalizable(m: Manifest, meta: Metadata)
  {
    && TextAccepted(meta.schemaVersion) && TextAccepted(meta.applicationVersion)
    && DistinctPaths(m.files) && Lists(m.files, SCHEMA_VERSION_FILENAME) && Lists(m.files, APPLICATION_VERSION_FILENAME)
  }

  /** `finalize_bundle_metadata`, if no read or write fails. */
  method FinalizeMetadata(env: Environment, b: Bundle, m: Manifest, meta: Metadata) returns (r: Option<Bundle>)
    ensures r.Some? <==> Finalizable(m, meta)
    ensures r.Some? <==>
            && !AllWhiteSpace(meta.schemaVersion) && !AllWhiteSpace(meta.applicationVersion)
            && (forall i :: 0 <= i < |Trim(meta.schemaVersion)| ==> !IsControl(Trim(meta.schemaVersion)[i]))
            && (forall i :: 0 <= i < |Trim(meta.applicationVersion)| ==> !IsControl(Trim(meta.applicationVersion)[i]))
            && DistinctPaths(m.files) && Lists(m.files, "schema-version.txt") && Lists(m.files, "application-version.txt")
    ensures r.Some? ==> r.value == Finalized(env, b, m, meta)
  {
    TextAcceptedIs(meta.schemaVersion);
    TextAcceptedIs(meta.applicationVersion);
    if !TextAccepted(meta.schemaVersion) || !TextAccepted(meta.applicationVersion) {
      return None;
    }
    var files := WithVersions(b.files, meta);
    var schema, application := MetaOf(env, VersionBytes(meta.schemaVersion)), MetaOf(env, VersionBytes(meta.applicationVersion));
    var entries := FinalizeEntries(m.files, schema, application);
    if entries.None? {
      return None;
    }
    var n := m.(formatVersion := BUNDLE_FORMAT_VERSION_2, schemaVersion := Trim(meta.schemaVersion),
                applicationVersion := Trim(meta.applicationVersion), files := SortByPath(entries.value));
    assert n == FinalManifest(env, m, meta);
    r := Some(b.(files := Sealed(env, files, n, FinalBytes(n, meta.kind))));
  }

  /** What the catalogue reads as the kind of a bundle. */
  function ReadKind(files: Files): Option<string>
  {
    match FileText(files, MANIFEST_FILENAME)
    case None => None
    case Some(text) =>
      match Parse(text)
      case Some(Obj(fields)) => ReadText(StructField(fields, "backup_kind"))
      case _ => None
  }

  // ---------------------------------------------------------------------------
  // The new manifest is read back
  // ---------------------------------------------------------------------------

  lemma {:induction false} SortedEntriesRead(files: seq<Entry>)
    requires forall i :: 0 <= i < |files| ==> files[i].value.size <= U64_MAX
    ensures ReadEntries(SortedEntriesJson(files)) == Some(files)
    ensures forall i :: 0 <= i < |files| ==> Valid(SortedEntriesJson(files)[i])
  {
    if |files| > 0 {
      SortedEntryRead(files[0]);
      SortedEntriesRead(files[1..]);
      var r := SortedEntriesJson(files);
      assert r[0] == Obj(SortedEntryFields(files[0])) && r[1..] == SortedEntriesJson(files[1..]);
      assert files == [files[0]] + files[1..];
      forall i | 0 < i < |files| ensures Valid(r[i]) { assert r[i] == r[1..][i - 1]; }
    }
  }

  lemma SortedEntryRead(e: Entry)
    requires e.value.size <= U64_MAX
    ensures ReadEntry(Obj(SortedEntryFields(e))) == Some(e) && Valid(Obj(SortedEntryFields(e)))
  {
    var f := SortedEntryFields(e);
    assert DistinctKeys(f);
    StructFieldFound(f, 0);
    StructFieldFound(f, 1);
    StructFieldFound(f, 2);
    ReadInt(e.value.size, U64_MAX);
  }

  lemma FinalKeysDistinct(n: Manifest, kind: BackupKind)
    ensures DistinctKeys(FinalFields(n, kind))
  {
  }

  /** Besides what the deserializer reads, the manifest says of what kind the backup is, that
      the dump includes the privileges, and that it comes from the embedded engine. */
  lemma FinalSays(n: Manifest, kind: BackupKind)
    ensures Lookup(FinalFields(n, kind), "backup_kind") == Some(Str(KindText(kind)))
    ensures Lookup(FinalFields(n, kind), "dump_includes_privileges") == Some(Bool(true))
    ensures Lookup(FinalFields(n, kind), "source") == Some(Str("EMBEDDED"))
    ensures |FinalFields(n, kind)| == 9
  {
    var f := FinalFields(n, kind);
    FinalKeysDistinct(n, kind);
    LookupFound(f, 1);
    LookupFound(f, 5);
    LookupFound(f, 8);
  }

  /** The members of the manifest stand in the order of their keys, and so do those of an
      entry. */
  lemma FinalKeysSorted(n: Manifest, kind: BackupKind, e: Entry, i: nat)
    ensures i < 8 ==> Less(FinalFields(n, kind)[i].key, FinalFields(n, kind)[i + 1].key)
    ensures i < 2 ==> Less(SortedEntryFields(e)[i].key, SortedEntryFields(e)[i + 1].key)
  {
  }

  /** The deserializer finds its six members among the nine. */
  lemma FinalMembers(n: Manifest, kind: BackupKind)
    ensures var f := FinalFields(n, kind);
      && ReadManifest(Obj(f))
         == Assemble(ReadNat(Some(Int(n.formatVersion)), U32_MAX), ReadText(Some(Str(n.applicationVersion))),
                     ReadText(Some(Str(n.schemaVersion))), ReadNat(Some(Int(n.createdAtUnix)), U64_MAX),
                     ReadText(Some(Str(n.dumpFilename))), ReadFiles(Some(Arr(SortedEntriesJson(n.files)))))
      && StructField(f, "backup_kind") == Some(Str(KindText(kind)))
  {
    var f := FinalFields(n, kind);
    FinalKeysDistinct(n, kind);
    StructFieldFound(f, 0);
    StructFieldFound(f, 1);
    StructFieldFound(f, 2);
    StructFieldFound(f, 3);
    StructFieldFound(f, 4);
    StructFieldFound(f, 6);
    StructFieldFound(f, 7);
  }

  lemma FinalRead(n: Manifest, kind: BackupKind)
    requires InRange(n)
    ensures ReadManifest(Obj(FinalFields(n, kind))) == Some(n)
  {
    FinalMembers(n, kind);
    ReadInt(n.formatVersion, U32_MAX);
    ReadInt(n.createdAtUnix, U64_MAX);
    SortedEntriesRead(n.files);
  }

  lemma FinalValid(n: Manifest, kind: BackupKind)
    requires InRange(n)
    ensures Valid(Obj(FinalFields(n, kind)))
  {
    FinalKeysDistinct(n, kind);
    SortedEntriesRead(n.files);
  }

  lemma FinalReads(n: Manifest, kind: BackupKind)
    requires InRange(n)
    ensures ReadsAs(FinalBytes(n, kind), n)
    ensures Utf8.Decode(FinalBytes(n, kind)) == Some(Print(Obj(FinalFields(n, kind))))
    ensures Parse(Print(Obj(FinalFields(n, kind)))) == Some(Obj(FinalFields(n, kind)))
  {
    FinalValid(n, kind);
    Utf8.DecodeEncode(Print(Obj(FinalFields(n, kind))));
    ParseDocument(Obj(FinalFields(n, kind)));
    FinalRead(n, kind);
  }

  // ---------------------------------------------------------------------------
  // The new entries are true
  // ---------------------------------------------------------------------------

  lemma {:induction false} FinalEntriesAt(entries: seq<Entry>, schema: Meta, application: Meta, i: nat)
    requires i < |entries|
    ensures FinalEntries(entries, schema, application)[i] == FinalEntry(entries[i], schema, application)
  {
    if i > 0 { FinalEntriesAt(entries[1..], schema, application, i - 1); }
  }

  lemma NewEntryAt(env: Environment, m: Manifest, meta: Metadata, i: nat)
    requires i < |m.files|
    ensures NewEntries(env, m, meta)[i]
         == FinalEntry(m.files[i], MetaOf(env, VersionBytes(meta.schemaVersion)),
                       MetaOf(env, VersionBytes(meta.applicationVersion)))
  {
    FinalEntriesAt(m.files, MetaOf(env, VersionBytes(meta.schemaVersion)),
                   MetaOf(env, VersionBytes(meta.applicationVersion)), i);
  }

  lemma NewPaths(env: Environment, m: Manifest, meta: Metadata)
    ensures DistinctPaths(m.files) ==> DistinctPaths(NewEntries(env, m, meta))
    ensures forall p :: Lists(NewEntries(env, m, meta), p) <==> Lists(m.files, p)
  {
    var r := NewEntries(env, m, meta);
    forall i | 0 <= i < |m.files| ensures r[i].path == m.files[i].path { NewEntryAt(env, m, meta, i); }
    forall p ensures Lists(r, p) <==> Lists(m.files, p) {
      if i :| 0 <= i < |m.files| && m.files[i].path == p { assert r[i].path == p; }
      if i :| 0 <= i < |r| && r[i].path == p { assert m.files[i].path == p; }
    }
  }

  lemma FinalPaths(env: Environment, m: Manifest, meta: Metadata)
    requires ListsPayload(m)
    ensures ListsPayload(FinalManifest(env, m, meta))
    ensures forall p :: Lists(FinalManifest(env, m, meta).files, p) <==> Lists(m.files, p)
  {
    var r := NewEntries(env, m, meta);
    NewPaths(env, m, meta);
    SortSorts(r);
    SortedDistinct(SortByPath(r));
    forall p ensures Lists(SortByPath(r), p) <==> Lists(m.files, p) { SortLists(r, p); }
  }

  /** An entry that is taken over is true, and one that is new is of the new version file. */
  lemma EntryTrue(env: Environment, files: Files, meta: Metadata, e: Entry)
    requires HexDigests(env) && Records(env, files, e) && Checksums.IsDigest(e.value.sha256)
    ensures var schema, application := VersionBytes(meta.schemaVersion), VersionBytes(meta.applicationVersion);
      var n := FinalEntry(e, MetaOf(env, schema), MetaOf(env, application));
      && n.path == e.path && Records(env, WithVersions(files, meta), n) && Checksums.IsDigest(n.value.sha256)
      && (n.value.size == e.value.size || n.value.size == |schema| || n.value.size == |application|)
  {
    assert Checksums.IsDigest(env.sha(VersionBytes(meta.schemaVersion)));
    assert Checksums.IsDigest(env.sha(VersionBytes(meta.applicationVersion)));
  }

  /** Every entry of the new manifest comes from one of the old, and is true of the files. */
  lemma FinalEntryTrue(env: Environment, files: Files, m: Manifest, meta: Metadata, k: nat)
    requires HexDigests(env) && Carried(m.files) && Matches(env, files, m) && InRange(m)
    requires |VersionBytes(meta.schemaVersion)| <= U64_MAX && |VersionBytes(meta.applicationVersion)| <= U64_MAX
    requires k < |FinalManifest(env, m, meta).files|
    ensures var e := FinalManifest(env, m, meta).files[k];
      && Records(env, WithVersions(files, meta), e) && e.value.size <= U64_MAX
      && Checksums.IsDigest(e.value.sha256) && Checksums.Writable(e.path) && PathAllowed(e.path)
  {
    var r := NewEntries(env, m, meta);
    var e := FinalManifest(env, m, meta).files[k];
    SortElements(r, e);
    var i :| 0 <= i < |r| && r[i] == e;
    NewEntryAt(env, m, meta, i);
    EntryTrue(env, files, meta, m.files[i]);
  }

  /** The kind stands in the manifest that was written. */
  lemma KindIsRead(env: Environment, files: Files, n: Manifest, kind: BackupKind)
    requires InRange(n)
    ensures ReadKind(Sealed(env, files, n, FinalBytes(n, kind))) == Some(KindText(kind))
  {
    FinalReads(n, kind);
    FinalMembers(n, kind);
    NamesDiffer();
  }

  /** Finalizing a valid bundle gives a valid bundle of format 2, with the new versions, and
      the catalogue reads the kind that was written. */
  lemma FinalizedValid(env: Environment, b: Bundle, m: Manifest, meta: Metadata)
    requires HexDigests(env) && ValidBundle(env, b, m) && RewriteValidates.NoFinalReturn(m) && ListsPayload(m)
    requires |VersionBytes(meta.schemaVersion)| <= U64_MAX && |VersionBytes(meta.applicationVersion)| <= U64_MAX
    ensures var n := FinalManifest(env, m, meta);
      && ValidBundle(env, Finalized(env, b, m, meta), n)
      && n.schemaVersion == Trim(meta.schemaVersion) && n.formatVersion == BUNDLE_FORMAT_VERSION_2
      && ReadKind(Finalized(env, b, m, meta).files) == Some(KindText(meta.kind))
  {
    var n := FinalManifest(env, m, meta);
    var files := WithVersions(b.files, meta);
    RewriteValidates.ValidCarried(env, b.files, m);
    FinalPaths(env, m, meta);
    FinalDescribes(env, b.files, m, meta);
    FinalReads(n, meta.kind);
    KindIsRead(env, files, n, meta.kind);
    VersionsElsewhere(env, b.files, meta);
    SealedValid(env, b.(files := files), n, FinalBytes(n, meta.kind));
  }

  lemma FinalDescribes(env: Environment, files: Files, m: Manifest, meta: Metadata)
    requires HexDigests(env) && Carried(m.files) && Matches(env, files, m) && InRange(m)
    requires |VersionBytes(meta.schemaVersion)| <= U64_MAX && |VersionBytes(meta.applicationVersion)| <= U64_MAX
    ensures var n := FinalManifest(env, m, meta);
      InRange(n) && Carried(n.files) && Matches(env, WithVersions(files, meta), n)
  {
    var n := FinalManifest(env, m, meta);
    forall k | 0 <= k < |n.files|
      ensures Records(env, WithVersions(files, meta), n.files[k]) && n.files[k].value.size <= U64_MAX
      ensures Checksums.IsDigest(n.files[k].value.sha256) && Checksums.Writable(n.files[k].path) && PathAllowed(n.files[k].path)
    {
      FinalEntryTrue(env, files, m, meta, k);
    }
  }

  /** The dump and the version of PostgreSQL are not touched. */
  lemma VersionsElsewhere(env: Environment, files: Files, meta: Metadata)
    ensures PostgresMajor(env, WithVersions(files, meta)) == PostgresMajor(env, files)
    ensures DUMP_FILENAME in files ==>
              DUMP_FILENAME in WithVersions(files, meta) && WithVersions(files, meta)[DUMP_FILENAME] == files[DUMP_FILENAME]
  {
  }

  lemma TextAcceptedIs(text: string)
    ensures TextAccepted(text) <==> !AllWhiteSpace(text) && forall i :: 0 <= i < |Trim(text)| ==> !IsControl(Trim(text)[i])
  {
    var _, _ := TrimIs(text);
  }

  /** A created bundle is finalized exactly if both versions are acceptable, and then passes
      validation. */
  lemma CreatedFinalizes(env: Environment, c: Contents, meta: Metadata)
    requires HexDigests(env) && Acceptable(c)
    requires |c.dump| > 0 && env.pgMajor(Trim(c.postgresVersion)) == Some(REQUIRED_PG_MAJOR_VERSION)
    requires |VersionBytes(meta.schemaVersion)| <= U64_MAX && |VersionBytes(meta.applicationVersion)| <= U64_MAX
    ensures var b, m := Created(env, c), CreatedManifest(env, c);
      && (Finalizable(m, meta) <==>
            && !AllWhiteSpace(meta.schemaVersion) && !AllWhiteSpace(meta.applicationVersion)
            && (forall i :: 0 <= i < |Trim(meta.schemaVersion)| ==> !IsControl(Trim(meta.schemaVersion)[i]))
            && (forall i :: 0 <= i < |Trim(meta.applicationVersion)| ==> !IsControl(Trim(meta.applicationVersion)[i])))
      && ValidBundle(env, Finalized(env, b, m, meta), FinalManifest(env, m, meta))
      && ReadKind(Finalized(env, b, m, meta).files) == Some(KindText(meta.kind))
  {
    var m := CreatedManifest(env, c);
    CreatedValid(env, c);
    CreatedPaths(env, c);
    CreatedDescribes(env, c);
    assert RewriteValidates.NoFinalReturn(m) by {
      forall i | 0 <= i < |m.files| ensures Checksums.Writable(m.files[i].path) {}
    }
    FinalizedValid(env, Created(env, c), m, meta);
    TextAcceptedIs(meta.schemaVersion);
    TextAcceptedIs(meta.applicationVersion);
  }
}
