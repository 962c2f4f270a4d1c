/** What is in a bundle: whatever is done to it before it is published, it holds all that was
    collected for it, and nothing else. */
module BundleContents {
  import opened Text
  import opened PathList
  import opened Manifest
  import opened BundleFiles
  import opened BundleSeal
  import opened SchemaRewrite
  import opened BundleCreation
  import opened BundleFinalize
  import LogoStore
  import Utf8

  /** The file is there with these bytes, and the manifest lists it. */
  ghost predicate Held(b: Bundle, m: Manifest, path: string, bytes: seq<byte>)
  {
    path in b.files && b.files[path] == bytes && Lists(m.files, path)
  }

  ghost predicate GroupHeld(b: Bundle, m: Manifest, directory: string, group: seq<Payload>)
  {
    forall x :: x in group ==> Held(b, m, directory + "/" + x.path, x.value)
  }

  ghost predicate OfGroup(path: string, directory: string, group: seq<Payload>)
  {
    exists x :: x in group && path == directory + "/" + x.path
  }

  ghost predicate OfContents(c: Contents, path: string)
  {
    || path in ["database.dump", "schema-version.txt", "application-version.txt", "postgres-version.txt"]
    || OfGroup(path, "attachments", c.attachments)
    || OfGroup(path, "generated-documents", c.generatedDocuments)
    || OfGroup(path, "company-assets", c.companyAssets)
  }

  /** The bundle holds the dump, the three version texts and the files of all three groups
      in their directories, each with its own bytes and listed; no other file but the two
      metadata files; and the manifest that is read from it gives the versions and the
      time. */
  ghost predicate Holds(b: Bundle, m: Manifest, c: Contents, format: nat, schema: string, application: string)
  {
    && ReadManifestFile(b.files) == Some(m)
    && m.formatVersion == format && m.schemaVersion == schema && m.applicationVersion == application
    && m.createdAtUnix == c.createdAtUnix
    && Held(b, m, "database.dump", c.dump)
    && Held(b, m, "schema-version.txt", Utf8.Encode(schema + "\n"))
    && Held(b, m, "application-version.txt", Utf8.Encode(application + "\n"))
    && Held(b, m, "postgres-version.txt", Utf8.Encode(c.postgresVersion + "\n"))
    && GroupHeld(b, m, "attachments", c.attachments)
    && GroupHeld(b, m, "generated-documents", c.generatedDocuments)
    && GroupHeld(b, m, "company-assets", c.companyAssets)
    && (forall path :: Lists(m.files, path) ==> OfContents(c, path))
    && (forall path :: path in b.files ==> OfContents(c, path) || path in ["manifest.json", "checksums.sha256"])
    && b.directories == {"attachments", "generated-documents", "company-assets"}
  }

  // ---------------------------------------------------------------------------
  // A created bundle
  // ---------------------------------------------------------------------------

  lemma InGroup(directory: string, group: seq<Payload>, x: Payload)
    requires x in group
    ensures Listed(directory + "/" + x.path, x.value) in InDirectory(directory, group)
  {
    var i :| 0 <= i < |group| && group[i] == x;
    InDirectoryAt(directory, group, i);
  }

  lemma FromGroup(directory: string, group: seq<Payload>, y: Payload)
    requires y in InDirectory(directory, group)
    ensures OfGroup(y.path, directory, group)
  {
    var i :| 0 <= i < |group| && InDirectory(directory, group)[i] == y;
    InDirectoryAt(directory, group, i);
    assert group[i] in group;
  }

  lemma FromPayload(c: Contents, y: Payload)
    requires y in AllPayload(c)
    ensures OfContents(c, y.path)
  {
    if y in InDirectory(ATTACHMENTS_DIR, c.attachments) { FromGroup(ATTACHMENTS_DIR, c.attachments, y); }
    if y in InDirectory(GENERATED_DOCUMENTS_DIR, c.generatedDocuments) {
      FromGroup(GENERATED_DOCUMENTS_DIR, c.generatedDocuments, y);
    }
    if y in InDirectory(COMPANY_ASSETS_DIR, c.companyAssets) { FromGroup(COMPANY_ASSETS_DIR, c.companyAssets, y); }
  }

  lemma PayloadListed(env: Environment, c: Contents, y: Payload)
    requires y in AllPayload(c)
    ensures Lists(CreatedManifest(env, c).files, y.path)
  {
    var payload := AllPayload(c);
    var entries := EntriesOf(env, payload);
    var i :| 0 <= i < |payload| && payload[i] == y;
    EntriesAt(env, payload, i);
    assert entries[i].path == y.path;
    SortLists(entries, y.path);
  }

  lemma SealedKeeps(env: Environment, files: Files, m: Manifest, bytes: seq<byte>, path: string)
    requires path != MANIFEST_FILENAME && path != CHECKSUMS_FILENAME && path in files
    ensures path in Sealed(env, files, m, bytes) && Sealed(env, files, m, bytes)[path] == files[path]
  {
  }

  /** What is in the payload is in the bundle. */
  lemma PayloadHeld(env: Environment, c: Contents, y: Payload)
    requires Acceptable(c) && y in AllPayload(c)
    ensures Held(Created(env, c), CreatedManifest(env, c), y.path, y.value)
  {
    var m := CreatedManifest(env, c);
    PayloadListed(env, c, y);
    PayloadDistinct(c);
    TableOf(AllPayload(c), y);
    MetadataNotListed(env, c);
    SealedKeeps(env, Table(AllPayload(c), map[]), m, ManifestBytes(m), y.path);
  }

  lemma CreatedGroupHeld(env: Environment, c: Contents, directory: string, group: seq<Payload>)
    requires Acceptable(c) && forall y :: y in InDirectory(directory, group) ==> y in AllPayload(c)
    ensures GroupHeld(Created(env, c), CreatedManifest(env, c), directory, group)
  {
    forall x | x in group
      ensures Held(Created(env, c), CreatedManifest(env, c), directory + "/" + x.path, x.value)
    {
      InGroup(directory, group, x);
      PayloadHeld(env, c, Listed(directory + "/" + x.path, x.value));
    }
  }

  lemma FixedHeld(env: Environment, c: Contents, i: nat)
    requires Acceptable(c) && i < 4
    ensures Held(Created(env, c), CreatedManifest(env, c), FixedPayload(c)[i].path, FixedPayload(c)[i].value)
  {
    assert AllPayload(c)[i] == FixedPayload(c)[i];
    PayloadHeld(env, c, FixedPayload(c)[i]);
  }

  lemma CreatedFixedHeld(env: Environment, c: Contents)
    requires Acceptable(c)
    ensures var b, m := Created(env, c), CreatedManifest(env, c);
      && Held(b, m, "database.dump", c.dump)
      && Held(b, m, "schema-version.txt", Utf8.Encode("0\n"))
      && Held(b, m, "application-version.txt", Utf8.Encode(c.applicationVersion + "\n"))
      && Held(b, m, "postgres-version.txt", Utf8.Encode(c.postgresVersion + "\n"))
  {
    FixedHeld(env, c, 0);
    FixedHeld(env, c, 1);
    FixedHeld(env, c, 2);
    FixedHeld(env, c, 3);
    assert INITIAL_SCHEMA_VERSION + "\n" == "0\n";
  }

  lemma CreatedNothingElse(env: Environment, c: Contents, path: string)
    ensures Lists(CreatedManifest(env, c).files, path) ==> OfContents(c, path)
    ensures path in Created(env, c).files ==> OfContents(c, path) || path in ["manifest.json", "checksums.sha256"]
  {
    var m, payload := CreatedManifest(env, c), AllPayload(c);
    if k :| 0 <= k < |m.files| && m.files[k].path == path {
      var i := CreatedEntry(env, c, m.files[k]);
      FromPayload(c, payload[i]);
    }
    if i :| 0 <= i < |payload| && payload[i].path == path {
      FromPayload(c, payload[i]);
    } else {
      TableKeeps(payload, map[], path);
    }
  }

  /** A created bundle holds everything that was collected and nothing else. */
  lemma CreatedHolds(env: Environment, c: Contents)
    requires HexDigests(env) && Acceptable(c)
    ensures Holds(Created(env, c), CreatedManifest(env, c), c, 1, "0", c.applicationVersion)
  {
    var m := CreatedManifest(env, c);
    CreatedDescribes(env, c);
    WrittenReads(m);
    SealedManifest(env, Table(AllPayload(c), map[]), m, ManifestBytes(m));
    CreatedFixedHeld(env, c);
    CreatedGroupHeld(env, c, ATTACHMENTS_DIR, c.attachments);
    CreatedGroupHeld(env, c, GENERATED_DOCUMENTS_DIR, c.generatedDocuments);
    CreatedGroupHeld(env, c, COMPANY_ASSETS_DIR, c.companyAssets);
    forall path
      ensures Lists(m.files, path) ==> OfContents(c, path)
      ensures path in Created(env, c).files ==> OfContents(c, path) || path in ["manifest.json", "checksums.sha256"]
    {
      CreatedNothingElse(env, c, path);
    }
  }

  /** The company's logo is backed up: a file of any type that can be set is among what a
      bundle may hold, and it is in the bundle with its bytes. */
  lemma LogoIsBackedUp(env: Environment, dump: seq<byte>, extension: string, bytes: seq<byte>) returns (c: Contents)
    requires LogoStore.Supported(extension) && |dump| <= U64_MAX && |bytes| <= U64_MAX
    ensures Acceptable(c) && c.dump == dump && c.companyAssets == [Listed(LogoStore.LogoName(extension), bytes)]
    ensures Held(Created(env, c), CreatedManifest(env, c), "company-assets/logo." + extension, bytes)
  {
    LogoNameIsFileName(extension);
    c := OnlyLogo(dump, Listed(LogoStore.LogoName(extension), bytes));
    AssetHeld(env, c, c.companyAssets[0]);
    LogoPath(extension);
  }

  lemma LogoPath(extension: string)
    ensures "company-assets" + "/" + LogoStore.LogoName(extension) == "company-assets/logo." + extension
  {
    assert "company-assets" + "/" + "logo." == "company-assets/logo.";
  }

  lemma OnlyLogo(dump: seq<byte>, logo: Payload) returns (c: Contents)
    requires IsFileName(logo.path) && |dump| <= U64_MAX && |logo.value| <= U64_MAX
    ensures Acceptable(c) && c.dump == dump && c.companyAssets == [logo]
  {
    c := Contents(dump, [], [], [logo], "1", "18", 0);
    ShortTexts();
  }

  lemma AssetHeld(env: Environment, c: Contents, x: Payload)
    requires Acceptable(c) && x in c.companyAssets
    ensures Held(Created(env, c), CreatedManifest(env, c), "company-assets" + "/" + x.path, x.value)
  {
    InGroup(COMPANY_ASSETS_DIR, c.companyAssets, x);
    PayloadHeld(env, c, Listed("company-assets" + "/" + x.path, x.value));
  }

  lemma LogoNameIsFileName(extension: string)
    requires LogoStore.Supported(extension)
    ensures IsFileName(LogoStore.LogoName(extension))
  {
  }

  lemma ShortTexts()
    ensures |Utf8.Encode("1" + "\n")| <= 8 && |Utf8.Encode("18" + "\n")| <= 12
  {
    assert "1\n"[1..] == "\n" && "18\n"[1..] == "8\n" && "8\n"[1..] == "\n" && "\n"[1..] == "";
    assert |Utf8.Encode("\n")| <= 4 && |Utf8.Encode("8\n")| <= 8;
  }

  // ---------------------------------------------------------------------------
  // Stamped and finalized bundles
  // ---------------------------------------------------------------------------

  /** Only the two version files may differ. */
  ghost predicate OnlyVersionsChanged(a: Files, b: Files)
  {
    forall p :: p != SCHEMA_VERSION_FILENAME && p != APPLICATION_VERSION_FILENAME ==>
      (p in b <==> p in a) && (p in b ==> b[p] == a[p])
  }

  /** The manifest `n` replaces `m`: it lists the same paths, which the metadata files are
      not among. */
  ghost predicate Replaces(n: Manifest, m: Manifest)
  {
    && (forall p :: Lists(n.files, p) <==> Lists(m.files, p))
    && !Lists(m.files, MANIFEST_FILENAME) && !Lists(m.files, CHECKSUMS_FILENAME)
  }

  lemma InDirectoryElsewhere(directory: string, name: string)
    ensures directory + "/" + name != SCHEMA_VERSION_FILENAME
    ensures directory + "/" + name != APPLICATION_VERSION_FILENAME
  {
    assert (directory + "/" + name)[|directory|] == '/';
    assert '/' !in SCHEMA_VERSION_FILENAME && '/' !in APPLICATION_VERSION_FILENAME;
  }

  lemma HeldThrough(env: Environment, b: Bundle, m: Manifest, files: Files, n: Manifest, bytes: seq<byte>, path: string)
    requires Lists(m.files, path) && Replaces(n, m) && path in files
    ensures Held(b.(files := Sealed(env, files, n, bytes)), n, path, files[path])
  {
    SealedKeeps(env, files, n, bytes, path);
  }

  lemma GroupHeldThrough(env: Environment, b: Bundle, m: Manifest, files: Files, n: Manifest, bytes: seq<byte>,
                         directory: string, group: seq<Payload>)
    requires GroupHeld(b, m, directory, group) && OnlyVersionsChanged(b.files, files) && Replaces(n, m)
    ensures GroupHeld(b.(files := Sealed(env, files, n, bytes)), n, directory, group)
  {
    forall x | x in group
      ensures Held(b.(files := Sealed(env, files, n, bytes)), n, directory + "/" + x.path, x.value)
    {
      assert Held(b, m, directory + "/" + x.path, x.value);
      InDirectoryElsewhere(directory, x.path);
      HeldThrough(env, b, m, files, n, bytes, directory + "/" + x.path);
    }
  }

  lemma FixedHeldThrough(env: Environment, b: Bundle, m: Manifest, c: Contents, files: Files, n: Manifest, bytes: seq<byte>,
                         schema: string, application: string)
    requires Holds(b, m, c, m.formatVersion, m.schemaVersion, m.applicationVersion)
    requires OnlyVersionsChanged(b.files, files) && Replaces(n, m)
    requires SCHEMA_VERSION_FILENAME in files && files[SCHEMA_VERSION_FILENAME] == Utf8.Encode(schema + "\n")
    requires APPLICATION_VERSION_FILENAME in files && files[APPLICATION_VERSION_FILENAME] == Utf8.Encode(application + "\n")
    ensures var out := b.(files := Sealed(env, files, n, bytes));
      && Held(out, n, "database.dump", c.dump)
      && Held(out, n, "schema-version.txt", Utf8.Encode(schema + "\n"))
      && Held(out, n, "application-version.txt", Utf8.Encode(application + "\n"))
      && Held(out, n, "postgres-version.txt", Utf8.Encode(c.postgresVersion + "\n"))
  {
    FixedNames();
    assert DUMP_FILENAME[0] == 'd' && POSTGRES_VERSION_FILENAME[0] == 'p';
    HeldThrough(env, b, m, files, n, bytes, DUMP_FILENAME);
    HeldThrough(env, b, m, files, n, bytes, SCHEMA_VERSION_FILENAME);
    HeldThrough(env, b, m, files, n, bytes, APPLICATION_VERSION_FILENAME);
    HeldThrough(env, b, m, files, n, bytes, POSTGRES_VERSION_FILENAME);
  }

  /** Rewriting the version files and sealing again keeps all the rest. */
  lemma HoldsThrough(env: Environment, b: Bundle, m: Manifest, c: Contents, files: Files, n: Manifest, bytes: seq<byte>)
    requires Holds(b, m, c, m.formatVersion, m.schemaVersion, m.applicationVersion)
    requires OnlyVersionsChanged(b.files, files) && Replaces(n, m) && ReadsAs(bytes, n) && n.createdAtUnix == m.createdAtUnix
    requires SCHEMA_VERSION_FILENAME in files && files[SCHEMA_VERSION_FILENAME] == Utf8.Encode(n.schemaVersion + "\n")
    requires APPLICATION_VERSION_FILENAME in files
             && files[APPLICATION_VERSION_FILENAME] == Utf8.Encode(n.applicationVersion + "\n")
    ensures Holds(b.(files := Sealed(env, files, n, bytes)), n, c, n.formatVersion, n.schemaVersion, n.applicationVersion)
  {
    SealedManifest(env, files, n, bytes);
    FixedHeldThrough(env, b, m, c, files, n, bytes, n.schemaVersion, n.applicationVersion);
    GroupHeldThrough(env, b, m, files, n, bytes, "attachments", c.attachments);
    GroupHeldThrough(env, b, m, files, n, bytes, "generated-documents", c.generatedDocuments);
    GroupHeldThrough(env, b, m, files, n, bytes, "company-assets", c.companyAssets);
  }

  lemma StampedReplaces(env: Environment, c: Contents, version: string)
    requires HexDigests(env) && Acceptable(c) && |SchemaBytes(version)| <= U64_MAX
    ensures var m := CreatedManifest(env, c);
      var n := NewManifest(env, m, version);
      && Replaces(n, m) && ReadsAs(ManifestBytes(n), n) && n.createdAtUnix == c.createdAtUnix
      && n.formatVersion == 1 && n.schemaVersion == Trim(version) && n.applicationVersion == c.applicationVersion
  {
    var m := CreatedManifest(env, c);
    CreatedPaths(env, c);
    CreatedDescribes(env, c);
    NewManifestPaths(env, m, version);
    NewManifestInRange(env, m, version);
    WrittenReads(NewManifest(env, m, version));
  }

  /** A stamped bundle holds the same, with the new schema version in its file and in the
      manifest. */
  lemma StampedHolds(env: Environment, c: Contents, version: string)
    requires HexDigests(env) && Acceptable(c) && |SchemaBytes(version)| <= U64_MAX
    ensures Holds(Stamped(env, c, version), NewManifest(env, CreatedManifest(env, c), version), c,
                  1, Trim(version), c.applicationVersion)
  {
    var b, m := Created(env, c), CreatedManifest(env, c);
    var n := NewManifest(env, m, version);
    CreatedHolds(env, c);
    StampedReplaces(env, c, version);
    var files := b.files[SCHEMA_VERSION_FILENAME := SchemaBytes(version)];
    StampedFiles(b, m, c, version);
    HoldsThrough(env, b, m, c, files, n, ManifestBytes(n));
    assert Stamped(env, c, version) == b.(files := Sealed(env, files, n, ManifestBytes(n)));
  }

  lemma StampedFiles(b: Bundle, m: Manifest, c: Contents, version: string)
    requires Holds(b, m, c, 1, "0", c.applicationVersion)
    ensures var files := b.files[SCHEMA_VERSION_FILENAME := SchemaBytes(version)];
      && OnlyVersionsChanged(b.files, files)
      && files[SCHEMA_VERSION_FILENAME] == Utf8.Encode(Trim(version) + "\n")
      && APPLICATION_VERSION_FILENAME in files
      && files[APPLICATION_VERSION_FILENAME] == Utf8.Encode(c.applicationVersion + "\n")
  {
    FixedNames();
    assert APPLICATION_VERSION_FILENAME[0] == 'a' && SCHEMA_VERSION_FILENAME[0] == 's';
  }

  lemma FinalReplaces(env: Environment, c: Contents, meta: Metadata)
    requires HexDigests(env) && Acceptable(c)
    requires |VersionBytes(meta.schemaVersion)| <= U64_MAX && |VersionBytes(meta.applicationVersion)| <= U64_MAX
    ensures var m := CreatedManifest(env, c);
      var n := FinalManifest(env, m, meta);
      && Replaces(n, m) && ReadsAs(FinalBytes(n, meta.kind), n) && n.createdAtUnix == c.createdAtUnix
      && n.formatVersion == 2 && n.schemaVersion == Trim(meta.schemaVersion)
      && n.applicationVersion == Trim(meta.applicationVersion)
  {
    var m := CreatedManifest(env, c);
    var files := Table(AllPayload(c), map[]);
    CreatedPaths(env, c);
    CreatedDescribes(env, c);
    FinalPaths(env, m, meta);
    FinalDescribes(env, files, m, meta);
    FinalReads(FinalManifest(env, m, meta), meta.kind);
  }

  /** A finalized bundle is of format 2 and holds the same, with both new versions in their
      files and in the manifest. */
  lemma FinalizedHolds(env: Environment, c: Contents, meta: Metadata)
    requires HexDigests(env) && Acceptable(c)
    requires |VersionBytes(meta.schemaVersion)| <= U64_MAX && |VersionBytes(meta.applicationVersion)| <= U64_MAX
    ensures var m := CreatedManifest(env, c);
      Holds(Finalized(env, Created(env, c), m, meta), FinalManifest(env, m, meta), c,
            2, Trim(meta.schemaVersion), Trim(meta.applicationVersion))
  {
    var b, m := Created(env, c), CreatedManifest(env, c);
    var n := FinalManifest(env, m, meta);
    CreatedHolds(env, c);
    FinalReplaces(env, c, meta);
    var files := WithVersions(b.files, meta);
    FinalFiles(b.files, meta);
    HoldsThrough(env, b, m, c, files, n, FinalBytes(n, meta.kind));
    assert Finalized(env, b, m, meta) == b.(files := Sealed(env, files, n, FinalBytes(n, meta.kind)));
  }

  lemma FinalFiles(b: Files, meta: Metadata)
    ensures var files := WithVersions(b, meta);
      && OnlyVersionsChanged(b, files) && SCHEMA_VERSION_FILENAME in files && APPLICATION_VERSION_FILENAME in files
      && files[SCHEMA_VERSION_FILENAME] == Utf8.Encode(Trim(meta.schemaVersion) + "\n")
      && files[APPLICATION_VERSION_FILENAME] == Utf8.Encode(Trim(meta.applicationVersion) + "\n")
  {
    FixedNames();
    assert APPLICATION_VERSION_FILENAME[0] == 'a' && SCHEMA_VERSION_FILENAME[0] == 's';
  }
}
