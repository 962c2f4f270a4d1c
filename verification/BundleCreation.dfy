/** Assembling a bundle from a dump, the asset files and the version texts, and what
    becomes of it when its schema version is stamped. */
module BundleCreation {
  import opened Text
  import opened PathList
  import opened Checksums
  import opened Manifest
  import opened BundleFiles
  import opened BundleSeal
  import opened SchemaRewrite
  import opened RewriteValidates
  import Utf8

  const BUNDLE_FORMAT_VERSION: nat := 1
  const INITIAL_SCHEMA_VERSION := "0"

  type Payload = Listed<seq<byte>>

  /** The inputs: files by name in three groups, and texts without surrounding space. */
  datatype Contents = Contents(
    dump: seq<byte>,
    attachments: seq<Payload>,
    generatedDocuments: seq<Payload>,
    companyAssets: seq<Payload>,
    applicationVersion: string,
    postgresVersion: string,
    createdAtUnix: nat)

  /** A name that a file in a directory can have. Windows allows no control character in
      it. */
  predicate IsFileName(name: string)
  {
    name != "" && name != "." && name != ".." && '/' !in name && forall i :: 0 <= i < |name| ==> !IsControl(name[i])
  }

  predicate FileNames(group: seq<Payload>)
  {
    forall i :: 0 <= i < |group| ==> IsFileName(group[i].path)
  }

  function InDirectory(directory: string, group: seq<Payload>): (r: seq<Payload>)
    ensures |r| == |group|
  {
    if |group| == 0 then []
    else [Listed(directory + "/" + group[0].path, group[0].value)] + InDirectory(directory, group[1..])
  }

  function FixedPayload(c: Contents): seq<Payload>
  {
    [Listed(DUMP_FILENAME, c.dump),
     Listed(SCHEMA_VERSION_FILENAME, Utf8.Encode(INITIAL_SCHEMA_VERSION + "\n")),
     Listed(APPLICATION_VERSION_FILENAME, Utf8.Encode(c.applicationVersion + "\n")),
     Listed(POSTGRES_VERSION_FILENAME, Utf8.Encode(c.postgresVersion + "\n"))]
  }

  function AllPayload(c: Contents): seq<Payload>
  {
    FixedPayload(c) + (InDirectory(ATTACHMENTS_DIR, c.attachments)
                       + (InDirectory(GENERATED_DOCUMENTS_DIR, c.generatedDocuments)
                          + InDirectory(COMPANY_ASSETS_DIR, c.companyAssets)))
  }

  function EntryOf(env: Environment, x: Payload): Entry { Listed(x.path, Meta(|x.value|, env.sha(x.value))) }

  function EntriesOf(env: Environment, payload: seq<Payload>): (r: seq<Entry>)
    ensures |r| == |payload|
  {
    if |payload| == 0 then [] else [EntryOf(env, payload[0])] + EntriesOf(env, payload[1..])
  }

  function CreatedManifest(env: Environment, c: Contents): Manifest
  {
    Manifest(BUNDLE_FORMAT_VERSION, c.applicationVersion, INITIAL_SCHEMA_VERSION, c.createdAtUnix, DUMP_FILENAME,
             SortByPath(EntriesOf(env, AllPayload(c))))
  }

  /** The staged bundle. The asset directories are made also for empty groups. */
  function Created(env: Environment, c: Contents): Bundle
  {
    Bundle(SealedFiles(env, Table(AllPayload(c), map[]), CreatedManifest(env, c)), ASSET_DIRECTORIES)
  }

  /** The staged bundle with its schema version stamped. */
  function Stamped(env: Environment, c: Contents, version: string): Bundle
  {
    Created(env, c).(files := Rewritten(env, Created(env, c).files, CreatedManifest(env, c), version))
  }

  predicate Fit(group: seq<Payload>) { forall x :: x in group ==> |x.value| <= U64_MAX }

  /** What the inputs of a bundle are: names of files, no name twice in a group, and sizes
      that fit 64 bits. */
  ghost predicate Acceptable(c: Contents)
  {
    && FileNames(c.attachments) && FileNames(c.generatedDocuments) && FileNames(c.companyAssets)
    && DistinctPaths(c.attachments) && DistinctPaths(c.generatedDocuments) && DistinctPaths(c.companyAssets)
    && c.createdAtUnix <= U64_MAX
    && Fit(c.attachments) && Fit(c.generatedDocuments) && Fit(c.companyAssets) && |c.dump| <= U64_MAX
    && |Utf8.Encode(c.applicationVersion + "\n")| <= U64_MAX && |Utf8.Encode(c.postgresVersion + "\n")| <= U64_MAX
  }

  // ---------------------------------------------------------------------------
  // The paths of a bundle
  // ---------------------------------------------------------------------------

  /** The first component of a path. */
  function Head(path: string): string { path[..IndexOf(path, '/')] }

  lemma HeadOf(directory: string, name: string)
    requires '/' !in directory
    ensures Head(directory + "/" + name) == directory
  {
    var path := directory + "/" + name;
    assert path[|directory|] == '/' && forall i :: 0 <= i < |directory| ==> path[i] == directory[i];
    assert IndexOf(path, '/') == |directory|;
  }

  predicate Under(payload: seq<Payload>, head: string)
  {
    forall i :: 0 <= i < |payload| ==> Head(payload[i].path) == head
  }

  lemma {:induction false} InDirectoryAt(directory: string, group: seq<Payload>, i: nat)
    requires i < |group|
    ensures InDirectory(directory, group)[i] == Listed(directory + "/" + group[i].path, group[i].value)
  {
    if i > 0 { InDirectoryAt(directory, group[1..], i - 1); }
  }

  lemma GroupPaths(directory: string, group: seq<Payload>)
    requires '/' !in directory && DistinctPaths(group)
    ensures Under(InDirectory(directory, group), directory) && DistinctPaths(InDirectory(directory, group))
  {
    var r := InDirectory(directory, group);
    forall i | 0 <= i < |group|
      ensures r[i].path == directory + "/" + group[i].path && Head(r[i].path) == directory
      ensures r[i].path[|directory| + 1..] == group[i].path
    {
      InDirectoryAt(directory, group, i);
      HeadOf(directory, group[i].path);
    }
    forall i, k | 0 <= i < k < |group| ensures r[i].path != r[k].path { assert group[i].path != group[k].path; }
  }

  /** No path of one list is a path of the other. */
  ghost predicate Disjoint(a: seq<Payload>, b: seq<Payload>)
  {
    forall i, k :: 0 <= i < |a| && 0 <= k < |b| ==> a[i].path != b[k].path
  }

  lemma DistinctConcat(a: seq<Payload>, b: seq<Payload>)
    requires DistinctPaths(a) && DistinctPaths(b) && Disjoint(a, b)
    ensures DistinctPaths(a + b)
  {
  }

  predicate GoodPath(path: string) { PathAllowed(path) && Writable(path) }

  predicate GoodPaths(payload: seq<Payload>) { forall i :: 0 <= i < |payload| ==> GoodPath(payload[i].path) }

  /** A name at the top of the bundle: no directory, and told apart from the three asset
      directories, the manifest and the checksum file by its first two letters. */
  predicate TopName(name: string)
  {
    '/' !in name && '\n' !in name && |name| > 2 && name[0] in ['d', 's', 'a', 'p'] && name[1] != 't'
    && name[|name| - 1] != '\r'
  }

  lemma TopNameGood(name: string)
    requires TopName(name)
    ensures GoodPath(name) && Head(name) == name
  {
  }

  predicate IsPlain(c: char) { 'a' <= c <= 'z' || c == '-' || c == '.' }

  lemma PlainTop(name: string)
    requires |name| > 2 && (forall i :: 0 <= i < |name| ==> IsPlain(name[i]))
    requires name[0] in ['d', 's', 'a', 'p'] && name[1] != 't'
    ensures TopName(name)
  {
  }

  lemma FixedNames()
    ensures TopName(DUMP_FILENAME) && TopName(SCHEMA_VERSION_FILENAME)
    ensures TopName(APPLICATION_VERSION_FILENAME) && TopName(POSTGRES_VERSION_FILENAME)
  {
    PlainTop(DUMP_FILENAME);
    PlainTop(SCHEMA_VERSION_FILENAME);
    PlainTop(APPLICATION_VERSION_FILENAME);
    PlainTop(POSTGRES_VERSION_FILENAME);
  }

  lemma FixedPaths(c: Contents)
    ensures DistinctPaths(FixedPayload(c))
    ensures forall i :: 0 <= i < 4 ==> TopName(FixedPayload(c)[i].path)
  {
    var f := FixedPayload(c);
    FixedNames();
    assert f[0].path[0] == 'd' && f[1].path[0] == 's' && f[2].path[0] == 'a' && f[3].path[0] == 'p';
  }

  lemma DirectoriesDiffer()
    ensures '/' !in ATTACHMENTS_DIR && '/' !in GENERATED_DOCUMENTS_DIR && '/' !in COMPANY_ASSETS_DIR
    ensures ATTACHMENTS_DIR[0] == 'a' && ATTACHMENTS_DIR[1] == 't'
    ensures GENERATED_DOCUMENTS_DIR[0] == 'g' && COMPANY_ASSETS_DIR[0] == 'c'
  {
  }

  lemma Apart(a: seq<Payload>, b: seq<Payload>, head: string, other: string)
    requires Under(a, head) && Under(b, other) && head != other
    ensures Disjoint(a, b)
  {
  }

  lemma DisjointConcat(a: seq<Payload>, b: seq<Payload>, d: seq<Payload>)
    requires Disjoint(a, b) && Disjoint(a, d)
    ensures Disjoint(a, b + d)
  {
  }

  lemma FixedApart(c: Contents, b: seq<Payload>, head: string)
    requires Under(b, head) && |head| > 1 && (head[0] !in ['d', 's', 'a', 'p'] || head[1] == 't')
    ensures Disjoint(FixedPayload(c), b)
  {
    FixedPaths(c);
    var f := FixedPayload(c);
    forall i, k | 0 <= i < |f| && 0 <= k < |b| ensures f[i].path != b[k].path {
      TopNameGood(f[i].path);
      assert Head(b[k].path) == head;
    }
  }

  lemma PayloadDistinct(c: Contents)
    requires Acceptable(c)
    ensures DistinctPaths(AllPayload(c))
  {
    var x := InDirectory(ATTACHMENTS_DIR, c.attachments);
    var y := InDirectory(GENERATED_DOCUMENTS_DIR, c.generatedDocuments);
    var z := InDirectory(COMPANY_ASSETS_DIR, c.companyAssets);
    DirectoriesDiffer();
    FixedPaths(c);
    GroupPaths(ATTACHMENTS_DIR, c.attachments);
    GroupPaths(GENERATED_DOCUMENTS_DIR, c.generatedDocuments);
    GroupPaths(COMPANY_ASSETS_DIR, c.companyAssets);
    Apart(y, z, GENERATED_DOCUMENTS_DIR, COMPANY_ASSETS_DIR);
    Apart(x, y, ATTACHMENTS_DIR, GENERATED_DOCUMENTS_DIR);
    Apart(x, z, ATTACHMENTS_DIR, COMPANY_ASSETS_DIR);
    DistinctConcat(y, z);
    DisjointConcat(x, y, z);
    DistinctConcat(x, y + z);
    FixedApart(c, x, ATTACHMENTS_DIR);
    FixedApart(c, y, GENERATED_DOCUMENTS_DIR);
    FixedApart(c, z, COMPANY_ASSETS_DIR);
    DisjointConcat(FixedPayload(c), y, z);
    DisjointConcat(FixedPayload(c), x, y + z);
    DistinctConcat(FixedPayload(c), x + (y + z));
  }

  // ---------------------------------------------------------------------------
  // The manifest of a created bundle
  // ---------------------------------------------------------------------------

  lemma FileInDirectoryGood(directory: string, name: string)
    requires '/' !in directory && |directory| > 2 && '\n' !in directory && IsFileName(name)
    requires directory[0] != '/'
    ensures GoodPath(directory + "/" + name)
  {
    var path := directory + "/" + name;
    SplitOnce(directory, '/', name);
    SplitNone(name, '/');
    assert path == directory + ['/'] + name;
    assert forall i :: 0 <= i < |name| ==> name[i] != '\n' && name[i] != '\r';
    assert path[|path| - 1] == name[|name| - 1] && path[0] == directory[0];
  }

  lemma GroupGood(directory: string, group: seq<Payload>)
    requires '/' !in directory && |directory| > 2 && '\n' !in directory && directory[0] != '/' && FileNames(group)
    ensures GoodPaths(InDirectory(directory, group))
  {
    forall i | 0 <= i < |group| ensures GoodPath(InDirectory(directory, group)[i].path) {
      InDirectoryAt(directory, group, i);
      FileInDirectoryGood(directory, group[i].path);
    }
  }

  lemma GoodConcat(a: seq<Payload>, b: seq<Payload>)
    requires GoodPaths(a) && GoodPaths(b)
    ensures GoodPaths(a + b)
  {
  }

  lemma DirectoryNames()
    ensures |ATTACHMENTS_DIR| > 2 && |GENERATED_DOCUMENTS_DIR| > 2 && |COMPANY_ASSETS_DIR| > 2
    ensures '\n' !in ATTACHMENTS_DIR && '\n' !in GENERATED_DOCUMENTS_DIR && '\n' !in COMPANY_ASSETS_DIR
  {
  }

  lemma PayloadGood(c: Contents)
    requires Acceptable(c)
    ensures GoodPaths(AllPayload(c))
  {
    DirectoriesDiffer();
    DirectoryNames();
    FixedPaths(c);
    forall i | 0 <= i < 4 ensures GoodPath(FixedPayload(c)[i].path) { TopNameGood(FixedPayload(c)[i].path); }
    GroupGood(ATTACHMENTS_DIR, c.attachments);
    GroupGood(GENERATED_DOCUMENTS_DIR, c.generatedDocuments);
    GroupGood(COMPANY_ASSETS_DIR, c.companyAssets);
    GoodConcat(InDirectory(GENERATED_DOCUMENTS_DIR, c.generatedDocuments), InDirectory(COMPANY_ASSETS_DIR, c.companyAssets));
    GoodConcat(InDirectory(ATTACHMENTS_DIR, c.attachments),
               InDirectory(GENERATED_DOCUMENTS_DIR, c.generatedDocuments) + InDirectory(COMPANY_ASSETS_DIR, c.companyAssets));
    GoodConcat(FixedPayload(c), AllPayload(c)[4..]);
    assert AllPayload(c) == FixedPayload(c) + AllPayload(c)[4..];
  }

  lemma {:induction false} EntriesAt(env: Environment, payload: seq<Payload>, i: nat)
    requires i < |payload|
    ensures EntriesOf(env, payload)[i] == EntryOf(env, payload[i])
  {
    if i > 0 { EntriesAt(env, payload[1..], i - 1); }
  }

  /** An entry of the created manifest stands for one file of the payload. */
  lemma CreatedEntry(env: Environment, c: Contents, e: Entry) returns (i: nat)
    requires e in CreatedManifest(env, c).files
    ensures i < |AllPayload(c)| && e == EntryOf(env, AllPayload(c)[i])
  {
    var payload := AllPayload(c);
    SortElements(EntriesOf(env, payload), e);
    i :| 0 <= i < |payload| && EntriesOf(env, payload)[i] == e;
    EntriesAt(env, payload, i);
  }

  lemma GroupFits(directory: string, group: seq<Payload>)
    requires Fit(group)
    ensures Fit(InDirectory(directory, group))
  {
    var r := InDirectory(directory, group);
    forall x | x in r
      ensures |x.value| <= U64_MAX
    {
      var i :| 0 <= i < |r| && r[i] == x;
      InDirectoryAt(directory, group, i);
      assert group[i] in group;
    }
  }

  lemma PayloadFits(c: Contents)
    requires Acceptable(c)
    ensures Fit(AllPayload(c))
  {
    GroupFits(ATTACHMENTS_DIR, c.attachments);
    GroupFits(GENERATED_DOCUMENTS_DIR, c.generatedDocuments);
    GroupFits(COMPANY_ASSETS_DIR, c.companyAssets);
    var text := INITIAL_SCHEMA_VERSION + "\n";
    assert |Utf8.Encode(text[1..])| <= 4 && |Utf8.Encode(text)| <= 8;
  }

  lemma CreatedDescribes(env: Environment, c: Contents)
    requires HexDigests(env) && Acceptable(c)
    ensures InRange(CreatedManifest(env, c)) && Carried(CreatedManifest(env, c).files)
    ensures Matches(env, Table(AllPayload(c), map[]), CreatedManifest(env, c))
  {
    var m, payload := CreatedManifest(env, c), AllPayload(c);
    PayloadGood(c);
    PayloadDistinct(c);
    PayloadFits(c);
    forall k | 0 <= k < |m.files|
      ensures m.files[k].value.size <= U64_MAX && IsDigest(m.files[k].value.sha256) && GoodPath(m.files[k].path)
      ensures Records(env, Table(payload, map[]), m.files[k])
    {
      var i := CreatedEntry(env, c, m.files[k]);
      assert IsDigest(env.sha(payload[i].value));
      TableOf(payload, payload[i]);
    }
  }

  lemma {:induction false} GroupHasSlash(directory: string, group: seq<Payload>, i: nat)
    requires i < |group|
    ensures '/' in InDirectory(directory, group)[i].path
  {
    InDirectoryAt(directory, group, i);
    assert (directory + "/" + group[i].path)[|directory|] == '/';
  }

  lemma AssetsHaveSlash(c: Contents, i: nat)
    requires i < |AllPayload(c)|
    ensures i < 4 || '/' in AllPayload(c)[i].path
  {
    if i < 4 { return; }
    var x := InDirectory(ATTACHMENTS_DIR, c.attachments);
    var y := InDirectory(GENERATED_DOCUMENTS_DIR, c.generatedDocuments);
    var z := InDirectory(COMPANY_ASSETS_DIR, c.companyAssets);
    var k := i - 4;
    assert AllPayload(c)[i] == (x + (y + z))[k];
    if k < |x| {
      GroupHasSlash(ATTACHMENTS_DIR, c.attachments, k);
    } else if k < |x| + |y| {
      GroupHasSlash(GENERATED_DOCUMENTS_DIR, c.generatedDocuments, k - |x|);
    } else {
      GroupHasSlash(COMPANY_ASSETS_DIR, c.companyAssets, k - |x| - |y|);
    }
  }

  /** A manifest entry at the top of the bundle is one of the four fixed ones. */
  lemma TopEntry(env: Environment, c: Contents, path: string) returns (i: nat)
    requires Lists(CreatedManifest(env, c).files, path) && '/' !in path
    ensures i < 4 && FixedPayload(c)[i].path == path
  {
    var m := CreatedManifest(env, c);
    var k :| 0 <= k < |m.files| && m.files[k].path == path;
    i := CreatedEntry(env, c, m.files[k]);
    AssetsHaveSlash(c, i);
    assert AllPayload(c)[i] == FixedPayload(c)[i];
  }

  lemma CreatedPaths(env: Environment, c: Contents)
    requires Acceptable(c)
    ensures ListsPayload(CreatedManifest(env, c)) && ListsRequired(CreatedManifest(env, c).files)
  {
    var payload := AllPayload(c);
    var entries := EntriesOf(env, payload);
    PayloadDistinct(c);
    forall i | 0 <= i < |payload| ensures entries[i].path == payload[i].path { EntriesAt(env, payload, i); }
    SortSorts(entries);
    SortedDistinct(SortByPath(entries));
    forall i | 0 <= i < 4
      ensures Lists(SortByPath(entries), FixedPayload(c)[i].path)
    {
      assert payload[i] == FixedPayload(c)[i];
      SortLists(entries, payload[i].path);
    }
    assert FixedPayload(c)[0].path == DUMP_FILENAME && FixedPayload(c)[1].path == SCHEMA_VERSION_FILENAME;
    assert FixedPayload(c)[2].path == APPLICATION_VERSION_FILENAME && FixedPayload(c)[3].path == POSTGRES_VERSION_FILENAME;
    MetadataNotListed(env, c);
  }

  lemma MetadataNotListed(env: Environment, c: Contents)
    ensures !Lists(CreatedManifest(env, c).files, MANIFEST_FILENAME)
    ensures !Lists(CreatedManifest(env, c).files, CHECKSUMS_FILENAME)
  {
    FixedPaths(c);
    assert MANIFEST_FILENAME[0] == 'm' && CHECKSUMS_FILENAME[0] == 'c';
    assert '/' !in MANIFEST_FILENAME && '/' !in CHECKSUMS_FILENAME;
    if Lists(CreatedManifest(env, c).files, MANIFEST_FILENAME) {
      var i := TopEntry(env, c, MANIFEST_FILENAME);
    }
    if Lists(CreatedManifest(env, c).files, CHECKSUMS_FILENAME) {
      var i := TopEntry(env, c, CHECKSUMS_FILENAME);
    }
  }

  /** The dump and the version text in the bundle are those that were put in. */
  lemma CreatedFiles(env: Environment, c: Contents)
    requires Acceptable(c)
    ensures var files := Table(AllPayload(c), map[]);
      && DUMP_FILENAME in files && files[DUMP_FILENAME] == c.dump
      && FileText(files, POSTGRES_VERSION_FILENAME) == Some(c.postgresVersion + "\n")
  {
    var payload := AllPayload(c);
    PayloadDistinct(c);
    assert payload[0] == FixedPayload(c)[0] && payload[3] == FixedPayload(c)[3];
    TableOf(payload, payload[0]);
    TableOf(payload, payload[3]);
    Utf8.DecodeEncode(c.postgresVersion + "\n");
  }

  lemma VersionLineTrims(text: string)
    ensures Trim(text + "\n") == Trim(text)
  {
    TrimIgnoresPadding("", text, "\n");
    assert "" + text + "\n" == text + "\n";
  }

  // ---------------------------------------------------------------------------
  // Created and stamped bundles are valid
  // ---------------------------------------------------------------------------

  /** A created bundle passes validation exactly when the dump is not empty and the
      version of PostgreSQL is the required one. */
  lemma CreatedValid(env: Environment, c: Contents)
    requires HexDigests(env) && Acceptable(c)
    ensures ValidBundle(env, Created(env, c), CreatedManifest(env, c))
        <==> |c.dump| > 0 && env.pgMajor(Trim(c.postgresVersion)) == Some(REQUIRED_PG_MAJOR_VERSION)
  {
    var files, m := Table(AllPayload(c), map[]), CreatedManifest(env, c);
    CreatedDescribes(env, c);
    CreatedPaths(env, c);
    CreatedFiles(env, c);
    VersionLineTrims(c.postgresVersion);
    OtherFilesKept(env, files, m, ManifestBytes(m));
    if |c.dump| > 0 && env.pgMajor(Trim(c.postgresVersion)) == Some(REQUIRED_PG_MAJOR_VERSION) {
      WrittenReads(m);
      SealedValid(env, Bundle(files, ASSET_DIRECTORIES), m, ManifestBytes(m));
    }
  }

  /** And then stamping any acceptable schema version gives a valid bundle again, so the
      validations before and after publishing can only fail on a fault of the disk. */
  lemma StampedValid(env: Environment, c: Contents, version: string)
    requires HexDigests(env) && Acceptable(c) && |SchemaBytes(version)| <= U64_MAX
    requires !AllWhiteSpace(version) && forall i :: 0 <= i < |version| ==> !IsControl(version[i])
    requires |c.dump| > 0 && env.pgMajor(Trim(c.postgresVersion)) == Some(REQUIRED_PG_MAJOR_VERSION)
    ensures var m := CreatedManifest(env, c);
      && Refusal(Created(env, c).files, version).None?
      && ValidBundle(env, Stamped(env, c, version), NewManifest(env, m, version))
      && NewManifest(env, m, version).schemaVersion == Trim(version)
  {
    var m := CreatedManifest(env, c);
    CreatedValid(env, c);
    CreatedPaths(env, c);
    CreatedDescribes(env, c);
    assert NoFinalReturn(m) by {
      forall i | 0 <= i < |m.files| ensures Writable(m.files[i].path) {}
    }
    RewriteOfValid(env, Created(env, c), m, version);
  }
}
