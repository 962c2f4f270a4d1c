/** The files of a backup bundle and the validation every consumer runs on them. A
    bundle is the map from the relative paths of its regular files to their bytes, and
    the set of its directories. */
module BundleFiles {
  import opened Text
  import opened PathList
  import opened Checksums
  import opened Manifest
  import Json
  import Utf8

  type byte = Utf8.byte
  type Files = map<string, seq<byte>>

  datatype Bundle = Bundle(files: Files, directories: set<string>)

  /** What is left of a bundle without some files or directories. */
  function Without(b: Bundle, paths: set<string>): Bundle { Bundle(b.files - paths, b.directories - paths) }

  const DUMP_FILENAME := "database.dump"
  const MANIFEST_FILENAME := "manifest.json"
  const CHECKSUMS_FILENAME := "checksums.sha256"
  const SCHEMA_VERSION_FILENAME := "schema-version.txt"
  const APPLICATION_VERSION_FILENAME := "application-version.txt"
  const POSTGRES_VERSION_FILENAME := "postgres-version.txt"

  const ATTACHMENTS_DIR := "attachments"
  const GENERATED_DOCUMENTS_DIR := "generated-documents"
  const COMPANY_ASSETS_DIR := "company-assets"

  /** The three asset directories, which must be there even when they are empty. */
  const ASSET_DIRECTORIES: set<string> := {ATTACHMENTS_DIR, GENERATED_DOCUMENTS_DIR, COMPANY_ASSETS_DIR}

  const REQUIRED_PG_MAJOR_VERSION: nat := 18

  /** The lower-case hexadecimal SHA-256 digest, and the reader of PostgreSQL's version
      text. */
  datatype Environment = Environment(sha: seq<byte> -> string, pgMajor: string -> Option<nat>)

  ghost predicate HexDigests(env: Environment) { forall bytes :: IsDigest(env.sha(bytes)) }

  lemma NamesDiffer()
    ensures MANIFEST_FILENAME != SCHEMA_VERSION_FILENAME && MANIFEST_FILENAME != CHECKSUMS_FILENAME
    ensures SCHEMA_VERSION_FILENAME != CHECKSUMS_FILENAME
    ensures DUMP_FILENAME != MANIFEST_FILENAME && DUMP_FILENAME != SCHEMA_VERSION_FILENAME
    ensures DUMP_FILENAME != CHECKSUMS_FILENAME
    ensures POSTGRES_VERSION_FILENAME != MANIFEST_FILENAME && POSTGRES_VERSION_FILENAME != SCHEMA_VERSION_FILENAME
    ensures POSTGRES_VERSION_FILENAME != CHECKSUMS_FILENAME
    ensures Writable(MANIFEST_FILENAME)
  {
  }

  // ---------------------------------------------------------------------------
  // Reading the two metadata files
  // ---------------------------------------------------------------------------

  /** `fs::read_to_string`, or the UTF-8 check of a JSON reader. */
  function FileText(files: Files, path: string): Option<string>
  {
    if path in files then Utf8.Decode(files[path]) else None
  }

  function ReadManifestFile(files: Files): (r: Option<Manifest>)
    ensures r.Some? ==> InRange(r.value)
  {
    match FileText(files, MANIFEST_FILENAME)
    case None => None
    case Some(text) =>
      match Json.Parse(text)
      case None => None
      case Some(j) => ReadManifest(j)
  }

  function ReadChecksumsFile(files: Files): Option<map<string, string>>
  {
    match FileText(files, CHECKSUMS_FILENAME)
    case None => None
    case Some(text) => ParseChecksums(text)
  }

  function PostgresMajor(env: Environment, files: Files): Option<nat>
  {
    match FileText(files, POSTGRES_VERSION_FILENAME)
    case None => None
    case Some(text) => env.pgMajor(Trim(text))
  }

  // ---------------------------------------------------------------------------
  // Validation
  // ---------------------------------------------------------------------------

  /** `reject_path_traversal`. */
  predicate PathAllowed(path: string)
  {
    path != "" && path[0] != '/'
    && forall i :: 0 <= i < |Split(path, '/')| ==>
         Split(path, '/')[i] != "" && Split(path, '/')[i] != "." && Split(path, '/')[i] != ".."
  }

  /** Text between slashes, the ends of the path counting as slashes. */
  predicate Between(path: string, a: string, part: string, b: string)
  {
    "/" + path + "/" == a + ("/" + part + ("/" + b))
  }

  lemma DropFront(x: string, y: string, n: nat)
    requires n <= |x|
    ensures (x + y)[n..] == x[n..] + y
  {
  }

  /** Where the slashes around the part are, and that none comes before the first one. */
  lemma SlashesAround(path: string, a: string, part: string, b: string)
    requires Between(path, a, part, b)
    ensures var s := "/" + path + "/";
      && |s| == |a| + |part| + |b| + 2 && s[|a|] == '/' && s[|a| + 1 + |part|] == '/'
      && s[|a| + 1..|a| + 1 + |part|] == part
  {
    var s := "/" + path + "/";
    DropFront(a, "/" + part + ("/" + b), |a|);
    assert s[|a|..] == "/" + part + ("/" + b);
    assert s[|a|..][0] == '/' && s[|a|..][1 + |part|] == '/';
    assert s[|a|..][1..1 + |part|] == part;
  }

  lemma FirstSlash(path: string)
    ensures var k, s := IndexOf(path, '/'), "/" + path + "/";
      s[k + 1] == '/' && (forall i :: 1 <= i <= k ==> s[i] == path[i - 1] && s[i] != '/')
  {
  }

  lemma AfterFirst(path: string)
    requires IndexOf(path, '/') < |path|
    ensures var k := IndexOf(path, '/'); ("/" + path + "/")[k + 1..] == "/" + path[k + 1..] + "/"
  {
    var k := IndexOf(path, '/');
    CutAtSlash(path, k);
    DropFront("/" + path[..k], "/" + path[k + 1..] + "/", k + 1);
  }

  lemma CutAtSlash(path: string, k: nat)
    requires k < |path| && path[k] == '/'
    ensures "/" + path + "/" == "/" + path[..k] + ("/" + path[k + 1..] + "/")
  {
    assert path == path[..k] + (['/'] + path[k + 1..]);
  }

  /** What stands between two slashes is one of the pieces of the path. */
  lemma {:induction false} BetweenIsPiece(path: string, a: string, part: string, b: string)
    requires '/' !in part && Between(path, a, part, b)
    ensures part in Split(path, '/')
    decreases |path|
  {
    var k, s := IndexOf(path, '/'), "/" + path + "/";
    FirstSlash(path);
    SlashesAround(path, a, part, b);
    if a == "" {
      assert forall i :: 1 <= i <= |part| ==> s[i] == s[1..1 + |part|][i - 1] == part[i - 1];
      assert k == |part|;
      assert path[..k] == part;
    } else {
      assert k + 1 <= |a| && k < |path|;
      AfterFirst(path);
      DropFront(a, "/" + part + ("/" + b), k + 1);
      BetweenIsPiece(path[k + 1..], a[k + 1..], part, b);
    }
  }

  lemma Extend(path: string, k: nat, a: string, part: string, b: string)
    requires k < |path| && path[k] == '/' && Between(path[k + 1..], a, part, b)
    ensures Between(path, "/" + path[..k] + a, part, b)
  {
    CutAtSlash(path, k);
    Regroup("/" + path[..k], a, "/" + part + ("/" + b));
  }

  lemma Regroup(x: string, y: string, z: string)
    ensures x + (y + z) == x + y + z
  {
  }

  lemma AllBetween(path: string)
    ensures Between(path, "", path, "")
  {
    assert "/" + "" == "/";
  }

  lemma FirstBetween(path: string, k: nat)
    requires k < |path| && path[k] == '/'
    ensures Between(path, "", path[..k], path[k + 1..] + "/")
  {
    CutAtSlash(path, k);
    Regroup("/", path[k + 1..], "/");
  }

  lemma {:induction false} PieceIsBetween(path: string, i: nat) returns (a: string, b: string)
    requires i < |Split(path, '/')|
    ensures Between(path, a, Split(path, '/')[i], b)
    decreases |path|
  {
    var k := IndexOf(path, '/');
    a, b := "", "";
    if k == |path| {
      AllBetween(path);
    } else if i == 0 {
      FirstBetween(path, k);
      b := path[k + 1..] + "/";
    } else {
      var part := Split(path[k + 1..], '/')[i - 1];
      assert Split(path, '/')[i] == part;
      a, b := PieceIsBetween(path[k + 1..], i - 1);
      Extend(path, k, a, part, b);
      a := "/" + path[..k] + a;
    }
  }

  /** A relative path none of whose components is empty or a dot or two: nothing of that
      kind stands between slashes in it, the ends counting as slashes. */
  ghost predicate StaysInside(path: string)
  {
    && path != "" && path[0] != '/'
    && forall a, part, b :: part in ["", ".", ".."] ==> !Between(path, a, part, b)
  }

  lemma AllowedIffInside(path: string)
    ensures PathAllowed(path) <==> StaysInside(path)
  {
    if PathAllowed(path) {
      forall a, part, b | part in ["", ".", ".."] ensures !Between(path, a, part, b) {
        if Between(path, a, part, b) { BetweenIsPiece(path, a, part, b); }
      }
    } else if path != "" && path[0] != '/' {
      var i :| 0 <= i < |Split(path, '/')| && Split(path, '/')[i] in ["", ".", ".."];
      var a, b := PieceIsBetween(path, i);
    }
  }

  /** The file is there, and its size and hash are the recorded ones. */
  predicate Records(env: Environment, files: Files, e: Entry)
  {
    e.path in files && |files[e.path]| == e.value.size && env.sha(files[e.path]) == e.value.sha256
  }

  predicate EntryValid(env: Environment, files: Files, sums: map<string, string>, e: Entry)
  {
    PathAllowed(e.path) && Records(env, files, e) && e.path in sums && sums[e.path] == e.value.sha256
  }

  predicate EntriesValid(env: Environment, files: Files, sums: map<string, string>, entries: seq<Entry>)
  {
    forall i :: 0 <= i < |entries| ==> EntryValid(env, files, sums, entries[i])
  }

  /** The checksum file covers the manifest and not itself. */
  predicate SumsValid(env: Environment, files: Files, sums: map<string, string>)
  {
    CHECKSUMS_FILENAME !in sums && MANIFEST_FILENAME in files && MANIFEST_FILENAME in sums
    && sums[MANIFEST_FILENAME] == env.sha(files[MANIFEST_FILENAME])
  }

  predicate ListsRequired(entries: seq<Entry>)
  {
    Lists(entries, DUMP_FILENAME) && Lists(entries, SCHEMA_VERSION_FILENAME)
    && Lists(entries, APPLICATION_VERSION_FILENAME) && Lists(entries, POSTGRES_VERSION_FILENAME)
  }

  predicate HeaderValid(m: Manifest)
  {
    (m.formatVersion == 1 || m.formatVersion == 2) && m.dumpFilename == DUMP_FILENAME
  }

  /** The files pass all checks, and `m` is the manifest that was read. */
  predicate ValidFiles(env: Environment, files: Files, m: Manifest)
  {
    && ReadManifestFile(files) == Some(m)
    && HeaderValid(m)
    && ReadChecksumsFile(files).Some?
    && SumsValid(env, files, ReadChecksumsFile(files).value)
    && EntriesValid(env, files, ReadChecksumsFile(files).value, m.files)
    && ListsRequired(m.files)
    && DUMP_FILENAME in files && |files[DUMP_FILENAME]| > 0
    && PostgresMajor(env, files) == Some(REQUIRED_PG_MAJOR_VERSION)
  }

  /** `validate_bundle` accepts the bundle, and `m` is the manifest it read. */
  predicate ValidBundle(env: Environment, b: Bundle, m: Manifest)
  {
    ASSET_DIRECTORIES <= b.directories && ValidFiles(env, b.files, m)
  }

  /** `validate_bundle`: the manifest of a bundle that is accepted. */
  function Validate(env: Environment, b: Bundle): (r: Option<Manifest>)
    ensures forall m :: ValidBundle(env, b, m) <==> r == Some(m)
  {
    match ReadManifestFile(b.files)
    case None => None
    case Some(m) => if ValidBundle(env, b, m) then Some(m) else None
  }

  // ---------------------------------------------------------------------------
  // Losing files
  // ---------------------------------------------------------------------------

  /** What validation looks at: the two metadata files, the listed files, and the asset
      directories. */
  ghost predicate Needed(m: Manifest, path: string)
  {
    path == MANIFEST_FILENAME || path == CHECKSUMS_FILENAME || Lists(m.files, path) || path in ASSET_DIRECTORIES
  }

  ghost predicate NothingNeeded(m: Manifest, lost: set<string>) { forall path :: path in lost ==> !Needed(m, path) }

  lemma SpareLoss(env: Environment, b: Bundle, m: Manifest, lost: set<string>)
    requires ValidBundle(env, b, m) && NothingNeeded(m, lost)
    ensures ValidBundle(env, Without(b, lost), m)
  {
    var rest := Without(b, lost).files;
    forall i | 0 <= i < |m.files|
      ensures EntryValid(env, rest, ReadChecksumsFile(rest).value, m.files[i])
    {
      assert Lists(m.files, m.files[i].path);
      assert EntryValid(env, b.files, ReadChecksumsFile(b.files).value, m.files[i]);
    }
  }

  lemma NeededIsThere(env: Environment, b: Bundle, m: Manifest, path: string)
    requires ValidBundle(env, b, m) && Needed(m, path)
    ensures path in b.files || path in b.directories
  {
    if Lists(m.files, path) {
      var i :| 0 <= i < |m.files| && m.files[i].path == path;
      assert EntryValid(env, b.files, ReadChecksumsFile(b.files).value, m.files[i]);
    }
  }

  /** A valid bundle that has lost some files and directories is still valid exactly if
      validation needs none of them. */
  lemma LossDetected(env: Environment, b: Bundle, m: Manifest, lost: set<string>)
    requires ValidBundle(env, b, m)
    ensures Validate(env, Without(b, lost)).Some? <==> NothingNeeded(m, lost)
  {
    if NothingNeeded(m, lost) {
      SpareLoss(env, b, m, lost);
    } else if Validate(env, Without(b, lost)).Some? {
      // The manifest that is read after the loss is the one that was there.
      assert FileText(Without(b, lost).files, MANIFEST_FILENAME) == FileText(b.files, MANIFEST_FILENAME);
      forall path | Needed(m, path) ensures path !in lost { NeededIsThere(env, Without(b, lost), m, path); }
    }
  }

  // ---------------------------------------------------------------------------
  // What acceptance means
  // ---------------------------------------------------------------------------

  /** The listed file is there, under a path inside the bundle, with the listed size and
      hash, and the checksum file gives that hash too. */
  ghost predicate Vouched(env: Environment, files: Files, sums: map<string, string>, e: Entry)
  {
    && StaysInside(e.path)
    && e.path in files && |files[e.path]| == e.value.size && env.sha(files[e.path]) == e.value.sha256
    && e.path in sums && sums[e.path] == e.value.sha256
  }

  /** The checksum file vouches for the manifest and for every listed file, and says nothing
      of itself. */
  ghost predicate AllVouched(env: Environment, files: Files, sums: map<string, string>, m: Manifest)
  {
    && "checksums.sha256" !in sums
    && "manifest.json" in files && "manifest.json" in sums && sums["manifest.json"] == env.sha(files["manifest.json"])
    && forall e :: e in m.files ==> Vouched(env, files, sums, e)
  }

  ghost predicate AsksFor(env: Environment, b: Bundle, m: Manifest)
  {
    && m.formatVersion in [1, 2] && m.dumpFilename == "database.dump"
    && Lists(m.files, "database.dump") && Lists(m.files, "schema-version.txt")
    && Lists(m.files, "application-version.txt") && Lists(m.files, "postgres-version.txt")
    && "database.dump" in b.files && b.files["database.dump"] != []
    && "postgres-version.txt" in b.files && Utf8.Decode(b.files["postgres-version.txt"]).Some?
    && env.pgMajor(Trim(Utf8.Decode(b.files["postgres-version.txt"]).value)) == Some(18)
    && "attachments" in b.directories && "generated-documents" in b.directories && "company-assets" in b.directories
  }

  lemma VouchedIffValid(env: Environment, files: Files, sums: map<string, string>, m: Manifest)
    ensures AllVouched(env, files, sums, m) <==> SumsValid(env, files, sums) && EntriesValid(env, files, sums, m.files)
  {
    forall i | 0 <= i < |m.files|
      ensures EntryValid(env, files, sums, m.files[i]) <==> Vouched(env, files, sums, m.files[i])
    {
      AllowedIffInside(m.files[i].path);
    }
  }

  lemma AsksForChecked(env: Environment, b: Bundle, m: Manifest)
    ensures AsksFor(env, b, m) <==>
            && HeaderValid(m) && ListsRequired(m.files)
            && DUMP_FILENAME in b.files && |b.files[DUMP_FILENAME]| > 0
            && PostgresMajor(env, b.files) == Some(REQUIRED_PG_MAJOR_VERSION) && ASSET_DIRECTORIES <= b.directories
  {
  }

  /** A bundle is accepted exactly if it has a readable manifest of a supported format and a
      readable checksum file that vouches for it and for all listed files; its four fixed
      files are listed, its dump is not empty, its version of PostgreSQL is the one that is
      asked for, and its directories are there. */
  lemma AcceptedExactly(env: Environment, b: Bundle, m: Manifest)
    ensures Validate(env, b) == Some(m) <==>
            && ReadManifestFile(b.files) == Some(m) && AsksFor(env, b, m)
            && ReadChecksumsFile(b.files).Some? && AllVouched(env, b.files, ReadChecksumsFile(b.files).value, m)
  {
    AsksForChecked(env, b, m);
    if ReadChecksumsFile(b.files).Some? { VouchedIffValid(env, b.files, ReadChecksumsFile(b.files).value, m); }
  }

  /** The hash tells all contents apart. */
  ghost predicate NoCollisions(env: Environment) { forall x, y :: env.sha(x) == env.sha(y) ==> x == y }

  /** The checksum file determines everything that validation covers: two accepted bundles
      with the same one have the same manifest, to the byte, and the same content in every
      file that it lists. */
  lemma SameChecksumsSameContent(env: Environment, a: Bundle, b: Bundle)
    requires NoCollisions(env) && Validate(env, a).Some? && Validate(env, b).Some?
    requires a.files["checksums.sha256"] == b.files["checksums.sha256"]
    ensures Validate(env, a) == Validate(env, b) && a.files["manifest.json"] == b.files["manifest.json"]
    ensures forall e :: e in Validate(env, a).value.files ==> a.files[e.path] == b.files[e.path]
  {
    var m := Validate(env, a).value;
    AcceptedExactly(env, a, m);
    AcceptedExactly(env, b, Validate(env, b).value);
    assert FileText(a.files, CHECKSUMS_FILENAME) == FileText(b.files, CHECKSUMS_FILENAME);
    assert env.sha(a.files[MANIFEST_FILENAME]) == env.sha(b.files[MANIFEST_FILENAME]);
    assert FileText(a.files, MANIFEST_FILENAME) == FileText(b.files, MANIFEST_FILENAME);
    forall e | e in m.files ensures a.files[e.path] == b.files[e.path] {
      assert env.sha(a.files[e.path]) == env.sha(b.files[e.path]);
    }
  }

  /** Other bytes in the manifest or in a listed file of an accepted bundle are noticed, as
      long as the checksum file is what it was. */
  lemma TamperingDetected(env: Environment, b: Bundle, m: Manifest, path: string, bytes: seq<byte>)
    requires NoCollisions(env) && Validate(env, b) == Some(m)
    requires path == "manifest.json" || Lists(m.files, path)
    requires path in b.files && bytes != b.files[path]
    ensures Validate(env, b.(files := b.files[path := bytes])).None?
  {
    var changed := b.(files := b.files[path := bytes]);
    if Validate(env, changed).Some? {
      if i :| 0 <= i < |m.files| && m.files[i].path == path {
        ListedPaths(env, b.files, m, i);
        assert m.files[i] in m.files;
      }
      SameChecksumsSameContent(env, b, changed);
      assert false;
    }
  }

  /** In a valid bundle, the checksum file is not listed and no listed path has a
      newline in it. */
  lemma ListedPaths(env: Environment, files: Files, m: Manifest, i: nat)
    requires ValidFiles(env, files, m) && i < |m.files|
    ensures m.files[i].path != CHECKSUMS_FILENAME && '\n' !in m.files[i].path
  {
    assert EntryValid(env, files, ReadChecksumsFile(files).value, m.files[i]);
    NamedPathOneLine(FileText(files, CHECKSUMS_FILENAME).value, m.files[i].path);
  }
}
