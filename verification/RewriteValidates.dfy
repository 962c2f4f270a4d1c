/** Rewriting a valid bundle gives a valid bundle: what is staged and stamped passes the
    validation that runs before and after it is published. */
module RewriteValidates {
  import opened Text
  import opened PathList
  import opened Checksums
  import opened Manifest
  import opened BundleFiles
  import opened BundleSeal
  import opened SchemaRewrite

  /** A path that a checksum line can carry. On Windows no file name has a control
      character, so every path can be carried. */
  ghost predicate NoFinalReturn(m: Manifest)
  {
    forall i :: 0 <= i < |m.files| ==>
      |m.files[i].path| > 0 ==> m.files[i].path[|m.files[i].path| - 1] != '\r'
  }

  lemma ValidCarried(env: Environment, files: Files, m: Manifest)
    requires HexDigests(env) && ValidFiles(env, files, m) && NoFinalReturn(m)
    ensures Carried(m.files) && Matches(env, files, m) && !Lists(m.files, CHECKSUMS_FILENAME)
  {
    forall i | 0 <= i < |m.files|
      ensures IsDigest(m.files[i].value.sha256) && Writable(m.files[i].path) && PathAllowed(m.files[i].path)
      ensures Records(env, files, m.files[i]) && m.files[i].path != CHECKSUMS_FILENAME
    {
      ListedPaths(env, files, m, i);
      assert EntryValid(env, files, ReadChecksumsFile(files).value, m.files[i]);
      assert IsDigest(env.sha(files[m.files[i].path]));
    }
  }

  lemma NewCarried(env: Environment, m: Manifest, version: string)
    requires HexDigests(env) && Carried(m.files)
    ensures Carried(NewManifest(env, m, version).files)
  {
    var n := NewManifest(env, m, version);
    assert IsDigest(env.sha(SchemaBytes(version)));
    forall k | 0 <= k < |n.files|
      ensures IsDigest(n.files[k].value.sha256) && Writable(n.files[k].path) && PathAllowed(n.files[k].path)
    {
      var i := NewEntry(env, m, version, n.files[k]);
    }
  }

  lemma RewrittenValid(env: Environment, files: Files, m: Manifest, version: string)
    requires HexDigests(env) && ValidFiles(env, files, m) && NoFinalReturn(m)
    requires ListsPayload(m) && |SchemaBytes(version)| <= U64_MAX
    ensures ValidFiles(env, Rewritten(env, files, m, version), NewManifest(env, m, version))
  {
    var n := NewManifest(env, m, version);
    var stamped := files[SCHEMA_VERSION_FILENAME := SchemaBytes(version)];
    NamesDiffer();
    ValidCarried(env, files, m);
    NewCarried(env, m, version);
    NewManifestInRange(env, m, version);
    NewManifestPaths(env, m, version);
    StampedMatches(env, files, m, version);
    assert PostgresMajor(env, stamped) == PostgresMajor(env, files);
    WrittenReads(n);
    SealedFilesValid(env, stamped, n, ManifestBytes(n));
  }

  /** A rewrite of a valid bundle whose manifest does not list itself is refused exactly
      when the version is unacceptable or a path is listed twice. Otherwise the rewritten
      bundle is valid, with the new schema version and everything else as before. */
  lemma RewriteOfValid(env: Environment, b: Bundle, m: Manifest, version: string)
    requires HexDigests(env) && ValidBundle(env, b, m) && NoFinalReturn(m)
    requires !Lists(m.files, MANIFEST_FILENAME) && |SchemaBytes(version)| <= U64_MAX
    ensures Refusal(b.files, version).None? <==>
            && !AllWhiteSpace(version) && (forall i :: 0 <= i < |version| ==> !IsControl(version[i]))
            && DistinctPaths(m.files)
    ensures Refusal(b.files, version).None? ==>
              ValidBundle(env, b.(files := Rewritten(env, b.files, m, version)), NewManifest(env, m, version))
  {
    RefusalIs(b.files, version);
    if DistinctPaths(m.files) {
      ValidCarried(env, b.files, m);
      RewrittenValid(env, b.files, m, version);
    }
  }
}
