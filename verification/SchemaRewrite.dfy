/** Stamping the real schema version into a staged bundle: the version file, its entry
    in the manifest, the manifest and the checksum file are rewritten in place, so that
    the bundle is consistent again. */
module SchemaRewrite {
  import opened Text
  import opened PathList
  import opened Checksums
  import opened Manifest
  import opened BundleFiles
  import opened BundleSeal
  import Utf8

  datatype Error =
    | SchemaVersionInvalid
    | MetadataWriteFailed
    | MetadataHashFailed
    | ManifestRewriteFailed
    | ManifestDuplicatePath
    | SchemaEntryInvalid

  // ---------------------------------------------------------------------------
  // The rewritten files
  // ---------------------------------------------------------------------------

  predicate VersionAccepted(version: string)
  {
    Trim(version) != "" && forall i :: 0 <= i < |version| ==> !IsControl(version[i])
  }

  function SchemaBytes(version: string): seq<byte> { Utf8.Encode(Trim(version) + "\n") }

  function SchemaMeta(env: Environment, version: string): Meta
  {
    Meta(|SchemaBytes(version)|, env.sha(SchemaBytes(version)))
  }

  function UpdateEntry(e: Entry, meta: Meta): Entry
  {
    if e.path == SCHEMA_VERSION_FILENAME then Listed(e.path, meta) else e
  }

  function UpdateEntries(entries: seq<Entry>, meta: Meta): (r: seq<Entry>)
    ensures |r| == |entries|
  {
    if |entries| == 0 then [] else [UpdateEntry(entries[0], meta)] + UpdateEntries(entries[1..], meta)
  }

  function NewManifest(env: Environment, m: Manifest, version: string): Manifest
  {
    m.(schemaVersion := Trim(version), files := SortByPath(UpdateEntries(m.files, SchemaMeta(env, version))))
  }

  /** Sealed with the manifest that the derived serializer writes. */
  function SealedFiles(env: Environment, files: Files, n: Manifest): Files { Sealed(env, files, n, ManifestBytes(n)) }

  function Rewritten(env: Environment, files: Files, m: Manifest, version: string): Files
  {
    SealedFiles(env, files[SCHEMA_VERSION_FILENAME := SchemaBytes(version)], NewManifest(env, m, version))
  }

  /** Why a rewrite in which all writes succeed is refused, if it is. */
  function Refusal(files: Files, version: string): Option<Error>
  {
    if !VersionAccepted(version) then Some(SchemaVersionInvalid)
    else match ReadManifestFile(files)
         case None => Some(ManifestRewriteFailed)
         case Some(m) =>
           if !DistinctPaths(m.files) then Some(ManifestDuplicatePath)
           else if !Lists(m.files, SCHEMA_VERSION_FILENAME) then Some(SchemaEntryInvalid)
           else None
  }

  /** A version is refused exactly if it is all white space or has a control character in
      it, before anything is written; then the manifest must be readable, list no path
      twice, and list the version file. */
  lemma RefusalIs(files: Files, version: string)
    ensures Refusal(files, version) == Some(SchemaVersionInvalid) <==>
            AllWhiteSpace(version) || exists i :: 0 <= i < |version| && IsControl(version[i])
    ensures Refusal(files, version) == Some(ManifestRewriteFailed) ==> ReadManifestFile(files).None?
    ensures Refusal(files, version) == Some(ManifestDuplicatePath) ==>
              ReadManifestFile(files).Some? && !DistinctPaths(ReadManifestFile(files).value.files)
    ensures Refusal(files, version) == Some(SchemaEntryInvalid) ==>
              ReadManifestFile(files).Some? && DistinctPaths(ReadManifestFile(files).value.files)
              && !Lists(ReadManifestFile(files).value.files, "schema-version.txt")
    ensures Refusal(files, version).None? ==>
              ReadManifestFile(files).Some? && DistinctPaths(ReadManifestFile(files).value.files)
              && Lists(ReadManifestFile(files).value.files, "schema-version.txt")
    ensures Refusal(files, version) !in {Some(MetadataWriteFailed), Some(MetadataHashFailed)}
  {
    var _, _ := TrimIs(version);
  }

  // ---------------------------------------------------------------------------
  // The rewrite
  // ---------------------------------------------------------------------------

  class StagedBundle {
    var files: Files
    const env: Environment
    /** No read or write fails. */
    const faultless: bool

    constructor (env: Environment, files: Files, faultless: bool)
      ensures this.env == env && this.files == files && this.faultless == faultless
    {
      this.env, this.files, this.faultless := env, files, faultless;
    }

    /** Creates or truncates the file, writes and syncs. A failure may leave the file as
        it was, or with any content. */
    method WriteSynced(path: string, bytes: seq<byte>) returns (ok: bool)
      modifies this
      ensures ok ==> files == old(files)[path := bytes]
      ensures !ok ==> files == old(files) || (path in files && files == old(files)[path := files[path]])
      ensures faultless ==> ok
    {
      ok := *;
      ok := ok || faultless;
      if ok {
        files := files[path := bytes];
      } else {
        var created: bool := *;
        if created {
          var partial: seq<byte> := *;
          files := files[path := partial];
        }
      }
    }

    /** The loop over the entries: refuses a path that occurs twice, updates the schema
        entry and counts it. */
    method UpdateLoop(entries: seq<Entry>, meta: Meta) returns (r: Option<seq<Entry>>, count: nat)
      ensures r.Some? <==> DistinctPaths(entries)
      ensures r.Some? ==> r.value == UpdateEntries(entries, meta)
      ensures r.Some? ==> (count == 1 <==> Lists(entries, SCHEMA_VERSION_FILENAME))
    {
      var paths: set<string> := {};
      var updated: seq<Entry> := [];
      count := 0;
      for n := 0 to |entries|
        invariant updated == UpdateEntries(entries[..n], meta)
        invariant DistinctPaths(entries[..n])
        invariant forall p :: p in paths <==> Lists(entries[..n], p)
        invariant count == if SCHEMA_VERSION_FILENAME in paths then 1 else 0
      {
        var e := entries[n];
        if e.path in paths {
          ghost var i :| 0 <= i < n && entries[..n][i].path == e.path;
          assert entries[i].path == entries[n].path;
          return None, count;
        }
        NextEntry(entries, n, meta);
        paths := paths + {e.path};
        updated := updated + [UpdateEntry(e, meta)];
        if e.path == SCHEMA_VERSION_FILENAME {
          count := count + 1;
        }
      }
      assert entries[..|entries|] == entries;
      r := Some(updated);
    }

    /** Writes the version file and measures it. */
    method WriteVersion(version: string) returns (error: Option<Error>, meta: Meta)
      modifies this
      ensures error.None? ==> files == old(files)[SCHEMA_VERSION_FILENAME := SchemaBytes(version)]
      ensures error.None? ==> meta == SchemaMeta(env, version)
      ensures error.Some? ==> error.value.MetadataWriteFailed? || error.value.MetadataHashFailed?
      ensures OnlyMetadataChanged(old(files), files)
      ensures faultless ==> error.None?
    {
      meta := Meta(0, "");
      var ok := WriteSynced(SCHEMA_VERSION_FILENAME, SchemaBytes(version));
      if !ok {
        return Some(MetadataWriteFailed), meta;
      }
      var readable: bool := *;
      if !readable && !faultless {
        return Some(MetadataHashFailed), meta;
      }
      var written := files[SCHEMA_VERSION_FILENAME];
      meta := Meta(|written|, env.sha(written));
      error := None;
    }

    /** Writes the manifest and the checksum file that goes with it. */
    method WriteMetadata(n: Manifest) returns (ok: bool)
      modifies this
      ensures ok ==> files == SealedFiles(env, old(files), n)
      ensures OnlyMetadataChanged(old(files), files)
      ensures faultless ==> ok
    {
      ok := WriteSynced(MANIFEST_FILENAME, ManifestBytes(n));
      if ok {
        ok := WriteSynced(CHECKSUMS_FILENAME, ChecksumBytes(env, n, ManifestBytes(n)));
      }
    }

    /** `rewrite_schema_metadata`. Whatever happens, only the three metadata files
        change. Success is the rewritten bundle; a refused version leaves the bundle
        alone; a duplicate path or a missing schema entry is reported for no other
        reason. Any of the reads and writes may fail; if none does, the rewrite succeeds
        exactly when nothing refuses it. */
    method RewriteSchemaMetadata(version: string) returns (error: Option<Error>)
      modifies this
      ensures error.None? ==>
                Refusal(old(files), version).None?
                && files == Rewritten(env, old(files), ReadManifestFile(old(files)).value, version)
      ensures error == Some(SchemaVersionInvalid) ==> Refusal(old(files), version) == error && files == old(files)
      ensures error == Some(ManifestDuplicatePath) || error == Some(SchemaEntryInvalid) ==>
                Refusal(old(files), version) == error
      ensures OnlyMetadataChanged(old(files), files)
      ensures faultless ==> error == Refusal(old(files), version)
    {
      if !VersionAccepted(version) {
        return Some(SchemaVersionInvalid);
      }
      var meta;
      error, meta := WriteVersion(version);
      if error.Some? {
        return;
      }
      ManifestUntouched(old(files), SchemaBytes(version));
      var readable: bool := *;
      var manifest := if readable || faultless then ReadManifestFile(files) else None;
      if manifest.None? {
        return Some(ManifestRewriteFailed);
      }
      var entries, count := UpdateLoop(manifest.value.files, meta);
      if entries.None? {
        return Some(ManifestDuplicatePath);
      }
      if count != 1 {
        return Some(SchemaEntryInvalid);
      }
      var n := manifest.value.(schemaVersion := Trim(version), files := SortByPath(entries.value));
      assert n == NewManifest(env, manifest.value, version);
      var ok := WriteMetadata(n);
      error := if ok then None else Some(MetadataWriteFailed);
    }
  }

  /** The files other than the three that are rewritten are the same. */
  ghost predicate OnlyMetadataChanged(a: Files, b: Files)
  {
    forall p :: p != SCHEMA_VERSION_FILENAME && p != MANIFEST_FILENAME && p != CHECKSUMS_FILENAME ==>
      (p in b <==> p in a) && (p in b ==> b[p] == a[p])
  }

  lemma ManifestUntouched(files: Files, bytes: seq<byte>)
    ensures ReadManifestFile(files[SCHEMA_VERSION_FILENAME := bytes]) == ReadManifestFile(files)
  {
  }

  lemma {:induction false} UpdateAppend(entries: seq<Entry>, e: Entry, meta: Meta)
    ensures UpdateEntries(entries + [e], meta) == UpdateEntries(entries, meta) + [UpdateEntry(e, meta)]
  {
    if |entries| > 0 {
      UpdateAppend(entries[1..], e, meta);
      assert (entries + [e])[1..] == entries[1..] + [e];
    }
  }

  lemma NextEntry(entries: seq<Entry>, n: nat, meta: Meta)
    requires n < |entries| && DistinctPaths(entries[..n]) && !Lists(entries[..n], entries[n].path)
    ensures UpdateEntries(entries[..n + 1], meta) == UpdateEntries(entries[..n], meta) + [UpdateEntry(entries[n], meta)]
    ensures DistinctPaths(entries[..n + 1])
    ensures forall p :: Lists(entries[..n + 1], p) <==> Lists(entries[..n], p) || p == entries[n].path
  {
    var front := entries[..n];
    assert entries[..n + 1] == front + [entries[n]];
    UpdateAppend(front, entries[n], meta);
    forall p
      ensures Lists(front + [entries[n]], p) <==> Lists(front, p) || p == entries[n].path
    {
      assert (front + [entries[n]])[n].path == entries[n].path;
      if i :| 0 <= i < n && front[i].path == p { assert (front + [entries[n]])[i].path == p; }
    }
    forall i, k | 0 <= i < k < n + 1
      ensures (front + [entries[n]])[i].path != (front + [entries[n]])[k].path
    {
      assert k == n ==> front[i].path != entries[n].path;
    }
  }

  // ---------------------------------------------------------------------------
  // The rewritten bundle is consistent
  // ---------------------------------------------------------------------------

  lemma {:induction false} UpdatedAt(entries: seq<Entry>, meta: Meta, i: nat)
    requires i < |entries|
    ensures UpdateEntries(entries, meta)[i] == UpdateEntry(entries[i], meta)
  {
    if i > 0 { UpdatedAt(entries[1..], meta, i - 1); }
  }

  lemma UpdatedPaths(entries: seq<Entry>, meta: Meta)
    ensures DistinctPaths(entries) ==> DistinctPaths(UpdateEntries(entries, meta))
    ensures forall p :: Lists(UpdateEntries(entries, meta), p) <==> Lists(entries, p)
  {
    var r := UpdateEntries(entries, meta);
    forall i | 0 <= i < |entries| ensures r[i].path == entries[i].path { UpdatedAt(entries, meta, i); }
    forall p
      ensures Lists(r, p) <==> Lists(entries, p)
    {
      if i :| 0 <= i < |r| && r[i].path == p { assert entries[i].path == p; }
      if i :| 0 <= i < |r| && entries[i].path == p { assert r[i].path == p; }
    }
  }

  /** An entry of the new manifest is an updated entry of the old one. */
  lemma NewEntry(env: Environment, m: Manifest, version: string, e: Entry) returns (i: nat)
    requires e in NewManifest(env, m, version).files
    ensures i < |m.files| && e == UpdateEntry(m.files[i], SchemaMeta(env, version))
  {
    var meta := SchemaMeta(env, version);
    SortElements(UpdateEntries(m.files, meta), e);
    i :| 0 <= i < |m.files| && UpdateEntries(m.files, meta)[i] == e;
    UpdatedAt(m.files, meta, i);
  }

  lemma NewManifestPaths(env: Environment, m: Manifest, version: string)
    requires ListsPayload(m)
    ensures var n := NewManifest(env, m, version);
      ListsPayload(n) && SortedByPath(n.files) && forall p :: Lists(n.files, p) <==> Lists(m.files, p)
  {
    var u := UpdateEntries(m.files, SchemaMeta(env, version));
    UpdatedPaths(m.files, SchemaMeta(env, version));
    SortSorts(u);
    SortedDistinct(SortByPath(u));
    forall p ensures Lists(SortByPath(u), p) <==> Lists(m.files, p) { SortLists(u, p); }
  }

  /** The new manifest describes the files with the new version file among them. */
  lemma StampedMatches(env: Environment, files: Files, m: Manifest, version: string)
    requires Matches(env, files, m)
    ensures Matches(env, files[SCHEMA_VERSION_FILENAME := SchemaBytes(version)], NewManifest(env, m, version))
  {
    var n := NewManifest(env, m, version);
    forall k | 0 <= k < |n.files|
      ensures Records(env, files[SCHEMA_VERSION_FILENAME := SchemaBytes(version)], n.files[k])
    {
      var i := NewEntry(env, m, version, n.files[k]);
      assert Records(env, files, m.files[i]);
    }
  }

  lemma NewManifestInRange(env: Environment, m: Manifest, version: string)
    requires InRange(m) && |SchemaBytes(version)| <= U64_MAX
    ensures InRange(NewManifest(env, m, version))
  {
    var n := NewManifest(env, m, version);
    forall k | 0 <= k < |n.files|
      ensures n.files[k].value.size <= U64_MAX
    {
      var i := NewEntry(env, m, version, n.files[k]);
    }
  }

  lemma StampedText(env: Environment, files: Files, n: Manifest, version: string)
    ensures FileText(SealedFiles(env, files[SCHEMA_VERSION_FILENAME := SchemaBytes(version)], n), SCHEMA_VERSION_FILENAME)
         == Some(Trim(version) + "\n")
  {
    NamesDiffer();
    Utf8.DecodeEncode(Trim(version) + "\n");
  }

  /** If a bundle's manifest matched its files and listed neither itself nor the checksum
      file, then a rewrite that succeeds leaves a consistent bundle: the manifest that is
      read back has the new version and strictly sorted entries for the same paths, every
      entry has the size and hash of its file, and the schema file holds the version. */
  lemma RewriteConsistent(env: Environment, files: Files, version: string)
    requires Refusal(files, version).None? && |SchemaBytes(version)| <= U64_MAX
    requires ListsPayload(ReadManifestFile(files).value) && Matches(env, files, ReadManifestFile(files).value)
    ensures var m := ReadManifestFile(files).value;
      var out := Rewritten(env, files, m, version);
      && ReadManifestFile(out).Some?
      && var n := ReadManifestFile(out).value;
      && n == m.(schemaVersion := Trim(version), files := n.files)
      && SortedByPath(n.files)
      && (forall p :: Lists(n.files, p) <==> Lists(m.files, p))
      && Matches(env, out, n)
      && FileText(out, SCHEMA_VERSION_FILENAME) == Some(Trim(version) + "\n")
  {
    var m := ReadManifestFile(files).value;
    var n := NewManifest(env, m, version);
    var stamped := files[SCHEMA_VERSION_FILENAME := SchemaBytes(version)];
    NewManifestInRange(env, m, version);
    WrittenReads(n);
    SealedManifest(env, stamped, n, ManifestBytes(n));
    NewManifestPaths(env, m, version);
    StampedMatches(env, files, m, version);
    SealedMatches(env, stamped, n, ManifestBytes(n));
    StampedText(env, files, n, version);
  }

  /** Its checksum list is strictly sorted, and is exactly the set of the new entries and
      the hash of the manifest file as it now is. */
  lemma RewriteChecksums(env: Environment, files: Files, version: string)
    requires Refusal(files, version).None? && ListsPayload(ReadManifestFile(files).value)
    ensures var m := ReadManifestFile(files).value;
      var out, n := Rewritten(env, files, m, version), NewManifest(env, m, version);
      var lines := ChecksumLines(env, n, ManifestBytes(n));
      && FileText(out, CHECKSUMS_FILENAME) == Some(ChecksumText(lines))
      && SortedByPath(lines)
      && (forall l :: l in lines <==> l in EntryLines(n.files) || l == Listed(MANIFEST_FILENAME, env.sha(out[MANIFEST_FILENAME])))
      && (forall p :: Lists(lines, p) <==> Lists(m.files, p) || p == MANIFEST_FILENAME)
  {
    var m := ReadManifestFile(files).value;
    NewManifestPaths(env, m, version);
    var n := NewManifest(env, m, version);
    SealedChecksums(env, files[SCHEMA_VERSION_FILENAME := SchemaBytes(version)], n, ManifestBytes(n));
  }
}
