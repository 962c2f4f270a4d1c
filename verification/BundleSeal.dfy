/** Sealing a bundle: the manifest is written, and the checksum file that covers every
    listed file and the manifest itself. The creation of a bundle, the stamping of its
    schema version and the change to format 2 all end this way. The bytes of the manifest
    are a parameter, since the writers do not order its members alike. */
module BundleSeal {
  import opened Text
  import opened PathList
  import opened Checksums
  import opened Manifest
  import opened BundleFiles
  import Json
  import Utf8

  function ManifestBytes(m: Manifest): seq<byte> { Utf8.Encode(Json.Print(ManifestJson(m))) }

  function EntryLines(entries: seq<Entry>): (r: seq<Line>)
    ensures |r| == |entries|
  {
    if |entries| == 0 then [] else [Listed(entries[0].path, entries[0].value.sha256)] + EntryLines(entries[1..])
  }

  function UnsortedLines(env: Environment, m: Manifest, bytes: seq<byte>): seq<Line>
  {
    EntryLines(m.files) + [Listed(MANIFEST_FILENAME, env.sha(bytes))]
  }

  function ChecksumLines(env: Environment, m: Manifest, bytes: seq<byte>): seq<Line> { SortByPath(UnsortedLines(env, m, bytes)) }

  function ChecksumBytes(env: Environment, m: Manifest, bytes: seq<byte>): seq<byte>
  {
    Utf8.Encode(ChecksumText(ChecksumLines(env, m, bytes)))
  }

  function Sealed(env: Environment, files: Files, m: Manifest, bytes: seq<byte>): Files
  {
    files[MANIFEST_FILENAME := bytes][CHECKSUMS_FILENAME := ChecksumBytes(env, m, bytes)]
  }

  /** The manifest names distinct files, and neither itself nor the checksum file. */
  ghost predicate ListsPayload(m: Manifest)
  {
    DistinctPaths(m.files) && !Lists(m.files, MANIFEST_FILENAME) && !Lists(m.files, CHECKSUMS_FILENAME)
  }

  /** Each entry's size and hash are those of its file. */
  ghost predicate Matches(env: Environment, files: Files, m: Manifest)
  {
    forall i :: 0 <= i < |m.files| ==> Records(env, files, m.files[i])
  }

  /** Every entry has a digest and a path that is allowed and can be written. */
  ghost predicate Carried(entries: seq<Entry>)
  {
    forall i :: 0 <= i < |entries| ==>
      IsDigest(entries[i].value.sha256) && Writable(entries[i].path) && PathAllowed(entries[i].path)
  }

  // ---------------------------------------------------------------------------
  // What a sealed bundle says
  // ---------------------------------------------------------------------------

  lemma SealedMatches(env: Environment, files: Files, m: Manifest, bytes: seq<byte>)
    requires ListsPayload(m) && Matches(env, files, m)
    ensures Matches(env, Sealed(env, files, m, bytes), m)
  {
  }

  /** The written manifest is read as `m`. */
  predicate ReadsAs(bytes: seq<byte>, m: Manifest)
  {
    match Utf8.Decode(bytes)
    case None => false
    case Some(text) =>
      match Json.Parse(text)
      case None => false
      case Some(j) => ReadManifest(j) == Some(m)
  }

  lemma WrittenReads(m: Manifest)
    requires InRange(m)
    ensures ReadsAs(ManifestBytes(m), m)
  {
    ManifestJsonValid(m);
    Utf8.DecodeEncode(Json.Print(ManifestJson(m)));
    Json.ParseDocument(ManifestJson(m));
    ReadBack(m);
  }

  lemma SealedManifest(env: Environment, files: Files, m: Manifest, bytes: seq<byte>)
    requires ReadsAs(bytes, m)
    ensures ReadManifestFile(Sealed(env, files, m, bytes)) == Some(m)
  {
    NamesDiffer();
  }

  lemma {:induction false} EntryLinesAt(entries: seq<Entry>, i: nat)
    requires i < |entries|
    ensures EntryLines(entries)[i] == Listed(entries[i].path, entries[i].value.sha256)
  {
    if i > 0 { EntryLinesAt(entries[1..], i - 1); }
  }

  /** The checksum lines: one for each entry, and one for the manifest itself. */
  lemma UnsortedLinesDistinct(env: Environment, m: Manifest, bytes: seq<byte>)
    requires ListsPayload(m)
    ensures DistinctPaths(UnsortedLines(env, m, bytes))
    ensures forall p :: Lists(UnsortedLines(env, m, bytes), p) <==> Lists(m.files, p) || p == MANIFEST_FILENAME
  {
    var lines := UnsortedLines(env, m, bytes);
    forall i | 0 <= i < |m.files|
      ensures lines[i].path == m.files[i].path && lines[i].path != MANIFEST_FILENAME
    {
      EntryLinesAt(m.files, i);
    }
    assert lines[|m.files|].path == MANIFEST_FILENAME;
    forall p
      ensures Lists(lines, p) <==> Lists(m.files, p) || p == MANIFEST_FILENAME
    {
      if i :| 0 <= i < |m.files| && m.files[i].path == p { assert lines[i].path == p; }
    }
  }

  /** The checksum list is sorted, and holds exactly the entries of the manifest and the
      hash of the manifest file as it now is. */
  lemma SealedChecksums(env: Environment, files: Files, m: Manifest, bytes: seq<byte>)
    requires ListsPayload(m)
    ensures var out, lines := Sealed(env, files, m, bytes), ChecksumLines(env, m, bytes);
      && FileText(out, CHECKSUMS_FILENAME) == Some(ChecksumText(lines))
      && SortedByPath(lines)
      && (forall l :: l in lines <==> l in EntryLines(m.files) || l == Listed(MANIFEST_FILENAME, env.sha(out[MANIFEST_FILENAME])))
      && (forall p :: Lists(lines, p) <==> Lists(m.files, p) || p == MANIFEST_FILENAME)
  {
    var out, lines := Sealed(env, files, m, bytes), ChecksumLines(env, m, bytes);
    var unsorted := UnsortedLines(env, m, bytes);
    NamesDiffer();
    UnsortedLinesDistinct(env, m, bytes);
    SortSorts(unsorted);
    Utf8.DecodeEncode(ChecksumText(lines));
    forall l
      ensures l in lines <==> l in EntryLines(m.files) || l == Listed(MANIFEST_FILENAME, env.sha(out[MANIFEST_FILENAME]))
    {
      SortElements(unsorted, l);
    }
    forall p ensures Lists(lines, p) <==> Lists(m.files, p) || p == MANIFEST_FILENAME { SortLists(unsorted, p); }
  }

  // ---------------------------------------------------------------------------
  // A sealed bundle is valid
  // ---------------------------------------------------------------------------

  lemma LinesGood(env: Environment, m: Manifest, bytes: seq<byte>)
    requires HexDigests(env) && Carried(m.files)
    ensures GoodLines(ChecksumLines(env, m, bytes))
  {
    var unsorted, lines := UnsortedLines(env, m, bytes), ChecksumLines(env, m, bytes);
    NamesDiffer();
    forall i | 0 <= i < |lines|
      ensures GoodLine(lines[i])
    {
      SortElements(unsorted, lines[i]);
      var k :| 0 <= k < |unsorted| && unsorted[k] == lines[i];
      if k < |m.files| {
        EntryLinesAt(m.files, k);
      } else {
        assert unsorted[k] == Listed(MANIFEST_FILENAME, env.sha(bytes));
      }
    }
  }

  /** What reading the checksum file gives. */
  lemma SealedSumsRead(env: Environment, files: Files, m: Manifest, bytes: seq<byte>)
    requires HexDigests(env) && Carried(m.files) && ListsPayload(m)
    ensures ReadChecksumsFile(Sealed(env, files, m, bytes)) == Some(Table(ChecksumLines(env, m, bytes), map[]))
  {
    LinesGood(env, m, bytes);
    ParseWritten(ChecksumLines(env, m, bytes));
    SealedChecksums(env, files, m, bytes);
  }

  lemma SealedSumsValid(env: Environment, files: Files, m: Manifest, bytes: seq<byte>)
    requires ListsPayload(m)
    ensures SumsValid(env, Sealed(env, files, m, bytes), Table(ChecksumLines(env, m, bytes), map[]))
  {
    var out, lines := Sealed(env, files, m, bytes), ChecksumLines(env, m, bytes);
    SealedChecksums(env, files, m, bytes);
    SortedDistinct(lines);
    NamesDiffer();
    TableOf(lines, Listed(MANIFEST_FILENAME, env.sha(out[MANIFEST_FILENAME])));
    TableKeeps(lines, map[], CHECKSUMS_FILENAME);
  }

  lemma SealedEntriesValid(env: Environment, files: Files, m: Manifest, bytes: seq<byte>)
    requires Carried(m.files) && Matches(env, files, m) && ListsPayload(m)
    ensures EntriesValid(env, Sealed(env, files, m, bytes), Table(ChecksumLines(env, m, bytes), map[]), m.files)
  {
    var out, lines := Sealed(env, files, m, bytes), ChecksumLines(env, m, bytes);
    SealedMatches(env, files, m, bytes);
    SealedChecksums(env, files, m, bytes);
    SortedDistinct(lines);
    forall k | 0 <= k < |m.files|
      ensures EntryValid(env, out, Table(lines, map[]), m.files[k])
    {
      EntryLinesAt(m.files, k);
      assert EntryLines(m.files)[k] in lines;
      TableOf(lines, EntryLines(m.files)[k]);
      assert Records(env, out, m.files[k]);
    }
  }

  lemma OtherFilesKept(env: Environment, files: Files, m: Manifest, bytes: seq<byte>)
    ensures PostgresMajor(env, Sealed(env, files, m, bytes)) == PostgresMajor(env, files)
    ensures DUMP_FILENAME in files ==>
              DUMP_FILENAME in Sealed(env, files, m, bytes) && Sealed(env, files, m, bytes)[DUMP_FILENAME] == files[DUMP_FILENAME]
  {
  }

  lemma SealedFilesValid(env: Environment, files: Files, m: Manifest, bytes: seq<byte>)
    requires HexDigests(env) && ReadsAs(bytes, m) && HeaderValid(m) && ListsRequired(m.files)
    requires ListsPayload(m) && Carried(m.files) && Matches(env, files, m)
    requires DUMP_FILENAME in files && |files[DUMP_FILENAME]| > 0
    requires PostgresMajor(env, files) == Some(REQUIRED_PG_MAJOR_VERSION)
    ensures ValidFiles(env, Sealed(env, files, m, bytes), m)
  {
    SealedManifest(env, files, m, bytes);
    SealedSumsRead(env, files, m, bytes);
    SealedSumsValid(env, files, m, bytes);
    SealedEntriesValid(env, files, m, bytes);
    OtherFilesKept(env, files, m, bytes);
  }

  /** Sealing files that a manifest describes truthfully gives a bundle that passes
      validation exactly when the three asset directories are there. */
  lemma SealedValid(env: Environment, b: Bundle, m: Manifest, bytes: seq<byte>)
    requires HexDigests(env) && ReadsAs(bytes, m) && HeaderValid(m) && ListsRequired(m.files)
    requires ListsPayload(m) && Carried(m.files) && Matches(env, b.files, m)
    requires DUMP_FILENAME in b.files && |b.files[DUMP_FILENAME]| > 0
    requires PostgresMajor(env, b.files) == Some(REQUIRED_PG_MAJOR_VERSION)
    ensures ValidBundle(env, b.(files := Sealed(env, b.files, m, bytes)), m) <==> ASSET_DIRECTORIES <= b.directories
  {
    SealedFilesValid(env, b.files, m, bytes);
  }
}
