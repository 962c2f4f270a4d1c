/** Counting the files of a bundle and adding up their sizes with saturating 64-bit
    arithmetic: the six fixed files, then whatever the three asset directories list, in
    the order in which they list it. */
module BundleStats {
  import opened Text

  const U64_MAX: nat := 0xFFFF_FFFF_FFFF_FFFF

  /** What is found at a path: a regular file, or a link or directory. */
  datatype Node = Regular(size: nat) | Irregular

  /** The six fixed paths, and the listings of the three directories. A path may be
      missing, a directory unreadable, and so may a single entry of it. */
  datatype Bundle = Bundle(fixed: seq<Option<Node>>, directories: seq<Option<seq<Option<Node>>>>)

  /** The two copies of the code differ only in their error codes. */
  datatype Codes = Codes(missing: string, irregular: string, listing: string, entry: string)

  datatype Stats = Stats(fileCount: nat, totalBytes: nat) | Refused(code: string)

  function Clamp(n: nat): nat { if n > U64_MAX then U64_MAX else n }

  function SaturatingAdd(a: nat, b: nat): nat { Clamp(a + b) }

  // ---------------------------------------------------------------------------
  // The true numbers
  // ---------------------------------------------------------------------------

  function Listing(directory: Option<seq<Option<Node>>>): seq<Option<Node>>
  {
    match directory
    case None => []
    case Some(listing) => listing
  }

  function Nodes(directories: seq<Option<seq<Option<Node>>>>): seq<Option<Node>>
  {
    if |directories| == 0 then []
    else Nodes(directories[..|directories| - 1]) + Listing(directories[|directories| - 1])
  }

  /** Everything that is looked at, in order. */
  function AllNodes(b: Bundle): seq<Option<Node>> { b.fixed + Nodes(b.directories) }

  predicate Countable(nodes: seq<Option<Node>>)
  {
    forall i :: 0 <= i < |nodes| ==> nodes[i].Some? && nodes[i].value.Regular?
  }

  predicate Listable(directories: seq<Option<seq<Option<Node>>>>)
  {
    forall i :: 0 <= i < |directories| ==> directories[i].Some?
  }

  function TotalSize(nodes: seq<Option<Node>>): nat
  {
    if |nodes| == 0 then 0
    else (match nodes[0] case Some(Regular(size)) => size case _ => 0) + TotalSize(nodes[1..])
  }

  lemma {:induction false} TotalAppend(a: seq<Option<Node>>, b: seq<Option<Node>>)
    ensures TotalSize(a + b) == TotalSize(a) + TotalSize(b)
  {
    if |a| == 0 {
      assert a + b == b;
    } else {
      TotalAppend(a[1..], b);
      assert (a + b)[1..] == a[1..] + b;
    }
  }

  lemma TotalOfOne(size: nat)
    ensures TotalSize([Some(Regular(size))]) == size
  {
    assert [Some(Regular(size))][1..] == [];
  }

  lemma NodesAppend(a: seq<Option<seq<Option<Node>>>>, d: Option<seq<Option<Node>>>)
    ensures Nodes(a + [d]) == Nodes(a) + Listing(d)
  {
  }

  /** The first thing in the list that is not a regular file. */
  predicate FirstBad(nodes: seq<Option<Node>>, i: nat)
  {
    i < |nodes| && Countable(nodes[..i]) && (nodes[i].None? || nodes[i].value.Irregular?)
  }

  /** The code of the first fault in a list of paths. */
  ghost predicate FirstFault(nodes: seq<Option<Node>>, missing: string, irregular: string, code: string)
  {
    exists i: nat :: FirstBad(nodes, i) && code == if nodes[i].None? then missing else irregular
  }

  /** All before this directory is fine, and it or one of its entries is not. */
  ghost predicate DirectoryFault(b: Bundle, codes: Codes, d: nat, code: string)
  {
    && d < |b.directories| && Listable(b.directories[..d]) && Countable(b.fixed + Nodes(b.directories[..d]))
    && match b.directories[d]
       case None => code == codes.listing
       case Some(listing) => FirstFault(listing, codes.entry, codes.irregular, code)
  }

  ghost predicate FaultCode(b: Bundle, codes: Codes, code: string)
  {
    FirstFault(b.fixed, codes.missing, codes.irregular, code) || exists d :: DirectoryFault(b, codes, d, code)
  }

  lemma FaultInDirectory(b: Bundle, codes: Codes, d: nat, code: string)
    requires DirectoryFault(b, codes, d, code)
    ensures FaultCode(b, codes, code)
  {
  }

  // ---------------------------------------------------------------------------
  // The accumulation
  // ---------------------------------------------------------------------------

  class Counter {
    var fileCount: nat
    var totalBytes: nat

    constructor ()
      ensures fileCount == 0 && totalBytes == 0
    {
      fileCount, totalBytes := 0, 0;
    }

    /** The counters are the clamped true numbers of the nodes so far. */
    ghost predicate Counts(nodes: seq<Option<Node>>)
      reads this
    {
      Countable(nodes) && fileCount == Clamp(|nodes|) && totalBytes == Clamp(TotalSize(nodes))
    }

    /** `add_regular_file_stats`. */
    method AddRegularFileStats(node: Option<Node>, codes: Codes, ghost seen: seq<Option<Node>>) returns (code: Option<string>)
      requires Counts(seen)
      modifies this
      ensures code.None? <==> node.Some? && node.value.Regular?
      ensures code.None? ==> Counts(seen + [node])
      ensures code.Some? ==> code.value == (if node.None? then codes.missing else codes.irregular)
    {
      if node.None? {
        return Some(codes.missing);
      }
      if !node.value.Regular? {
        return Some(codes.irregular);
      }
      fileCount := SaturatingAdd(fileCount, 1);
      totalBytes := SaturatingAdd(totalBytes, node.value.size);
      TotalAppend(seen, [node]);
      TotalOfOne(node.value.size);
      code := None;
    }

    /** The fixed files, in their order. */
    method AddFixed(fixed: seq<Option<Node>>, codes: Codes) returns (code: Option<string>)
      requires Counts([])
      modifies this
      ensures code.None? <==> Countable(fixed)
      ensures code.None? ==> Counts(fixed)
      ensures code.Some? ==> FirstFault(fixed, codes.missing, codes.irregular, code.value)
    {
      for i := 0 to |fixed|
        invariant Counts(fixed[..i])
      {
        code := AddRegularFileStats(fixed[i], codes, fixed[..i]);
        if code.Some? {
          assert FirstBad(fixed, i);
          return;
        }
        assert fixed[..i + 1] == fixed[..i] + [fixed[i]];
      }
      assert fixed[..|fixed|] == fixed;
      code := None;
    }

    /** The entries of one directory, in listing order. */
    method AddListing(listing: seq<Option<Node>>, codes: Codes, ghost seen: seq<Option<Node>>) returns (code: Option<string>)
      requires Counts(seen)
      modifies this
      ensures code.None? <==> Countable(listing)
      ensures code.None? ==> Counts(seen + listing)
      ensures code.Some? ==> FirstFault(listing, codes.entry, codes.irregular, code.value)
    {
      assert seen + listing[..0] == seen;
      for i := 0 to |listing|
        invariant Counts(seen + listing[..i]) && Countable(listing[..i])
      {
        if listing[i].None? {
          assert !Countable(listing) && FirstBad(listing, i);
          return Some(codes.entry);
        }
        code := AddRegularFileStats(listing[i], codes, seen + listing[..i]);
        if code.Some? {
          assert !Countable(listing) && FirstBad(listing, i);
          return;
        }
        assert seen + listing[..i + 1] == (seen + listing[..i]) + [listing[i]];
      }
      assert listing[..|listing|] == listing;
      code := None;
    }
  }

  /** `canonical_bundle_stats`: it succeeds exactly when every path is a regular file and
      every directory can be listed, and then returns the true number of files and the
      true sum of their sizes, each clamped to 64 bits. Otherwise the first fault decides. */
  method CanonicalBundleStats(b: Bundle, codes: Codes) returns (stats: Stats)
    ensures stats.Stats? <==> Countable(AllNodes(b)) && Listable(b.directories)
    ensures stats.Stats? ==>
              var files, bytes := |AllNodes(b)|, TotalSize(AllNodes(b));
              && stats.fileCount == (if files <= 0xFFFF_FFFF_FFFF_FFFF then files else 0xFFFF_FFFF_FFFF_FFFF)
              && stats.totalBytes == (if bytes <= 0xFFFF_FFFF_FFFF_FFFF then bytes else 0xFFFF_FFFF_FFFF_FFFF)
    ensures stats.Refused? ==> FaultCode(b, codes, stats.code)
  {
    var counter := new Counter();
    var fault := counter.AddFixed(b.fixed, codes);
    if fault.Some? {
      FixedInAll(b);
      return Refused(fault.value);
    }
    assert b.fixed + Nodes(b.directories[..0]) == b.fixed;
    for i := 0 to |b.directories|
      invariant fresh(counter) && counter.Counts(b.fixed + Nodes(b.directories[..i]))
      invariant Listable(b.directories[..i])
    {
      assert b.directories[..i + 1] == b.directories[..i] + [b.directories[i]];
      NodesAppend(b.directories[..i], b.directories[i]);
      if b.directories[i].None? {
        assert !Listable(b.directories);
        FaultInDirectory(b, codes, i, codes.listing);
        return Refused(codes.listing);
      }
      var seen := b.fixed + Nodes(b.directories[..i]);
      var code := counter.AddListing(b.directories[i].value, codes, seen);
      if code.Some? {
        ListingInAll(b, i);
        FaultInDirectory(b, codes, i, code.value);
        return Refused(code.value);
      }
      assert seen + b.directories[i].value == b.fixed + Nodes(b.directories[..i + 1]);
    }
    assert b.directories[..|b.directories|] == b.directories;
    stats := Stats(counter.fileCount, counter.totalBytes);
  }

  lemma FixedInAll(b: Bundle)
    requires !Countable(b.fixed)
    ensures !Countable(AllNodes(b))
  {
    var k :| 0 <= k < |b.fixed| && !(b.fixed[k].Some? && b.fixed[k].value.Regular?);
    assert AllNodes(b)[k] == b.fixed[k];
  }

  lemma {:induction false} ListingInNodes(directories: seq<Option<seq<Option<Node>>>>, i: nat)
    requires i < |directories| && directories[i].Some? && !Countable(directories[i].value)
    ensures !Countable(Nodes(directories))
  {
    var front, last := Nodes(directories[..|directories| - 1]), Listing(directories[|directories| - 1]);
    if i == |directories| - 1 {
      var k :| 0 <= k < |last| && !(last[k].Some? && last[k].value.Regular?);
      assert (front + last)[|front| + k] == last[k];
    } else {
      ListingInNodes(directories[..|directories| - 1], i);
      var k :| 0 <= k < |front| && !(front[k].Some? && front[k].value.Regular?);
      assert (front + last)[k] == front[k];
    }
  }

  lemma ListingInAll(b: Bundle, i: nat)
    requires i < |b.directories| && b.directories[i].Some? && !Countable(b.directories[i].value)
    ensures !Countable(AllNodes(b))
  {
    ListingInNodes(b.directories, i);
    var rest := Nodes(b.directories);
    var k :| 0 <= k < |rest| && !(rest[k].Some? && rest[k].value.Regular?);
    assert AllNodes(b)[|b.fixed| + k] == rest[k];
  }

  // ---------------------------------------------------------------------------
  // The listing order does not matter
  // ---------------------------------------------------------------------------

  lemma {:induction false} TotalWithout(s: seq<Option<Node>>, i: nat)
    requires i < |s|
    ensures TotalSize(s) == TotalSize([s[i]]) + TotalSize(s[..i] + s[i + 1..])
  {
    TotalAppend(s[..i], s[i..]);
    TotalAppend([s[i]], s[i + 1..]);
    TotalAppend(s[..i], s[i + 1..]);
    assert s == s[..i] + s[i..] && s[i..] == [s[i]] + s[i + 1..];
  }

  lemma MultisetWithout<T>(b: seq<T>, i: nat)
    requires i < |b|
    ensures multiset(b) == multiset{b[i]} + multiset(b[..i] + b[i + 1..])
  {
    assert b == b[..i] + [b[i]] + b[i + 1..];
  }

  lemma RemoveOne<T>(a: seq<T>, b: seq<T>, i: nat)
    requires |a| > 0 && i < |b| && b[i] == a[0] && multiset(a) == multiset(b)
    ensures multiset(a[1..]) == multiset(b[..i] + b[i + 1..])
  {
    MultisetWithout(a, 0);
    MultisetWithout(b, i);
    assert a[..0] + a[1..] == a[1..];
    SumsCancel(a[0], multiset(a[1..]), multiset(b[..i] + b[i + 1..]));
  }

  lemma SumsCancel<T>(x: T, m: multiset<T>, n: multiset<T>)
    requires multiset{x} + m == multiset{x} + n
    ensures m == n
  {
    assert m == (multiset{x} + m) - multiset{x};
    assert n == (multiset{x} + n) - multiset{x};
  }

  /** A sum of sizes is the same in any order. */
  lemma {:induction false} TotalPermuted(a: seq<Option<Node>>, b: seq<Option<Node>>)
    requires multiset(a) == multiset(b)
    ensures TotalSize(a) == TotalSize(b)
    decreases |a|
  {
    assert |multiset(a)| == |a| && |multiset(b)| == |b|;
    if |a| > 0 {
      assert a[0] in multiset(b);
      var i :| 0 <= i < |b| && b[i] == a[0];
      RemoveOne(a, b, i);
      TotalPermuted(a[1..], b[..i] + b[i + 1..]);
      assert a == [a[0]] + a[1..];
      TotalWithout(b, i);
      TotalAppend([a[0]], a[1..]);
    }
  }

  lemma CountablePermuted(a: seq<Option<Node>>, b: seq<Option<Node>>)
    requires multiset(a) == multiset(b)
    ensures Countable(a) <==> Countable(b)
  {
    assert forall x :: x in a <==> x in multiset(a);
    assert forall x :: x in b <==> x in multiset(b);
    forall i | 0 <= i < |b| && Countable(a) ensures b[i].Some? && b[i].value.Regular? { assert b[i] in a; }
    forall i | 0 <= i < |a| && Countable(b) ensures a[i].Some? && a[i].value.Regular? { assert a[i] in b; }
  }

  /** Two bundles that hold the same files and list them in different orders have the same
      statistics, and both have some or neither has. */
  lemma OrderDoesNotMatter(a: Bundle, b: Bundle)
    requires multiset(AllNodes(a)) == multiset(AllNodes(b))
    ensures Countable(AllNodes(a)) <==> Countable(AllNodes(b))
    ensures Clamp(|AllNodes(a)|) == Clamp(|AllNodes(b)|)
    ensures Clamp(TotalSize(AllNodes(a))) == Clamp(TotalSize(AllNodes(b)))
  {
    assert |multiset(AllNodes(a))| == |AllNodes(a)| && |multiset(AllNodes(b))| == |AllNodes(b)|;
    CountablePermuted(AllNodes(a), AllNodes(b));
    TotalPermuted(AllNodes(a), AllNodes(b));
  }
}
