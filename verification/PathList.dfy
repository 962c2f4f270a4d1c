/** Lists of values under relative paths, and sorting them by path: manifest entries
    and checksum lines. Paths are compared by their UTF-8 bytes, which is the order of
    their characters. */
module PathList {
  import opened Text

  datatype Listed<+T> = Listed(path: string, value: T)

  predicate DistinctPaths<T>(s: seq<Listed<T>>)
  {
    forall i, k :: 0 <= i < k < |s| ==> s[i].path != s[k].path
  }

  predicate SortedByPath<T>(s: seq<Listed<T>>)
  {
    forall i, k :: 0 <= i < k < |s| ==> Less(s[i].path, s[k].path)
  }

  predicate Lists<T>(s: seq<Listed<T>>, path: string)
  {
    exists i :: 0 <= i < |s| && s[i].path == path
  }

  function InsertByPath<T>(x: Listed<T>, s: seq<Listed<T>>): (r: seq<Listed<T>>)
    ensures |r| == |s| + 1
  {
    if |s| == 0 then [x]
    else if Less(s[0].path, x.path) then [s[0]] + InsertByPath(x, s[1..])
    else [x] + s
  }

  /** `sort_by(|left, right| left.path.cmp(&right.path))`, a stable sort. */
  function SortByPath<T>(s: seq<Listed<T>>): (r: seq<Listed<T>>)
    ensures |r| == |s|
  {
    if |s| == 0 then [] else InsertByPath(s[0], SortByPath(s[1..]))
  }

  lemma {:induction false} InsertElements<T>(x: Listed<T>, s: seq<Listed<T>>, y: Listed<T>)
    ensures y in InsertByPath(x, s) <==> y == x || y in s
  {
    if |s| > 0 {
      InsertElements(x, s[1..], y);
      assert s == [s[0]] + s[1..];
    }
  }

  lemma {:induction false} SortElements<T>(s: seq<Listed<T>>, y: Listed<T>)
    ensures y in SortByPath(s) <==> y in s
  {
    if |s| > 0 {
      SortElements(s[1..], y);
      InsertElements(s[0], SortByPath(s[1..]), y);
      assert s == [s[0]] + s[1..];
    }
  }

  lemma SortLists<T>(s: seq<Listed<T>>, path: string)
    ensures Lists(SortByPath(s), path) <==> Lists(s, path)
  {
    var r := SortByPath(s);
    if i :| 0 <= i < |r| && r[i].path == path { SortElements(s, r[i]); }
    if i :| 0 <= i < |s| && s[i].path == path { SortElements(s, s[i]); }
  }

  lemma {:induction false} InsertKeepsSorted<T>(x: Listed<T>, s: seq<Listed<T>>)
    requires SortedByPath(s) && !Lists(s, x.path)
    ensures SortedByPath(InsertByPath(x, s))
  {
    if |s| > 0 {
      if Less(s[0].path, x.path) {
        assert !Lists(s[1..], x.path);
        InsertKeepsSorted(x, s[1..]);
        var r := InsertByPath(x, s[1..]);
        forall k | 0 <= k < |r| ensures Less(s[0].path, r[k].path) { InsertElements(x, s[1..], r[k]); }
      } else {
        LessTotal(s[0].path, x.path);
        forall k | 0 < k < |s| ensures Less(x.path, s[k].path) { LessTransitive(x.path, s[0].path, s[k].path); }
      }
    }
  }

  /** Sorting a list with distinct paths sorts it strictly. */
  lemma {:induction false} SortSorts<T>(s: seq<Listed<T>>)
    requires DistinctPaths(s)
    ensures SortedByPath(SortByPath(s))
  {
    if |s| > 0 {
      SortSorts(s[1..]);
      SortLists(s[1..], s[0].path);
      InsertKeepsSorted(s[0], SortByPath(s[1..]));
    }
  }

  lemma SortedDistinct<T>(s: seq<Listed<T>>)
    requires SortedByPath(s)
    ensures DistinctPaths(s)
  {
    forall i, k | 0 <= i < k < |s| ensures s[i].path != s[k].path { LessIrreflexive(s[i].path); }
  }

  /** The map the list stands for; a later item for a path wins. */
  function Table<T>(s: seq<Listed<T>>, table: map<string, T>): map<string, T>
  {
    if |s| == 0 then table else Table(s[1..], table[s[0].path := s[0].value])
  }

  lemma {:induction false} TableKeeps<T>(s: seq<Listed<T>>, table: map<string, T>, path: string)
    requires !Lists(s, path)
    ensures path in Table(s, table) <==> path in table
    ensures path in table ==> Table(s, table)[path] == table[path]
  {
    if |s| > 0 {
      assert s[0].path != path;
      assert !Lists(s[1..], path);
      TableKeeps(s[1..], table[s[0].path := s[0].value], path);
    }
  }

  lemma {:induction false} TableAt<T>(s: seq<Listed<T>>, table: map<string, T>, i: nat)
    requires DistinctPaths(s) && i < |s|
    ensures s[i].path in Table(s, table) && Table(s, table)[s[i].path] == s[i].value
  {
    if i > 0 {
      TableAt(s[1..], table[s[0].path := s[0].value], i - 1);
    } else {
      assert !Lists(s[1..], s[0].path);
      TableKeeps(s[1..], table[s[0].path := s[0].value], s[0].path);
    }
  }

  lemma TableOf<T>(s: seq<Listed<T>>, x: Listed<T>)
    requires DistinctPaths(s) && x in s
    ensures x.path in Table(s, map[]) && Table(s, map[])[x.path] == x.value
  {
    var i :| 0 <= i < |s| && s[i] == x;
    TableAt(s, map[], i);
  }
}
