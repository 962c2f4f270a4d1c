/** The text of `checksums.sha256`: one line for each file, its hash and its path. */
module Checksums {
  import opened Text
  import opened PathList

  type Line = Listed<string>

  const DIGEST_LENGTH: nat := 64

  predicate IsHexDigit(c: char) { IsDigit(c) || 'a' <= c <= 'f' || 'A' <= c <= 'F' }

  predicate IsLowerHexDigit(c: char) { IsDigit(c) || 'a' <= c <= 'f' }

  /** What `hash_bytes` and `hash_file` return: 64 lower-case hexadecimal digits. */
  predicate IsDigest(s: string)
  {
    |s| == DIGEST_LENGTH && forall i :: 0 <= i < |s| ==> IsLowerHexDigit(s[i])
  }

  // ---------------------------------------------------------------------------
  // Writing
  // ---------------------------------------------------------------------------

  function LineText(l: Line): string { l.value + "  " + l.path }

  /** The lines one after the other, each ended by a newline. */
  function ChecksumText(lines: seq<Line>): string
  {
    if |lines| == 0 then "" else LineText(lines[0]) + "\n" + ChecksumText(lines[1..])
  }

  // ---------------------------------------------------------------------------
  // Reading
  // ---------------------------------------------------------------------------

  /** Where `"  "` first occurs, or the length. */
  function DoubleSpace(s: string): (k: nat)
    ensures k <= |s|
    ensures k < |s| ==> k + 2 <= |s|
  {
    if |s| < 2 then |s|
    else if s[0] == ' ' && s[1] == ' ' then 0
    else
      var k := DoubleSpace(s[1..]);
      k + 1
  }

  /** `line.splitn(2, "  ")` and the checks on the hash. */
  function ParseLine(s: string): Option<Line>
  {
    var k := DoubleSpace(s);
    if k == |s| then None
    else if k != DIGEST_LENGTH || exists i :: 0 <= i < k && !IsHexDigit(s[i]) then None
    else Some(Listed(s[k + 2..], LowerAscii(s[..k])))
  }

  function DropReturn(s: string): string
  {
    if |s| > 0 && s[|s| - 1] == '\r' then s[..|s| - 1] else s
  }

  function DropReturns(parts: seq<string>): (r: seq<string>)
    ensures |r| == |parts|
  {
    if |parts| == 0 then [] else [DropReturn(parts[0])] + DropReturns(parts[1..])
  }

  /** `str::lines`: a final empty piece is not a line, and a carriage return at the end
      of a line is dropped. */
  function Lines(s: string): seq<string>
  {
    var parts := Split(s, '\n');
    DropReturns(if parts[|parts| - 1] == "" then parts[..|parts| - 1] else parts)
  }

  /** Each line is inserted into the map, so a later line for a path wins. */
  function ParseLines(lines: seq<string>, sums: map<string, string>): Option<map<string, string>>
  {
    if |lines| == 0 then Some(sums)
    else match ParseLine(lines[0])
         case None => None
         case Some(l) => ParseLines(lines[1..], sums[l.path := l.value])
  }

  function ParseChecksums(s: string): Option<map<string, string>> { ParseLines(Lines(s), map[]) }

  // ---------------------------------------------------------------------------
  // Reading back what was written
  // ---------------------------------------------------------------------------

  lemma LowerHexIs(c: char)
    ensures IsLowerHexDigit(c) <==> c in "0123456789abcdef"
  {
    var digits := "0123456789abcdef";
    if IsDigit(c) { assert digits[c as int - '0' as int] == c; }
    if 'a' <= c <= 'f' { assert digits[10 + (c as int - 'a' as int)] == c; }
  }

  lemma UpperHexIs(c: char)
    ensures 'A' <= c <= 'F' <==> c in "ABCDEF"
  {
    var digits := "ABCDEF";
    if 'A' <= c <= 'F' { assert digits[c as int - 'A' as int] == c; }
  }

  lemma DigestIs(s: string)
    ensures IsDigest(s) <==> |s| == 64 && forall i :: 0 <= i < 64 ==> s[i] in "0123456789abcdef"
  {
    forall i | 0 <= i < |s| ensures IsLowerHexDigit(s[i]) <==> s[i] in "0123456789abcdef" { LowerHexIs(s[i]); }
  }

  /** A line is read exactly if it is 64 hexadecimal digits of either case, two spaces and
      the path, and the digits count as lower-case. */
  lemma LineIs(s: string)
    ensures ParseLine(s).Some? <==>
            |s| >= 66 && s[64..66] == "  " && forall i :: 0 <= i < 64 ==> s[i] in "0123456789abcdef" || s[i] in "ABCDEF"
    ensures ParseLine(s).Some? ==> ParseLine(s) == Some(Listed(s[66..], LowerAscii(s[..64])))
  {
    forall i | 0 <= i < |s|
      ensures IsHexDigit(s[i]) <==> s[i] in "0123456789abcdef" || s[i] in "ABCDEF"
    {
      LowerHexIs(s[i]);
      UpperHexIs(s[i]);
    }
    if |s| >= 66 && s[64..66] == "  " && forall i :: 0 <= i < 64 ==> IsHexDigit(s[i]) {
      assert s == s[..64] + "  " + s[66..];
      DoubleSpaceAfter(s[..64], s[66..]);
    }
    if DoubleSpace(s) < |s| { DoubleSpaceThere(s); }
  }

  lemma {:induction false} DoubleSpaceThere(s: string)
    requires DoubleSpace(s) < |s|
    ensures var k := DoubleSpace(s); s[k..k + 2] == "  "
  {
    if s[0] == ' ' && s[1] == ' ' {
      assert s[0..2] == [s[0], s[1]] == "  ";
    } else {
      var k := DoubleSpace(s[1..]);
      DoubleSpaceThere(s[1..]);
      assert DoubleSpace(s) == k + 1 && s[k + 1..k + 3] == s[1..][k..k + 2];
    }
  }

  /** The path survives being written on a line of its own. */
  predicate Writable(path: string)
  {
    '\n' !in path && (|path| > 0 ==> path[|path| - 1] != '\r')
  }

  predicate GoodLine(l: Line) { IsDigest(l.value) && Writable(l.path) }

  predicate GoodLines(lines: seq<Line>) { forall i :: 0 <= i < |lines| ==> GoodLine(lines[i]) }

  lemma {:induction false} LowerDigest(s: string)
    requires forall i :: 0 <= i < |s| ==> IsLowerHexDigit(s[i])
    ensures LowerAscii(s) == s
  {
    if |s| > 0 { LowerDigest(s[1..]); }
  }

  lemma {:induction false} DoubleSpaceAfter(a: string, rest: string)
    requires ' ' !in a
    ensures DoubleSpace(a + "  " + rest) == |a|
  {
    var s := a + "  " + rest;
    if |a| > 0 {
      DoubleSpaceAfter(a[1..], rest);
      assert s[1..] == a[1..] + "  " + rest;
      assert s[0] == a[0];
    } else {
      assert s[0] == ' ' && s[1] == ' ';
    }
  }

  lemma ParseLineText(l: Line)
    requires IsDigest(l.value)
    ensures ParseLine(LineText(l)) == Some(l)
  {
    var s := LineText(l);
    DoubleSpaceAfter(l.value, l.path);
    assert s[..DIGEST_LENGTH] == l.value && s[DIGEST_LENGTH + 2..] == l.path;
    assert forall i :: 0 <= i < DIGEST_LENGTH ==> s[i] == l.value[i];
    LowerDigest(l.value);
  }

  function LineTexts(lines: seq<Line>): (r: seq<string>)
    ensures |r| == |lines|
  {
    if |lines| == 0 then [] else [LineText(lines[0])] + LineTexts(lines[1..])
  }

  lemma LineTextOneLine(l: Line)
    requires GoodLine(l)
    ensures '\n' !in LineText(l) && DropReturn(LineText(l)) == LineText(l)
  {
  }

  lemma {:induction false} LineTextsKept(lines: seq<Line>)
    requires GoodLines(lines)
    ensures DropReturns(LineTexts(lines)) == LineTexts(lines)
  {
    if |lines| > 0 {
      LineTextOneLine(lines[0]);
      LineTextsKept(lines[1..]);
      assert LineTexts(lines)[1..] == LineTexts(lines[1..]);
    }
  }

  lemma SplitFirst(first: string, rest: string, parts: seq<string>)
    requires '\n' !in first && Split(rest, '\n') == parts + [""]
    ensures Split(first + "\n" + rest, '\n') == ([first] + parts) + [""]
  {
    SplitOnce(first, '\n', rest);
    assert [first] + (parts + [""]) == ([first] + parts) + [""];
  }

  lemma {:induction false} SplitChecksumText(lines: seq<Line>)
    requires GoodLines(lines)
    ensures Split(ChecksumText(lines), '\n') == LineTexts(lines) + [""]
  {
    if |lines| > 0 {
      LineTextOneLine(lines[0]);
      SplitChecksumText(lines[1..]);
      SplitFirst(LineText(lines[0]), ChecksumText(lines[1..]), LineTexts(lines[1..]));
    }
  }

  lemma {:induction false} ParseLineTexts(lines: seq<Line>, sums: map<string, string>)
    requires GoodLines(lines)
    ensures ParseLines(LineTexts(lines), sums) == Some(Table(lines, sums))
  {
    if |lines| > 0 {
      ParseLineText(lines[0]);
      ParseLineTexts(lines[1..], sums[lines[0].path := lines[0].value]);
      assert LineTexts(lines)[1..] == LineTexts(lines[1..]);
    }
  }

  /** Reading a checksum text back gives exactly the hashes that were written. */
  lemma ParseWritten(lines: seq<Line>)
    requires GoodLines(lines)
    ensures ParseChecksums(ChecksumText(lines)) == Some(Table(lines, map[]))
  {
    SplitChecksumText(lines);
    LineTextsKept(lines);
    var parts := LineTexts(lines) + [""];
    assert parts[..|parts| - 1] == LineTexts(lines);
    ParseLineTexts(lines, map[]);
  }

  lemma LinesOfOne(line: string)
    requires '\n' !in line
    ensures Lines(line + "\n") == [DropReturn(line)]
  {
    SplitOnce(line, '\n', "");
    SplitNone("", '\n');
    assert line + ['\n'] + "" == line + "\n";
    assert ([line] + [""])[..1] == [line];
    assert DropReturns([line]) == [DropReturn(line)] + DropReturns([]);
  }

  /** A carriage return before the newline is not part of the path. */
  lemma EitherEnding(l: Line)
    requires GoodLine(l)
    ensures ParseChecksums(LineText(l) + "\r\n") == ParseChecksums(LineText(l) + "\n") == Some(map[l.path := l.value])
  {
    LineTextOneLine(l);
    LinesOfOne(LineText(l));
    LinesOfOne(LineText(l) + "\r");
    assert LineText(l) + "\r" + "\n" == LineText(l) + "\r\n";
    assert (LineText(l) + "\r")[..|LineText(l)|] == LineText(l);
    ParseLineText(l);
    assert [LineText(l)][1..] == [];
    assert ParseLines([LineText(l)], map[]) == ParseLines([], map[l.path := l.value]);
  }

  // ---------------------------------------------------------------------------
  // What any checksum text can say
  // ---------------------------------------------------------------------------

  lemma {:induction false} SplitPieces(s: string, i: nat)
    requires i < |Split(s, '\n')|
    ensures '\n' !in Split(s, '\n')[i]
    decreases |s|
  {
    var k := IndexOf(s, '\n');
    if k < |s| && i > 0 { SplitPieces(s[k + 1..], i - 1); }
  }

  lemma {:induction false} DropReturnsAt(parts: seq<string>, i: nat)
    requires i < |parts|
    ensures DropReturns(parts)[i] == DropReturn(parts[i])
  {
    if i > 0 { DropReturnsAt(parts[1..], i - 1); }
  }

  lemma LinesOneLine(s: string, i: nat)
    requires i < |Lines(s)|
    ensures '\n' !in Lines(s)[i]
  {
    SplitPieces(s, i);
    var parts := Split(s, '\n');
    DropReturnsAt(if parts[|parts| - 1] == "" then parts[..|parts| - 1] else parts, i);
  }

  lemma {:induction false} ParsedPathOneLine(lines: seq<string>, sums: map<string, string>, path: string)
    requires ParseLines(lines, sums).Some? && path in ParseLines(lines, sums).value
    requires forall i :: 0 <= i < |lines| ==> '\n' !in lines[i]
    ensures path in sums || '\n' !in path
  {
    if |lines| > 0 {
      var l := ParseLine(lines[0]).value;
      ParsedPathOneLine(lines[1..], sums[l.path := l.value], path);
      assert '\n' !in l.path;
    }
  }

  /** A path that a checksum text names has no newline in it. */
  lemma NamedPathOneLine(s: string, path: string)
    requires ParseChecksums(s).Some? && path in ParseChecksums(s).value
    ensures '\n' !in path
  {
    forall i | 0 <= i < |Lines(s)| ensures '\n' !in Lines(s)[i] { LinesOneLine(s, i); }
    ParsedPathOneLine(Lines(s), map[], path);
  }
}
