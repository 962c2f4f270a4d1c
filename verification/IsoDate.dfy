/** The two hand-written date readers: `parse_iso_date`, used by the posting
    commands, and `parse_filter_date`, used by the reports. */
module IsoDate {
  import opened Text
  import opened Calendar

  /** Rust's integer parsing: an optional sign, then at least one digit, and the
      value within range. Unsigned types accept a plus sign only. */
  function ParseI32(s: string): Option<int>
  {
    if s != "" && s[0] == '-' then
      match ParseDigits(s[1..])
      case Some(n) => if n <= 0x8000_0000 then Some(-(n as int)) else None
      case None => None
    else
      match ParseDigits(WithoutPlus(s))
      case Some(n) => if n < 0x8000_0000 then Some(n) else None
      case None => None
  }

  function ParseU8(s: string): Option<nat>
  {
    match ParseDigits(WithoutPlus(s))
    case Some(n) => if n < 256 then Some(n) else None
    case None => None
  }

  function WithoutPlus(s: string): string
  {
    if s != "" && s[0] == '+' then s[1..] else s
  }

  function ParseDigits(s: string): Option<nat>
  {
    if s != "" && AllDigits(s) then Some(NatValue(s)) else None
  }

  /** The date in three parts, whichever reader cut them. */
  function FromParts(parts: seq<string>): Option<Date>
  {
    if |parts| != 3 then None
    else
      match (ParseI32(parts[0]), ParseU8(parts[1]), ParseU8(parts[2]))
      case (Some(year), Some(month), Some(day)) => FromCalendar(year, month, day)
      case _ => None
  }

  /** `parse_iso_date`. */
  function ParseIsoDate(value: string): Option<Date>
  {
    FromParts(Split(value, '-'))
  }

  /** `Date::parse` with the RFC 3339 description: a full date in fixed-width digits,
      one separator character, two hour digits and a colon; `rest` stands for the
      crate's check of everything after that colon. */
  function ParseRfc3339Date(s: string, rest: string -> bool): Option<Date>
  {
    if |s| >= 14 && AllDigits(s[0..4]) && s[4] == '-' && AllDigits(s[5..7]) && s[7] == '-'
       && AllDigits(s[8..10]) && AllDigits(s[11..13]) && s[13] == ':' && rest(s[14..])
    then FromCalendar(NatValue(s[0..4]), NatValue(s[5..7]), NatValue(s[8..10]))
    else None
  }

  /** `parse_filter_date`. */
  function ParseFilterDate(s: string, rest: string -> bool): Option<Date>
  {
    match ParseRfc3339Date(s, rest)
    case Some(d) => Some(d)
    case None => FromParts(Split(Split(s, 'T')[0], '-'))
  }

  // ---------------------------------------------------------------------------
  // Reading a printed date
  // ---------------------------------------------------------------------------

  lemma Reassociate(a: string, b: string, c: string, d: string)
    ensures a + b + c + d == a + (b + c + d)
  {
  }

  lemma SplitThree(a: string, b: string, c: string, sep: char)
    requires sep !in a && sep !in b && sep !in c
    ensures Split(a + [sep] + b + [sep] + c, sep) == [a, b, c]
  {
    var tail := b + [sep] + c;
    Reassociate(a + [sep], b, [sep], c);
    SplitOnce(a, sep, tail);
    SplitOnce(b, sep, c);
    SplitNone(c, sep);
  }

  /** Digits that say the number, with or without a plus sign. */
  predicate Says(text: string, n: int)
  {
    || (text != "" && AllDigits(text) && NatValue(text) == n)
    || (|text| > 1 && text[0] == '+' && AllDigits(text[1..]) && NatValue(text[1..]) == n)
  }

  lemma NoneLeft(s: string, sep: char)
    requires |Split(s, sep)| == 1
    ensures Split(s, sep) == [s] && sep !in s
  {
  }

  /** The first piece, and what is left after the separator. */
  lemma OneMore(s: string, sep: char) returns (rest: string)
    requires |Split(s, sep)| > 1
    ensures Split(s, sep)[1..] == Split(rest, sep) && sep !in Split(s, sep)[0]
    ensures s == Split(s, sep)[0] + [sep] + rest
  {
    var k := IndexOf(s, sep);
    rest := s[k + 1..];
    CutAt(s, k);
  }

  lemma CutAt(s: string, k: nat)
    requires k < |s|
    ensures s == s[..k] + [s[k]] + s[k + 1..]
  {
  }

  lemma SplitJoins(s: string, sep: char)
    requires |Split(s, sep)| == 3
    ensures var p := Split(s, sep);
      s == p[0] + [sep] + p[1] + [sep] + p[2] && sep !in p[0] && sep !in p[1] && sep !in p[2]
  {
    var p := Split(s, sep);
    var rest := OneMore(s, sep);
    assert Split(rest, sep)[0] == p[1] && Split(rest, sep)[1] == p[2];
    var last := OneMore(rest, sep);
    NoneLeft(last, sep);
    assert last == Split(last, sep)[0] == p[2];
    Reassociate(p[0] + [sep], p[1], [sep], p[2]);
  }

  lemma NumberParts(y: string, m: string, n: string)
    ensures ParseI32(y).Some? && '-' !in y ==> Says(y, ParseI32(y).value)
    ensures ParseU8(m).Some? ==> Says(m, ParseU8(m).value)
    ensures forall v :: Says(y, v) && v < 0x8000_0000 ==> ParseI32(y) == Some(v) && '-' !in y
    ensures forall v :: Says(m, v) && v < 256 ==> ParseU8(m) == Some(v) && '-' !in m
  {
  }

  /** A text is read as a date exactly if it is three numbers with dashes between them, that
      are its year, month and day. */
  lemma IsoDateExactly(s: string, d: Date)
    ensures ParseIsoDate(s) == Some(d) <==>
            ValidDate(d)
            && exists y, m, n :: s == y + "-" + m + "-" + n && Says(y, d.year) && Says(m, d.month) && Says(n, d.day)
  {
    if ParseIsoDate(s) == Some(d) {
      var p := Split(s, '-');
      SplitJoins(s, '-');
      NumberParts(p[0], p[1], p[2]);
      NumberParts(p[0], p[2], p[1]);
    }
    if ValidDate(d) {
      forall y, m, n | s == y + "-" + m + "-" + n && Says(y, d.year) && Says(m, d.month) && Says(n, d.day)
        ensures ParseIsoDate(s) == Some(d)
      {
        NumberParts(y, m, n);
        NumberParts(y, n, m);
        SplitThree(y, m, n, '-');
      }
    }
  }

  /** The parts of a text that begins with a printed date. */
  lemma PrintedParts(s: string, d: Date)
    requires ValidDate(d) && d.year >= 0 && |s| >= 10 && s[..10] == DateText(d)
    ensures s[0..4] == PadText(d.year, 4) && s[5..7] == PadText(d.month, 2) && s[8..10] == PadText(d.day, 2)
    ensures s[4] == '-' && s[7] == '-'
    ensures NatValue(s[0..4]) == d.year && NatValue(s[5..7]) == d.month && NatValue(s[8..10]) == d.day
  {
    var t := DateText(d);
    assert s[0..4] == s[..10][0..4] == t[0..4] && s[5..7] == s[..10][5..7] == t[5..7];
    assert s[8..10] == s[..10][8..10] == t[8..10] && s[4] == s[..10][4] == t[4] && s[7] == s[..10][7] == t[7];
    assert Pow10(2) == 100 && Pow10(4) == 10000;
    PadTextValue(d.year, 4);
    PadTextValue(d.month, 2);
    PadTextValue(d.day, 2);
  }

  lemma PartsPrint(s: string, d: Date)
    requires |s| >= 10 && AllDigits(s[0..4]) && s[4] == '-' && AllDigits(s[5..7]) && s[7] == '-' && AllDigits(s[8..10])
    requires ValidDate(d) && d == Date(NatValue(s[0..4]), NatValue(s[5..7]), NatValue(s[8..10]))
    ensures s[..10] == DateText(d)
  {
    ValuePadText(s[0..4]);
    ValuePadText(s[5..7]);
    ValuePadText(s[8..10]);
    assert s[..10] == s[0..4] + "-" + s[5..7] + "-" + s[8..10];
  }

  /** A text is read by the RFC 3339 reader exactly if it begins with the printed date, any
      separator, two digits and a colon, and the crate accepts what follows. */
  lemma Rfc3339Exactly(s: string, rest: string -> bool, d: Date)
    ensures ParseRfc3339Date(s, rest) == Some(d) <==>
            ValidDate(d) && d.year >= 0
            && |s| >= 14 && s[..10] == DateText(d) && AllDigits(s[11..13]) && s[13] == ':' && rest(s[14..])
  {
    if ParseRfc3339Date(s, rest) == Some(d) {
      PartsPrint(s, d);
    } else if ValidDate(d) && d.year >= 0 && |s| >= 14 && s[..10] == DateText(d) {
      PrintedParts(s, d);
    }
  }

  /** A text with digits and dashes in the places of a full date is read alike. */
  lemma FixedWidthAgrees(s: string)
    requires |s| == 10 && s[4] == '-' && s[7] == '-'
    requires AllDigits(s[0..4]) && AllDigits(s[5..7]) && AllDigits(s[8..10])
    ensures ParseIsoDate(s) == FromCalendar(NatValue(s[0..4]), NatValue(s[5..7]), NatValue(s[8..10]))
  {
    var y, m, n := s[0..4], s[5..7], s[8..10];
    assert s == y + ['-'] + m + ['-'] + n;
    SplitThree(y, m, n, '-');
    ValuePadText(y);
    ValuePadText(m);
    ValuePadText(n);
    assert Pow10(2) == 100 && Pow10(4) == 10000;
    assert IsDigit(y[0]) && IsDigit(m[0]) && IsDigit(n[0]);
  }

  lemma PlainDateReadsBack(d: Date)
    requires ValidDate(d) && d.year >= 0
    ensures ParseIsoDate(DateText(d)) == Some(d)
  {
    var s := DateText(d);
    assert s[0..4] == PadText(d.year, 4) && s[5..7] == PadText(d.month, 2) && s[8..10] == PadText(d.day, 2);
    FixedWidthAgrees(s);
    assert Pow10(2) == 100 && Pow10(4) == 10000;
    PadTextValue(d.year, 4);
    PadTextValue(d.month, 2);
    PadTextValue(d.day, 2);
  }

  /** A leading dash makes an empty first part, which is no year. */
  lemma LeadingDashRefused(s: string)
    requires s != "" && s[0] == '-'
    ensures ParseIsoDate(s).None?
  {
  }

  /** `parse_iso_date` undoes the printing of a date exactly for the years from 0 on:
      the sign of a negative year is taken for a separator. */
  lemma IsoDateReadsPrinted(d: Date)
    requires ValidDate(d)
    ensures ParseIsoDate(DateText(d)) == Some(d) <==> d.year >= 0
  {
    if d.year >= 0 {
      PlainDateReadsBack(d);
    } else {
      LeadingDashRefused(DateText(d));
    }
  }

  // ---------------------------------------------------------------------------
  // The two readers agree
  // ---------------------------------------------------------------------------

  lemma {:induction false} SplitCovers(s: string, sep: char, i: nat) returns (k: nat)
    requires i < |s| && s[i] != sep
    ensures k < |Split(s, sep)| && s[i] in Split(s, sep)[k]
    decreases |s|
  {
    var n := IndexOf(s, sep);
    if i < n {
      k := 0;
      if n < |s| { assert s[..n][i] == s[i]; }
    } else {
      var tail := s[n + 1..];
      assert tail[i - n - 1] == s[i];
      var j := SplitCovers(tail, sep, i - n - 1);
      k := j + 1;
    }
  }

  predicate IsDateChar(c: char) { IsDigit(c) || c == '+' || c == '-' }

  lemma PartChars(p: string, c: char)
    requires ParseI32(p).Some? || ParseU8(p).Some?
    requires c in p
    ensures IsDateChar(c)
  {
  }

  lemma IsoDateChars(s: string)
    requires ParseIsoDate(s).Some?
    ensures forall i :: 0 <= i < |s| ==> IsDateChar(s[i])
  {
    forall i | 0 <= i < |s|
      ensures IsDateChar(s[i])
    {
      if s[i] != '-' {
        var k := SplitCovers(s, '-', i);
        assert k == 0 || k == 1 || k == 2;
        PartChars(Split(s, '-')[k], s[i]);
      }
    }
  }

  lemma Rfc3339AgreesOnDateTime(s: string, t: string, rest: string -> bool)
    requires ParseIsoDate(s).Some?
    requires ParseRfc3339Date(s + "T" + t, rest).Some?
    ensures ParseRfc3339Date(s + "T" + t, rest) == ParseIsoDate(s)
  {
    var w := s + "T" + t;
    IsoDateChars(s);
    assert w[|s|] == 'T';
    assert forall i :: 0 <= i < |s| ==> w[i] == s[i];
    assert IsDigit(w[0..4][0]) && IsDigit(w[0..4][1]) && IsDigit(w[0..4][2]) && IsDigit(w[0..4][3]);
    assert IsDigit(w[5..7][0]) && IsDigit(w[5..7][1]) && IsDigit(w[8..10][0]) && IsDigit(w[8..10][1]);
    assert IsDigit(w[11..13][0]) && IsDigit(w[11..13][1]);
    assert |s| == 10;
    assert w[0..4] == s[0..4] && w[5..7] == s[5..7] && w[8..10] == s[8..10];
    FixedWidthAgrees(s);
  }

  /** Whatever `parse_iso_date` accepts, `parse_filter_date` reads as the same date,
      alone and followed by "T" and any text at all. */
  lemma FilterDateAgrees(s: string, t: string, rest: string -> bool)
    requires ParseIsoDate(s).Some?
    ensures ParseFilterDate(s, rest) == ParseIsoDate(s)
    ensures ParseFilterDate(s + "T" + t, rest) == ParseIsoDate(s)
  {
    IsoDateChars(s);
    assert |s| >= 14 ==> s[13] != ':';
    SplitNone(s, 'T');
    SplitOnce(s, 'T', t);
    if ParseRfc3339Date(s + "T" + t, rest).Some? {
      Rfc3339AgreesOnDateTime(s, t, rest);
    }
  }
}
