/** Backup folder names, `GestStock-Backup-YYYYMMDD-HHMMSS`, and the time they stand for. */
module BundleName {
  import opened Text
  import opened Calendar

  const PREFIX := "GestStock-Backup-"

  /** `backup_proof::bundle_directory_name`, for the years the format has room for. */
  function Print(m: Moment): string
    requires ValidMoment(m) && 0 <= m.date.year
  {
    PREFIX + TimeStamp(m)
  }

  function TimeStamp(m: Moment): (s: string)
    requires ValidMoment(m) && 0 <= m.date.year
    ensures |s| == 15
  {
    PadText(m.date.year, 4) + PadText(m.date.month, 2) + PadText(m.date.day, 2) + "-"
    + PadText(m.hour, 2) + PadText(m.minute, 2) + PadText(m.second, 2)
  }

  function StripPrefix(value: string): Option<string>
  {
    if StartsWith(value, PREFIX) then Some(value[|PREFIX|..]) else None
  }

  /** Fifteen characters, all digits but the dash in the middle. The source counts
      bytes; a text with a non-ASCII character fails the digit test either way. */
  predicate IsTimeStampShape(s: string)
  {
    |s| == 15 && s[8] == '-' && forall i :: 0 <= i < 15 ==> i == 8 || IsDigit(s[i])
  }

  /** `is_canonical_bundle_identifier`. */
  predicate IsCanonicalBundleIdentifier(value: string)
  {
    var timestamp := StripPrefix(value);
    timestamp.Some? && IsTimeStampShape(timestamp.value)
  }

  /** The number written in `s[from..to]`. */
  function Digits(s: string, from: nat, to: nat): nat
    requires from <= to <= |s| && AllDigits(s[from..to])
  {
    NatValue(s[from..to])
  }

  /** `parse_bundle_identifier_time`. */
  function Parse(value: string): (r: Option<Moment>)
    ensures r.Some? ==> ValidMoment(r.value) && 0 <= r.value.date.year
  {
    match StripPrefix(value)
    case None => None
    case Some(s) =>
      if !IsTimeStampShape(s) then None
      else
        match FromCalendar(Digits(s, 0, 4), Digits(s, 4, 6), Digits(s, 6, 8))
        case None => None
        case Some(date) =>
          var m := Moment(date, Digits(s, 9, 11), Digits(s, 11, 13), Digits(s, 13, 15));
          if m.hour < 24 && m.minute < 60 && m.second < 60 then Some(m) else None
  }

  /** The shape of a name: the prefix, eight digits, a dash and six digits. */
  lemma CanonicalIs(value: string)
    ensures IsCanonicalBundleIdentifier(value) <==>
            "GestStock-Backup-" <= value && |value| == 32 && value[25] == '-'
            && AllDigits(value[17..25]) && AllDigits(value[26..])
  {
    if PREFIX <= value && |value| == 32 {
      var s := value[17..];
      assert s[8] == value[25] && s[..8] == value[17..25] && s[9..] == value[26..];
      assert forall i :: 0 <= i < 8 ==> s[i] == s[..8][i];
      assert forall i :: 9 <= i < 15 ==> s[i] == s[9..][i - 9];
    }
  }

  lemma StripPrinted(s: string)
    ensures StripPrefix(PREFIX + s) == Some(s)
  {
  }

  /** The six fields of a time stamp, read back. */
  lemma TimeStampFields(m: Moment)
    requires ValidMoment(m) && 0 <= m.date.year
    ensures IsTimeStampShape(TimeStamp(m))
    ensures TimeStamp(m)[0..4] == PadText(m.date.year, 4)
    ensures TimeStamp(m)[4..6] == PadText(m.date.month, 2)
    ensures TimeStamp(m)[6..8] == PadText(m.date.day, 2)
    ensures TimeStamp(m)[9..11] == PadText(m.hour, 2)
    ensures TimeStamp(m)[11..13] == PadText(m.minute, 2)
    ensures TimeStamp(m)[13..15] == PadText(m.second, 2)
  {
  }

  /** Every valid time in years 0 to 9999 prints to a name that is read back to it. */
  lemma ParsePrint(m: Moment)
    requires ValidMoment(m) && 0 <= m.date.year
    ensures Parse(Print(m)) == Some(m)
  {
    var s := TimeStamp(m);
    StripPrinted(s);
    TimeStampFields(m);
    assert Pow10(2) == 100 && Pow10(4) == 10000;
    PadTextValue(m.date.year, 4);
    PadTextValue(m.date.month, 2);
    PadTextValue(m.date.day, 2);
    PadTextValue(m.hour, 2);
    PadTextValue(m.minute, 2);
    PadTextValue(m.second, 2);
  }

  lemma DigitsPad(s: string, from: nat, to: nat)
    requires from <= to <= |s| && AllDigits(s[from..to])
    ensures PadText(Digits(s, from, to), to - from) == s[from..to]
  {
    ValuePadText(s[from..to]);
  }

  /** Every accepted name is the canonical print of its time. */
  lemma PrintParse(value: string)
    requires Parse(value).Some?
    ensures Print(Parse(value).value) == value
  {
    var s := StripPrefix(value).value;
    DigitsPad(s, 0, 4);
    DigitsPad(s, 4, 6);
    DigitsPad(s, 6, 8);
    DigitsPad(s, 9, 11);
    DigitsPad(s, 11, 13);
    DigitsPad(s, 13, 15);
    assert s == s[0..4] + s[4..6] + s[6..8] + "-" + s[9..11] + s[11..13] + s[13..15];
    assert value == PREFIX + s;
  }

  /** A name is accepted exactly when it is the print of some valid time. */
  lemma AcceptedIffPrinted(value: string)
    ensures Parse(value).Some? <==>
            exists m :: ValidMoment(m) && 0 <= m.date.year && Print(m) == value
  {
    if Parse(value).Some? {
      PrintParse(value);
    }
    if m :| ValidMoment(m) && 0 <= m.date.year && Print(m) == value {
      ParsePrint(m);
    }
  }

  /** Accepted names pass the shape check used by the catalog and by retention. */
  lemma AcceptedIsCanonical(value: string)
    requires Parse(value).Some?
    ensures IsCanonicalBundleIdentifier(value)
  {
  }

  /** Of the names with the right shape, exactly those are accepted whose digits make a
      date of the calendar and a time of day. */
  lemma CanonicalAccepted(value: string)
    requires IsCanonicalBundleIdentifier(value)
    ensures var s := value[|PREFIX|..];
      && IsTimeStampShape(s)
      && (Parse(value).Some? <==>
            && 1 <= Digits(s, 4, 6) <= 12
            && 1 <= Digits(s, 6, 8) <= DaysInMonth(Digits(s, 0, 4), Digits(s, 4, 6))
            && Digits(s, 9, 11) < 24 && Digits(s, 11, 13) < 60 && Digits(s, 13, 15) < 60)
  {
    var s := value[|PREFIX|..];
    assert AllDigits(s[0..4]);
    ValuePadText(s[0..4]);
    assert Digits(s, 0, 4) < Pow10(4) == 10000;
  }

  /** The shape check alone lets names through that stand for no time. */
  lemma CanonicalNeedNotBeAccepted()
    ensures IsCanonicalBundleIdentifier(PREFIX + "20261301-000000")
    ensures Parse(PREFIX + "20261301-000000").None?
  {
    var s := "20261301-000000";
    StripPrinted(s);
    assert s[4..6] == "13";
    assert NatValue("13") == 13 by { assert "13"[..1] == "1" && "1"[..0] == ""; }
  }

  // ---------------------------------------------------------------------------
  // Order
  // ---------------------------------------------------------------------------

  /** Two texts that start with fixed-width numbers compare by these numbers first. */
  lemma FieldOrder(a: nat, b: nat, width: nat, x: string, y: string)
    requires a < Pow10(width) && b < Pow10(width)
    ensures Less(PadText(a, width) + x, PadText(b, width) + y) <==> a < b || (a == b && Less(x, y))
  {
    if a < b {
      PadTextOrder(a, b, width, x, y);
    } else if b < a {
      PadTextOrder(b, a, width, y, x);
      LessAsymmetric(PadText(b, width) + y, PadText(a, width) + x);
    } else {
      LessAfterPrefix(PadText(a, width), x, y);
    }
  }

  /** A time stamp taken apart field by field. */
  lemma TimeStampNested(m: Moment)
    requires ValidMoment(m) && 0 <= m.date.year
    ensures TimeStamp(m) == PadText(m.date.year, 4) + (PadText(m.date.month, 2) + (PadText(m.date.day, 2)
                            + ("-" + (PadText(m.hour, 2) + (PadText(m.minute, 2) + (PadText(m.second, 2) + ""))))))
  {
  }

  lemma TimeOfDayOrder(a: Moment, b: Moment)
    requires ValidMoment(a) && ValidMoment(b)
    ensures Less("-" + (PadText(a.hour, 2) + (PadText(a.minute, 2) + (PadText(a.second, 2) + ""))),
                 "-" + (PadText(b.hour, 2) + (PadText(b.minute, 2) + (PadText(b.second, 2) + ""))))
        <==> a.hour < b.hour
             || (a.hour == b.hour && (a.minute < b.minute || (a.minute == b.minute && a.second < b.second)))
  {
    var sa, sb := PadText(a.second, 2) + "", PadText(b.second, 2) + "";
    var ma, mb := PadText(a.minute, 2) + sa, PadText(b.minute, 2) + sb;
    var ha, hb := PadText(a.hour, 2) + ma, PadText(b.hour, 2) + mb;
    assert Pow10(2) == 100;
    FieldOrder(a.second, b.second, 2, "", "");
    FieldOrder(a.minute, b.minute, 2, sa, sb);
    FieldOrder(a.hour, b.hour, 2, ma, mb);
    LessAfterPrefix("-", ha, hb);
  }

  lemma TimeStampOrder(a: Moment, b: Moment)
    requires ValidMoment(a) && ValidMoment(b) && 0 <= a.date.year && 0 <= b.date.year
    ensures Less(TimeStamp(a), TimeStamp(b)) <==> Before(a, b)
  {
    var ta := "-" + (PadText(a.hour, 2) + (PadText(a.minute, 2) + (PadText(a.second, 2) + "")));
    var tb := "-" + (PadText(b.hour, 2) + (PadText(b.minute, 2) + (PadText(b.second, 2) + "")));
    var da, db := PadText(a.date.day, 2) + ta, PadText(b.date.day, 2) + tb;
    var ma, mb := PadText(a.date.month, 2) + da, PadText(b.date.month, 2) + db;
    assert Pow10(2) == 100 && Pow10(4) == 10000;
    TimeStampNested(a);
    TimeStampNested(b);
    TimeOfDayOrder(a, b);
    FieldOrder(a.date.day, b.date.day, 2, ta, tb);
    FieldOrder(a.date.month, b.date.month, 2, da, db);
    FieldOrder(a.date.year, b.date.year, 4, ma, mb);
  }

  /** Sorting accepted names as text sorts the backups by time. */
  lemma NameOrderIsTimeOrder(x: string, y: string)
    requires Parse(x).Some? && Parse(y).Some?
    ensures Less(x, y) <==> Seconds(Parse(x).value) < Seconds(Parse(y).value)
  {
    var a, b := Parse(x).value, Parse(y).value;
    PrintParse(x);
    PrintParse(y);
    LessAfterPrefix(PREFIX, TimeStamp(a), TimeStamp(b));
    TimeStampOrder(a, b);
    SecondsOrder(a, b);
  }
}
