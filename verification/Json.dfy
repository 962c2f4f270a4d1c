/** JSON values as `serde_json::Value` holds them, the compact text that
    `serde_json::to_vec` prints (RFC 8259, sections 4 to 7), and a reader for that
    text. The reader is the independent reference for the printer: `ParsePrint`
    says that it gets back exactly the printed value, whatever follows. */
module Json {
  import opened Text

  /** `Obj` keeps its fields in insertion order, which covers both map types that
      `serde_json` can be built with. A number is its printed token. */
  datatype Json =
    | Null
    | Bool(value: bool)
    | Number(token: string)
    | Str(text: string)
    | Arr(items: seq<Json>)
    | Obj(fields: seq<Field>)

  datatype Field = Field(key: string, value: Json)

  predicate IsNumberChar(c: char)
  {
    IsDigit(c) || c == '-' || c == '+' || c == '.' || c == 'e' || c == 'E'
  }

  predicate IsNumberToken(t: string)
  {
    |t| > 0 && forall i :: 0 <= i < |t| ==> IsNumberChar(t[i])
  }

  predicate DistinctKeys(fields: seq<Field>)
  {
    forall i, j :: 0 <= i < j < |fields| ==> fields[i].key != fields[j].key
  }

  /** What the Rust types guarantee: numbers have a token, and the keys of an
      object are distinct, at every depth. */
  predicate Valid(j: Json)
  {
    match j
    case Number(t) => IsNumberToken(t)
    case Arr(items) => forall i :: 0 <= i < |items| ==> Valid(items[i])
    case Obj(fields) =>
      DistinctKeys(fields) && forall i :: 0 <= i < |fields| ==> Valid(fields[i].value)
    case _ => true
  }

  function Int(n: int): (j: Json)
    ensures Valid(j)
  {
    assert n < 0 ==> IntText(n)[1..] == NatText(-n);
    Number(IntText(n))
  }

  // ---------------------------------------------------------------------------
  // Printing
  // ---------------------------------------------------------------------------

  function HexDigit(d: nat): char
    requires d < 16
  {
    if d < 10 then DigitChar(d) else ('a' as int + d - 10) as char
  }

  function EscapeChar(c: char): string
  {
    if c == '\"' then "\\\""
    else if c == '\\' then "\\\\"
    else if c == '\U{8}' then "\\b"
    else if c == '\t' then "\\t"
    else if c == '\n' then "\\n"
    else if c == '\U{C}' then "\\f"
    else if c == '\r' then "\\r"
    else if c as int < 0x20 then ['\\', 'u', '0', '0', HexDigit(c as int / 16), HexDigit(c as int % 16)]
    else [c]
  }

  function EscapeText(s: string): string
  {
    if s == "" then "" else EscapeChar(s[0]) + EscapeText(s[1..])
  }

  function Quote(s: string): string { "\"" + EscapeText(s) + "\"" }

  function Print(j: Json): string
    decreases j, 0
  {
    match j
    case Null => "null"
    case Bool(b) => if b then "true" else "false"
    case Number(t) => t
    case Str(s) => Quote(s)
    case Arr(items) => "[" + PrintItems(items) + "]"
    case Obj(fields) => "{" + PrintFields(fields) + "}"
  }

  function PrintItems(items: seq<Json>): string
    decreases items, 0
  {
    if |items| == 0 then ""
    else if |items| == 1 then Print(items[0])
    else Print(items[0]) + "," + PrintItems(items[1..])
  }

  function PrintField(f: Field): string
    decreases f, 1
  {
    Quote(f.key) + ":" + Print(f.value)
  }

  function PrintFields(fields: seq<Field>): string
    decreases fields, 0
  {
    if |fields| == 0 then ""
    else if |fields| == 1 then PrintField(fields[0])
    else PrintField(fields[0]) + "," + PrintFields(fields[1..])
  }

  // ---------------------------------------------------------------------------
  // Reading
  // ---------------------------------------------------------------------------

  function HexValue(c: char): Option<nat>
  {
    if '0' <= c <= '9' then Some(c as int - '0' as int)
    else if 'a' <= c <= 'f' then Some(c as int - 'a' as int + 10)
    else if 'A' <= c <= 'F' then Some(c as int - 'A' as int + 10)
    else None
  }

  /** One possibly escaped character of a string body and the number of characters
      it takes. Only the escapes that denote a single scalar value below 0x10000
      are read; surrogate pairs are never printed. */
  function ParseChar(s: string): (r: Option<(char, nat)>)
    ensures r.Some? ==> 1 <= r.value.1 <= |s|
  {
    if s == "" || s[0] == '\"' || s[0] as int < 0x20 then None
    else if s[0] != '\\' then Some((s[0], 1))
    else if |s| < 2 then None
    else if s[1] == '\"' then Some(('\"', 2))
    else if s[1] == '\\' then Some(('\\', 2))
    else if s[1] == '/' then Some(('/', 2))
    else if s[1] == 'b' then Some(('\U{8}', 2))
    else if s[1] == 't' then Some(('\t', 2))
    else if s[1] == 'n' then Some(('\n', 2))
    else if s[1] == 'f' then Some(('\U{C}', 2))
    else if s[1] == 'r' then Some(('\r', 2))
    else if s[1] != 'u' || |s| < 6 then None
    else
      match (HexValue(s[2]), HexValue(s[3]), HexValue(s[4]), HexValue(s[5]))
      case (Some(a), Some(b), Some(c), Some(d)) =>
        var n := a * 4096 + b * 256 + c * 16 + d;
        if 0xD800 <= n < 0xE000 || n >= 0x10000 then None else Some((n as char, 6))
      case _ => None
  }

  /** The rest of a string after its opening quote, up to and with the closing one. */
  function ParseText(s: string): (r: Option<(string, string)>)
    ensures r.Some? ==> |r.value.1| < |s|
    decreases |s|
  {
    if s == "" then None
    else if s[0] == '\"' then Some(("", s[1..]))
    else
      match ParseChar(s)
      case None => None
      case Some((c, k)) =>
        match ParseText(s[k..])
        case None => None
        case Some((t, rest)) => Some(([c] + t, rest))
  }

  function NumberLength(s: string): (k: nat)
    ensures k <= |s|
    ensures forall i :: 0 <= i < k ==> IsNumberChar(s[i])
  {
    if s != "" && IsNumberChar(s[0]) then 1 + NumberLength(s[1..]) else 0
  }

  /** Reads one value from the front of a compact text and returns what is left. */
  function ParseValue(s: string): (r: Option<(Json, string)>)
    ensures r.Some? ==> |r.value.1| < |s|
    decreases |s|, 0
  {
    if s == "" then None
    else if s[0] == '\"' then
      match ParseText(s[1..])
      case None => None
      case Some((t, rest)) => Some((Str(t), rest))
    else if s[0] == '[' then
      if |s| > 1 && s[1] == ']' then Some((Arr([]), s[2..]))
      else
        match ParseItems(s[1..])
        case None => None
        case Some((items, rest)) => Some((Arr(items), rest))
    else if s[0] == '{' then
      if |s| > 1 && s[1] == '}' then Some((Obj([]), s[2..]))
      else
        match ParseFields(s[1..])
        case None => None
        case Some((fields, rest)) => Some((Obj(fields), rest))
    else if IsNumberChar(s[0]) then
      var k := NumberLength(s);
      Some((Number(s[..k]), s[k..]))
    else if |s| >= 4 && s[..4] == "null" then Some((Null, s[4..]))
    else if |s| >= 4 && s[..4] == "true" then Some((Bool(true), s[4..]))
    else if |s| >= 5 && s[..5] == "false" then Some((Bool(false), s[5..]))
    else None
  }

  /** A non-empty list of values up to and with the closing bracket. */
  function ParseItems(s: string): (r: Option<(seq<Json>, string)>)
    ensures r.Some? ==> |r.value.1| < |s|
    decreases |s|, 1
  {
    match ParseValue(s)
    case None => None
    case Some((v, rest)) =>
      if rest == "" then None
      else if rest[0] == ']' then Some(([v], rest[1..]))
      else if rest[0] != ',' then None
      else
        match ParseItems(rest[1..])
        case None => None
        case Some((vs, tail)) => Some(([v] + vs, tail))
  }

  function ParseField(s: string): (r: Option<(Field, string)>)
    ensures r.Some? ==> |r.value.1| < |s|
    decreases |s|, 1
  {
    if s == "" || s[0] != '\"' then None
    else
      match ParseText(s[1..])
      case None => None
      case Some((key, rest)) =>
        if rest == "" || rest[0] != ':' then None
        else
          match ParseValue(rest[1..])
          case None => None
          case Some((v, tail)) => Some((Field(key, v), tail))
  }

  /** A non-empty list of fields up to and with the closing brace. */
  function ParseFields(s: string): (r: Option<(seq<Field>, string)>)
    ensures r.Some? ==> |r.value.1| < |s|
    decreases |s|, 2
  {
    match ParseField(s)
    case None => None
    case Some((f, rest)) =>
      if rest == "" then None
      else if rest[0] == '}' then Some(([f], rest[1..]))
      else if rest[0] != ',' then None
      else
        match ParseFields(rest[1..])
        case None => None
        case Some((fs, tail)) => Some(([f] + fs, tail))
  }

  /** A whole document: one value and nothing after it. */
  function Parse(s: string): Option<Json>
  {
    match ParseValue(s)
    case Some((v, rest)) => if rest == "" then Some(v) else None
    case None => None
  }

  // ---------------------------------------------------------------------------
  // Unique readability
  // ---------------------------------------------------------------------------

  lemma ParseEscapedChar(c: char, k: string)
    ensures ParseChar(EscapeChar(c) + k) == Some((c, |EscapeChar(c)|))
  {
  }

  lemma ReadChar(e: string, c: char, tail: string, t: string, k: string)
    requires e != "" && e[0] != '\"'
    requires ParseChar(e + tail) == Some((c, |e|)) && ParseText(tail) == Some((t, k))
    ensures ParseText(e + tail) == Some(([c] + t, k))
  {
  }

  lemma {:induction false} ParseEscapedText(t: string, k: string)
    ensures ParseText(EscapeText(t) + "\"" + k) == Some((t, k))
    decreases |t|
  {
    if t == "" {
      assert EscapeText(t) + "\"" + k == "\"" + k;
      assert ("\"" + k)[1..] == k;
    } else {
      var e, body := EscapeChar(t[0]), EscapeText(t[1..]);
      ParseEscapedText(t[1..], k);
      ParseEscapedChar(t[0], body + "\"" + k);
      ReadChar(e, t[0], body + "\"" + k, t[1..], k);
      Regroup(e, body, "\"", k);
      assert t == [t[0]] + t[1..];
    }
  }

  lemma Regroup(a: string, b: string, c: string, d: string)
    ensures (a + b) + c + d == a + (b + c + d)
    ensures a + b + c == a + (b + c)
  {
  }

  lemma RegroupList(p: string, q: string, close: string, k: string)
    ensures p + "," + q + close + k == p + ("," + (q + close + k))
  {
  }

  /** What follows a value must not continue a number. */
  predicate Stops(k: string) { k == "" || !IsNumberChar(k[0]) }

  lemma {:induction false} NumberLengthStops(t: string, k: string)
    requires forall i :: 0 <= i < |t| ==> IsNumberChar(t[i])
    requires Stops(k)
    ensures NumberLength(t + k) == |t|
    decreases |t|
  {
    if t == "" {
      assert t + k == k;
    } else {
      assert (t + k)[1..] == t[1..] + k;
      NumberLengthStops(t[1..], k);
    }
  }

  lemma PrintStart(j: Json)
    requires Valid(j)
    ensures |Print(j)| > 0 && Print(j)[0] != ']'
  {
  }

  // One lemma for each way of reading on.

  lemma ReadLiteral(j: Json, k: string)
    requires j.Null? || j.Bool?
    ensures ParseValue(Print(j) + k) == Some((j, k))
  {
  }

  lemma ReadNumber(t: string, k: string)
    requires IsNumberToken(t) && Stops(k)
    ensures ParseValue(t + k) == Some((Number(t), k))
  {
    NumberLengthStops(t, k);
    assert (t + k)[..|t|] == t && (t + k)[|t|..] == k;
  }

  lemma QuoteTail(t: string, k: string)
    ensures |Quote(t) + k| > 0 && (Quote(t) + k)[0] == '\"'
    ensures (Quote(t) + k)[1..] == EscapeText(t) + "\"" + k
  {
  }

  lemma ReadString(t: string, k: string)
    ensures ParseValue(Quote(t) + k) == Some((Str(t), k))
  {
    ParseEscapedText(t, k);
    QuoteTail(t, k);
  }

  lemma ReadEmpty(k: string)
    ensures ParseValue("[]" + k) == Some((Arr([]), k))
    ensures ParseValue("{}" + k) == Some((Obj([]), k))
  {
  }

  lemma ReadArray(s: string, items: seq<Json>, k: string)
    requires s != "" && s[0] != ']' && ParseItems(s) == Some((items, k))
    ensures ParseValue("[" + s) == Some((Arr(items), k))
  {
  }

  lemma ReadObject(s: string, fields: seq<Field>, k: string)
    requires s != "" && s[0] != '}' && ParseFields(s) == Some((fields, k))
    ensures ParseValue("{" + s) == Some((Obj(fields), k))
  {
  }

  lemma ReadLastItem(s: string, v: Json, k: string)
    requires ParseValue(s) == Some((v, "]" + k))
    ensures ParseItems(s) == Some(([v], k))
  {
  }

  lemma ReadNextItem(s: string, v: Json, tail: string, vs: seq<Json>, k: string)
    requires ParseValue(s) == Some((v, "," + tail)) && ParseItems(tail) == Some((vs, k))
    ensures ParseItems(s) == Some(([v] + vs, k))
  {
  }

  lemma ReadField(key: string, s: string, v: Json, k: string)
    requires ParseValue(s) == Some((v, k))
    ensures ParseField(Quote(key) + ":" + s) == Some((Field(key, v), k))
  {
    ParseEscapedText(key, ":" + s);
    QuoteTail(key, ":" + s);
    Regroup(Quote(key), ":", s, "");
    assert (":" + s)[1..] == s;
  }

  lemma ReadLastField(s: string, f: Field, k: string)
    requires ParseField(s) == Some((f, "}" + k))
    ensures ParseFields(s) == Some(([f], k))
  {
  }

  lemma ReadNextField(s: string, f: Field, tail: string, fs: seq<Field>, k: string)
    requires ParseField(s) == Some((f, "," + tail)) && ParseFields(tail) == Some((fs, k))
    ensures ParseFields(s) == Some(([f] + fs, k))
  {
  }

  /** The printed text of a valid value is read back to that value and leaves
      exactly what followed it. */
  lemma {:induction false} ParsePrint(j: Json, k: string)
    requires Valid(j) && Stops(k)
    ensures ParseValue(Print(j) + k) == Some((j, k))
    decreases j, 0
  {
    match j
    case Null => ReadLiteral(j, k);
    case Bool(_) => ReadLiteral(j, k);
    case Number(t) => ReadNumber(t, k);
    case Str(t) => ReadString(t, k);
    case Arr(items) => ParsePrintArray(items, k);
    case Obj(fields) => ParsePrintObject(fields, k);
  }

  lemma {:induction false} ParsePrintArray(items: seq<Json>, k: string)
    requires forall i :: 0 <= i < |items| ==> Valid(items[i])
    ensures ParseValue("[" + PrintItems(items) + "]" + k) == Some((Arr(items), k))
    decreases items, 1
  {
    if |items| == 0 {
      assert "[" + PrintItems(items) + "]" + k == "[]" + k;
      ReadEmpty(k);
    } else {
      var s := PrintItems(items) + "]" + k;
      ParsePrintItems(items, k);
      PrintStart(items[0]);
      assert s[0] == Print(items[0])[0];
      ReadArray(s, items, k);
      assert "[" + PrintItems(items) + "]" + k == "[" + s;
    }
  }

  lemma {:induction false} ParsePrintObject(fields: seq<Field>, k: string)
    requires forall i :: 0 <= i < |fields| ==> Valid(fields[i].value)
    ensures ParseValue("{" + PrintFields(fields) + "}" + k) == Some((Obj(fields), k))
    decreases fields, 1
  {
    if |fields| == 0 {
      assert "{" + PrintFields(fields) + "}" + k == "{}" + k;
      ReadEmpty(k);
    } else {
      var s := PrintFields(fields) + "}" + k;
      ParsePrintFields(fields, k);
      assert s[0] == PrintField(fields[0])[0] == '\"';
      ReadObject(s, fields, k);
      assert "{" + PrintFields(fields) + "}" + k == "{" + s;
    }
  }

  lemma {:induction false} ParsePrintItems(items: seq<Json>, k: string)
    requires |items| > 0 && forall i :: 0 <= i < |items| ==> Valid(items[i])
    ensures ParseItems(PrintItems(items) + "]" + k) == Some((items, k))
    decreases items, 0
  {
    var v, rest := items[0], items[1..];
    var p := Print(v);
    if |items| == 1 {
      ParsePrint(v, "]" + k);
      ReadLastItem(p + ("]" + k), v, k);
      Regroup(p, "]", k, "");
      assert items == [v];
    } else {
      var q := PrintItems(rest);
      ParsePrint(v, "," + (q + "]" + k));
      ParsePrintItems(rest, k);
      ReadNextItem(p + ("," + (q + "]" + k)), v, q + "]" + k, rest, k);
      RegroupList(p, q, "]", k);
      assert items == [v] + rest;
    }
  }

  lemma {:induction false} ParsePrintField(f: Field, k: string)
    requires Valid(f.value) && Stops(k)
    ensures ParseField(PrintField(f) + k) == Some((f, k))
    decreases f, 1
  {
    ParsePrint(f.value, k);
    ReadField(f.key, Print(f.value) + k, f.value, k);
    Regroup(Quote(f.key) + ":", Print(f.value), k, "");
  }

  lemma {:induction false} ParsePrintFields(fields: seq<Field>, k: string)
    requires |fields| > 0 && forall i :: 0 <= i < |fields| ==> Valid(fields[i].value)
    ensures ParseFields(PrintFields(fields) + "}" + k) == Some((fields, k))
    decreases fields, 0
  {
    var f, rest := fields[0], fields[1..];
    var p := PrintField(f);
    if |fields| == 1 {
      ParsePrintField(f, "}" + k);
      ReadLastField(p + ("}" + k), f, k);
      Regroup(p, "}", k, "");
      assert fields == [f];
    } else {
      var q := PrintFields(rest);
      ParsePrintField(f, "," + (q + "}" + k));
      ParsePrintFields(rest, k);
      ReadNextField(p + ("," + (q + "}" + k)), f, q + "}" + k, rest, k);
      RegroupList(p, q, "}", k);
      assert fields == [f] + rest;
    }
  }

  /** The compact text determines the value. */
  lemma PrintInjective(a: Json, b: Json)
    requires Valid(a) && Valid(b) && Print(a) == Print(b)
    ensures a == b
  {
    ParsePrint(a, "");
    ParsePrint(b, "");
    assert Print(a) + "" == Print(a) && Print(b) + "" == Print(b);
  }

  lemma ParseDocument(j: Json)
    requires Valid(j)
    ensures Parse(Print(j)) == Some(j)
  {
    ParsePrint(j, "");
    assert Print(j) + "" == Print(j);
  }

  // ---------------------------------------------------------------------------
  // No shorter text
  // ---------------------------------------------------------------------------

  /** The digits of an escaped control character are lower-case. */
  lemma EscapesLowerCase(c: char, i: nat)
    requires c as int < 0x20 && i < |EscapeChar(c)|
    ensures EscapeChar(c)[i] == '\\' || IsDigit(EscapeChar(c)[i]) || 'a' <= EscapeChar(c)[i] <= 'z'
  {
  }

  lemma CharShortest(s: string)
    requires ParseChar(s).Some?
    ensures |EscapeChar(ParseChar(s).value.0)| <= ParseChar(s).value.1
  {
  }

  lemma {:induction false} TextShortest(s: string)
    requires ParseText(s).Some?
    ensures |EscapeText(ParseText(s).value.0)| + 1 + |ParseText(s).value.1| <= |s|
    decreases |s|
  {
    if s[0] != '\"' {
      var (c, k) := ParseChar(s).value;
      CharShortest(s);
      TextShortest(s[k..]);
      var t := ParseText(s[k..]).value.0;
      assert ([c] + t)[1..] == t;
    }
  }

  lemma {:induction false} ValueShortest(s: string)
    requires ParseValue(s).Some?
    ensures |Print(ParseValue(s).value.0)| + |ParseValue(s).value.1| <= |s|
    decreases |s|, 0
  {
    if s[0] == '\"' {
      TextShortest(s[1..]);
    } else if s[0] == '[' && !(|s| > 1 && s[1] == ']') {
      ItemsShortest(s[1..]);
    } else if s[0] == '{' && !(|s| > 1 && s[1] == '}') {
      FieldsShortest(s[1..]);
    }
  }

  lemma {:induction false} ItemsShortest(s: string)
    requires ParseItems(s).Some?
    ensures |ParseItems(s).value.0| > 0
    ensures |PrintItems(ParseItems(s).value.0)| + 1 + |ParseItems(s).value.1| <= |s|
    decreases |s|, 1
  {
    ValueShortest(s);
    var (v, rest) := ParseValue(s).value;
    if rest[0] == ',' {
      ItemsShortest(rest[1..]);
      var vs := ParseItems(rest[1..]).value.0;
      assert ([v] + vs)[1..] == vs;
    }
  }

  lemma {:induction false} FieldShortest(s: string)
    requires ParseField(s).Some?
    ensures |PrintField(ParseField(s).value.0)| + |ParseField(s).value.1| <= |s|
    decreases |s|, 1
  {
    TextShortest(s[1..]);
    var rest := ParseText(s[1..]).value.1;
    ValueShortest(rest[1..]);
  }

  lemma {:induction false} FieldsShortest(s: string)
    requires ParseFields(s).Some?
    ensures |ParseFields(s).value.0| > 0
    ensures |PrintFields(ParseFields(s).value.0)| + 1 + |ParseFields(s).value.1| <= |s|
    decreases |s|, 2
  {
    FieldShortest(s);
    var (f, rest) := ParseField(s).value;
    if rest[0] == ',' {
      FieldsShortest(rest[1..]);
      var fs := ParseFields(rest[1..]).value.0;
      assert ([f] + fs)[1..] == fs;
    }
  }

  /** No text is read as the value and shorter than the printed one: nothing is escaped
      that need not be, and nothing is escaped at more length than it must. */
  lemma PrintShortest(j: Json, s: string)
    requires Parse(s) == Some(j)
    ensures |Print(j)| <= |s|
  {
    ValueShortest(s);
  }

  // ---------------------------------------------------------------------------
  // Fields of an object
  // ---------------------------------------------------------------------------

  /** `Map::get`. */
  function Lookup(fields: seq<Field>, key: string): (r: Option<Json>)
  {
    if |fields| == 0 then None
    else if fields[0].key == key then Some(fields[0].value)
    else Lookup(fields[1..], key)
  }

  lemma {:induction false} LookupFound(fields: seq<Field>, i: nat)
    requires DistinctKeys(fields) && i < |fields|
    ensures Lookup(fields, fields[i].key) == Some(fields[i].value)
  {
    if i > 0 {
      assert fields[0].key != fields[i].key;
      LookupFound(fields[1..], i - 1);
    }
  }

  lemma {:induction false} LookupSome(fields: seq<Field>, key: string) returns (i: nat)
    requires Lookup(fields, key).Some?
    ensures i < |fields| && fields[i] == Field(key, Lookup(fields, key).value)
  {
    if fields[0].key == key {
      i := 0;
    } else {
      var k := LookupSome(fields[1..], key);
      i := k + 1;
    }
  }
}
