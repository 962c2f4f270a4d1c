/** The company logo: a file in the assets directory and its name in the database. The
    process may stop between any two steps of a call. */
module LogoStore {
  import opened Text
  import Base64
  import Utf8

  type byte = Utf8.byte
  type Files = map<string, seq<byte>>

  const MAX_LOGO_BYTES: nat := 2 * 1024 * 1024

  const MAX_PATH_BYTES: nat := 4096

  // ---------------------------------------------------------------------------
  // Names
  // ---------------------------------------------------------------------------

  predicate Contains(s: string, part: string)
  {
    exists i :: 0 <= i <= |s| - |part| && StartsWith(s[i..], part)
  }

  /** `Path::extension` of a file name: what follows its last dot, unless the dot is its
      first character or there is none. */
  function Extension(name: string): Option<string>
  {
    if |name| <= 1 then None
    else if name[|name| - 1] == '.' then Some("")
    else match Extension(name[..|name| - 1])
         case None => None
         case Some(front) => Some(front + [name[|name| - 1]])
  }

  predicate Supported(extension: string)
  {
    extension == "png" || extension == "jpg" || extension == "jpeg" || extension == "webp"
  }

  function LogoName(extension: string): string { "logo." + extension }

  function TemporaryName(extension: string, nanos: nat): string
  {
    "logo." + extension + ".tmp-" + NatText(nanos)
  }

  /** The files that count as logos: temporary ones do not. */
  predicate IsLogoFile(name: string) { StartsWith(name, "logo.") && !Contains(name, ".tmp-") }

  /** A logo file's name begins with "logo." and has nothing of a temporary name in it. */
  lemma IsLogoFileIs(name: string)
    ensures IsLogoFile(name) <==> "logo." <= name && forall a, b :: name != a + ".tmp-" + b
  {
    forall a, b | name == a + ".tmp-" + b ensures Contains(name, ".tmp-") {
      assert name[|a|..][..5] == ".tmp-";
    }
    if i :| 0 <= i <= |name| - 5 && StartsWith(name[i..], ".tmp-") {
      assert name[i..][..5] == name[i..i + 5];
      assert name == name[..i] + ".tmp-" + name[i + 5..];
    }
  }

  // ---------------------------------------------------------------------------
  // Contents
  // ---------------------------------------------------------------------------

  const PNG_MAGIC: seq<byte> := [0x89, 0x50, 0x4E, 0x47, 0x0D, 0x0A, 0x1A, 0x0A]
  const JPEG_MAGIC: seq<byte> := [0xFF, 0xD8, 0xFF]
  const RIFF_MAGIC: seq<byte> := [0x52, 0x49, 0x46, 0x46]
  const WEBP_MAGIC: seq<byte> := [0x57, 0x45, 0x42, 0x50]

  predicate IsPng(bytes: seq<byte>) { StartsWith(bytes, PNG_MAGIC) }

  predicate IsJpeg(bytes: seq<byte>) { StartsWith(bytes, JPEG_MAGIC) }

  predicate IsWebp(bytes: seq<byte>) { |bytes| >= 12 && bytes[0..4] == RIFF_MAGIC && bytes[8..12] == WEBP_MAGIC }

  /** `magic_bytes_match`. */
  predicate MagicMatches(extension: string, bytes: seq<byte>)
  {
    if extension == "png" then IsPng(bytes)
    else if extension == "jpg" || extension == "jpeg" then IsJpeg(bytes)
    else if extension == "webp" then IsWebp(bytes)
    else false
  }

  function Mime(extension: string): Option<string>
  {
    if extension == "png" then Some("image/png")
    else if extension == "jpg" || extension == "jpeg" then Some("image/jpeg")
    else if extension == "webp" then Some("image/webp")
    else None
  }

  /** The type that the content itself speaks for. */
  function SniffedMime(bytes: seq<byte>): Option<string>
  {
    if IsWebp(bytes) then Some("image/webp")
    else if IsJpeg(bytes) then Some("image/jpeg")
    else if IsPng(bytes) then Some("image/png")
    else None
  }

  lemma MagicIsExclusive(bytes: seq<byte>)
    ensures !(IsPng(bytes) && IsJpeg(bytes)) && !(IsPng(bytes) && IsWebp(bytes)) && !(IsJpeg(bytes) && IsWebp(bytes))
  {
    if |bytes| >= 3 {
      assert IsPng(bytes) ==> bytes[0] == PNG_MAGIC[0];
      assert IsJpeg(bytes) ==> bytes[0] == JPEG_MAGIC[0];
      assert IsWebp(bytes) ==> bytes[0] == RIFF_MAGIC[0];
    }
  }

  // ---------------------------------------------------------------------------
  // Reading the logo
  // ---------------------------------------------------------------------------

  function DataUrl(mime: string, bytes: seq<byte>): string
  {
    "data:" + mime + ";base64," + Base64.Encode(bytes)
  }

  /** `get_company_logo`, for a directory of readable regular files. */
  function GetCompanyLogo(files: Files, recorded: Option<string>): Option<string>
  {
    if recorded.None? || recorded.value == "" || recorded.value !in files then None
    else
      var bytes := files[recorded.value];
      if |bytes| > MAX_LOGO_BYTES then None
      else match Extension(recorded.value)
           case None => None
           case Some(extension) =>
             match Mime(LowerAscii(extension))
             case None => None
             case Some(mime) => Some(DataUrl(mime, bytes))
  }

  /** A reader of data URLs: the type up to the semicolon, and the decoded content. */
  function ReadDataUrl(url: string): Option<(string, seq<byte>)>
  {
    if !StartsWith(url, "data:") then None
    else
      var rest := url[5..];
      var k := IndexOf(rest, ';');
      if k == |rest| || !StartsWith(rest[k..], ";base64,") then None
      else match Base64.Decode(rest[k + 8..])
           case None => None
           case Some(bytes) => Some((rest[..k], bytes))
  }

  lemma TypeEnds(mime: string, text: string)
    requires ';' !in mime
    ensures var rest := mime + ";base64," + text;
      && IndexOf(rest, ';') == |mime| && rest[..|mime|] == mime
      && StartsWith(rest[|mime|..], ";base64,") && rest[|mime| + 8..] == text
  {
    var rest := mime + ";base64," + text;
    assert rest[|mime|] == ';' && forall i :: 0 <= i < |mime| ==> rest[i] == mime[i];
    assert rest[|mime|..][..8] == ";base64,";
  }

  lemma ReadDataUrlBack(mime: string, bytes: seq<byte>)
    requires ';' !in mime
    ensures ReadDataUrl(DataUrl(mime, bytes)) == Some((mime, bytes))
  {
    var url, rest := DataUrl(mime, bytes), mime + ";base64," + Base64.Encode(bytes);
    assert url == "data:" + rest;
    assert url[..5] == "data:" && url[5..] == rest;
    TypeEnds(mime, Base64.Encode(bytes));
    Base64.DecodeEncode(bytes);
  }

  lemma {:induction false} ExtensionAfterDot(front: string, extension: string)
    requires |front| > 0 && '.' !in extension
    ensures Extension(front + "." + extension) == Some(extension)
  {
    var name := front + "." + extension;
    if |extension| > 0 {
      var shorter := extension[..|extension| - 1];
      ExtensionAfterDot(front, shorter);
      assert name[..|name| - 1] == front + "." + shorter;
      assert name[|name| - 1] == extension[|extension| - 1];
      assert shorter + [extension[|extension| - 1]] == extension;
    }
  }

  /** The extension is what follows the last dot, which is not the first character. */
  lemma {:induction false} ExtensionIs(name: string) returns (front: string)
    requires Extension(name).Some?
    ensures front != "" && name == front + "." + Extension(name).value && '.' !in Extension(name).value
  {
    if name[|name| - 1] == '.' {
      front := name[..|name| - 1];
    } else {
      front := ExtensionIs(name[..|name| - 1]);
      assert name == name[..|name| - 1] + [name[|name| - 1]];
    }
  }

  /** A logo is shown exactly if a file of at most two megabytes is recorded that has the
      extension of an image, in whatever case; and what is shown is its exact content under
      that type. */
  lemma ShownExactly(files: Files, recorded: Option<string>)
    ensures GetCompanyLogo(files, recorded).Some? <==>
            && recorded.Some? && recorded.value in files && |files[recorded.value]| <= 2097152
            && Extension(recorded.value).Some?
            && LowerAscii(Extension(recorded.value).value) in ["png", "jpg", "jpeg", "webp"]
    ensures GetCompanyLogo(files, recorded).Some? ==>
              var (mime, bytes) := (match LowerAscii(Extension(recorded.value).value)
                                    case "png" => "image/png"
                                    case "webp" => "image/webp"
                                    case _ => "image/jpeg", files[recorded.value]);
              ReadDataUrl(GetCompanyLogo(files, recorded).value) == Some((mime, bytes))
  {
    if GetCompanyLogo(files, recorded).Some? {
      ReadDataUrlBack(Mime(LowerAscii(Extension(recorded.value).value)).value, files[recorded.value]);
    }
  }

  lemma LowerSupported(extension: string)
    requires Supported(extension)
    ensures LowerAscii(extension) == extension && '.' !in extension
    ensures Mime(extension).Some? && ';' !in Mime(extension).value
  {
    LowerLetters(extension);
  }

  lemma {:induction false} LowerLetters(s: string)
    requires forall i :: 0 <= i < |s| ==> 'a' <= s[i] <= 'z'
    ensures LowerAscii(s) == s
  {
    if |s| > 0 { LowerLetters(s[1..]); }
  }

  /** Whatever its content, a logo of the right size is shown under its exact bytes. */
  lemma ShownBytes(files: Files, extension: string)
    requires Supported(extension) && LogoName(extension) in files && |files[LogoName(extension)]| <= MAX_LOGO_BYTES
    ensures GetCompanyLogo(files, Some(LogoName(extension))).Some?
    ensures ReadDataUrl(GetCompanyLogo(files, Some(LogoName(extension))).value)
         == Some((Mime(extension).value, files[LogoName(extension)]))
  {
    LowerSupported(extension);
    ExtensionAfterDot("logo", extension);
    assert LogoName(extension) == "logo" + "." + extension;
    ReadDataUrlBack(Mime(extension).value, files[LogoName(extension)]);
  }

  /** A recorded logo whose content was checked is shown as a data URL that carries its
      exact bytes, under the type that its first bytes speak for. */
  lemma ShownLogo(files: Files, extension: string)
    requires Supported(extension) && LogoName(extension) in files
    requires MagicMatches(extension, files[LogoName(extension)]) && |files[LogoName(extension)]| <= MAX_LOGO_BYTES
    ensures GetCompanyLogo(files, Some(LogoName(extension))).Some?
    ensures ReadDataUrl(GetCompanyLogo(files, Some(LogoName(extension))).value)
         == Some((Mime(extension).value, files[LogoName(extension)]))
    ensures SniffedMime(files[LogoName(extension)]) == Mime(extension)
  {
    ShownBytes(files, extension);
    MagicIsExclusive(files[LogoName(extension)]);
  }
}
