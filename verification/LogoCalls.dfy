/** Setting and clearing the logo, step by step over the directory and the record. Any
    step can fail, and the process may stop after any step. */
module LogoCalls {
  import opened Text
  import opened LogoStore

  /** What `fs` finds at the chosen path. `content` is absent when reading fails. */
  datatype Source = Source(
    pathBytes: nat,
    regular: bool,
    size: nat,
    extension: Option<string>,
    content: Option<seq<byte>>)

  datatype Error = Validation | NotAFile | TooLarge | UnsupportedType | Internal | Database

  datatype Reply = Done | Refused(error: Error)

  /** The checks before anything is written, in their order. */
  function Check(source: Source): Option<Error>
  {
    if source.pathBytes == 0 || source.pathBytes > MAX_PATH_BYTES then Some(Validation)
    else if !source.regular then Some(NotAFile)
    else if source.size > MAX_LOGO_BYTES then Some(TooLarge)
    else if source.extension.None? || !Supported(LowerAscii(source.extension.value)) then Some(UnsupportedType)
    else if source.content.None? then Some(NotAFile)
    else if |source.content.value| > MAX_LOGO_BYTES then Some(TooLarge)
    else if !MagicMatches(LowerAscii(source.extension.value), source.content.value) then Some(UnsupportedType)
    else None
  }

  /** A chosen file is taken exactly if it is a regular file of at most two megabytes whose
      extension, in whatever case, is that of the type that its first bytes speak for. */
  lemma CheckAccepts(source: Source)
    ensures Check(source).None? <==>
            && 0 < source.pathBytes <= 4096 && source.regular && source.size <= 2097152
            && source.extension.Some? && source.content.Some? && |source.content.value| <= 2097152
            && var bytes := source.content.value;
            match LowerAscii(source.extension.value)
            case "png" => [0x89, 0x50, 0x4E, 0x47, 0x0D, 0x0A, 0x1A, 0x0A] <= bytes
            case "jpg" => [0xFF, 0xD8, 0xFF] <= bytes
            case "jpeg" => [0xFF, 0xD8, 0xFF] <= bytes
            case "webp" => |bytes| >= 12 && bytes[..4] == [0x52, 0x49, 0x46, 0x46] && bytes[8..12] == [0x57, 0x45, 0x42, 0x50]
            case _ => false
  {
  }

  /** Why a chosen file is not taken: the first of the checks that fails. */
  lemma CheckRefuses(source: Source)
    ensures Check(source) == Some(Validation) <==> source.pathBytes == 0 || source.pathBytes > 4096
    ensures Check(source) == Some(UnsupportedType) ==>
              source.regular && source.size <= 2097152
              && (!KnownExtension(source) || (source.content.Some? && |source.content.value| <= 2097152))
    ensures Check(source) == Some(TooLarge) ==>
              source.regular
              && (source.size > 2097152
                  || (KnownExtension(source) && source.content.Some? && |source.content.value| > 2097152))
    ensures Check(source) == Some(NotAFile) ==>
              !source.regular || (source.size <= 2097152 && KnownExtension(source) && source.content.None?)
    ensures Check(source) !in {Some(Internal), Some(Database)}
  {
  }

  predicate KnownExtension(source: Source)
  {
    source.extension.Some? && LowerAscii(source.extension.value) in ["png", "jpg", "jpeg", "webp"]
  }

  function TargetName(source: Source): string
    requires source.extension.Some?
  {
    LogoName(LowerAscii(source.extension.value))
  }

  /** Only files whose names begin like a logo's have changed. */
  ghost predicate OthersKept(a: Files, b: Files)
  {
    forall n :: !StartsWith(n, "logo.") ==> (n in a <==> n in b) && (n in a && n in b ==> a[n] == b[n])
  }

  /** The target holds entirely what it held, or entirely the new content. */
  ghost predicate WholeTarget(a: Files, b: Files, target: string, content: seq<byte>)
  {
    (target in a ==> target in b) && (target in b ==> b[target] == content || (target in a && b[target] == a[target]))
  }

  /** How often the steps of some kind work. */
  datatype Fortune = Always | Sometimes | Never

  class LogoDirectory {
    var files: Files
    var recorded: Option<string>
    /** How many steps have failed so far, or were not reached because the process stopped. */
    ghost var mishaps: nat
    /** Whether steps on the disk fail, or the process is stopped. */
    const disk: Fortune
    /** Whether the database refuses. */
    const database: Fortune

    constructor (files: Files, recorded: Option<string>, disk: Fortune, database: Fortune)
      ensures this.files == files && this.recorded == recorded && this.disk == disk && this.database == database
    {
      this.files, this.recorded, this.disk, this.database := files, recorded, disk, database;
    }

    /** What the outside world decides: whether a step works, or the process stops. */
    method Luck(fortune: Fortune) returns (works: bool)
      modifies this`mishaps
      ensures mishaps == old(mishaps) + if works then 0 else 1
      ensures fortune.Always? ==> works
      ensures fortune.Never? ==> !works
    {
      works := *;
      works := fortune.Always? || (works && !fortune.Never?);
      mishaps := mishaps + if works then 0 else 1;
    }

    /** `fs::remove_file`. */
    method RemoveFile(name: string) returns (ok: bool)
      modifies this`files, this`mishaps
      ensures files == if ok then old(files) - {name} else old(files)
      ensures mishaps == old(mishaps) + if ok then 0 else 1
      ensures disk.Always? ==> ok
    {
      ok := Luck(disk);
      if ok {
        files := files - {name};
      }
    }

    /** `write_atomically`: the bytes go to a temporary file, which is synced and renamed
        over the target. A write that fails may leave any part of the temporary file. */
    method WriteAtomically(temporary: string, target: string, bytes: seq<byte>) returns (ok: bool, stopped: bool)
      requires temporary != target
      modifies this`files, this`mishaps
      ensures WholeTarget(old(files), files, target, bytes)
      ensures ok && !stopped ==> files == (old(files) - {temporary})[target := bytes]
      ensures ok && !stopped <==> mishaps == old(mishaps)
      ensures !ok && !stopped ==> (target in files <==> target in old(files))
                                  && (target in files ==> files[target] == old(files)[target])
      ensures forall n :: n != temporary && n != target ==>
                (n in files <==> n in old(files)) && (n in files ==> files[n] == old(files)[n])
      ensures disk.Always? ==> ok && !stopped
    {
      var written := Luck(disk);
      if !written {
        var partial: seq<byte> := *;
        var created: bool := *;
        if created { files := files[temporary := partial]; }
        return false, false;
      }
      files := files[temporary := bytes];
      var goesOn := Luck(disk);
      if !goesOn { return false, true; }
      var synced := Luck(disk);
      var renamed := Luck(disk);
      if !synced || !renamed {
        var _ := RemoveFile(temporary);
        return false, false;
      }
      files := (files - {temporary})[target := files[temporary]];
      goesOn := Luck(disk);
      ok, stopped := true, !goesOn;
    }

    /** Deletes the listed files that `chosen` picks; each deletion may fail, and the
        process may stop in between. */
    method RemoveListed(listing: seq<string>, chosen: string -> bool) returns (clean: bool, stopped: bool)
      modifies this`files, this`mishaps
      ensures forall n :: n in files ==> n in old(files) && files[n] == old(files)[n]
      ensures forall n :: n in old(files) && n !in files ==> chosen(n)
      ensures clean && !stopped ==> forall n :: n in listing && chosen(n) ==> n !in files
      ensures mishaps >= old(mishaps) && (clean && !stopped <==> mishaps == old(mishaps))
      ensures disk.Always? ==> clean && !stopped
    {
      clean, stopped := true, false;
      for i := 0 to |listing|
        invariant !stopped && (disk.Always? ==> clean)
        invariant mishaps >= old(mishaps) && (clean <==> mishaps == old(mishaps))
        invariant forall n :: n in files ==> n in old(files) && files[n] == old(files)[n]
        invariant forall n :: n in old(files) && n !in files ==> chosen(n)
        invariant clean ==> forall k :: 0 <= k < i && chosen(listing[k]) ==> listing[k] !in files
      {
        if chosen(listing[i]) {
          var ok := RemoveFile(listing[i]);
          if !ok { clean := false; }
          var goesOn := Luck(disk);
          if !goesOn {
            stopped := true;
            return;
          }
        }
      }
    }

    /** `fs::read_dir`. */
    method ListDirectory() returns (listing: Option<seq<string>>)
      modifies this`mishaps
      ensures mishaps == old(mishaps) + if listing.Some? then 0 else 1
      ensures listing.Some? ==> forall n :: n in listing.value <==> n in files
      ensures disk.Always? ==> listing.Some?
    {
      var readable := Luck(disk);
      if !readable { return None; }
      var rest := files.Keys;
      var names: seq<string> := [];
      while rest != {}
        invariant forall n :: n in files <==> n in names || n in rest
        decreases |rest|
      {
        var n :| n in rest;
        rest := rest - {n};
        names := names + [n];
      }
      listing := Some(names);
    }

    /** `remove_other_logo_files`: best effort. */
    method RemoveOtherLogoFiles(keep: string) returns (clean: bool, stopped: bool)
      modifies this`files, this`mishaps
      ensures forall n :: n in files ==> n in old(files) && files[n] == old(files)[n]
      ensures forall n :: n in old(files) && n !in files ==> IsLogoFile(n) && n != keep
      ensures clean && !stopped ==> forall n :: n in files && IsLogoFile(n) ==> n == keep
      ensures mishaps >= old(mishaps) && (clean && !stopped <==> mishaps == old(mishaps))
      ensures disk.Always? ==> clean && !stopped
    {
      var listing := ListDirectory();
      if listing.None? { return false, false; }
      clean, stopped := RemoveListed(listing.value, n => n != keep && IsLogoFile(n));
    }

    /** The part of `set_company_logo` after the checks. */
    method StoreLogo(extension: string, bytes: seq<byte>, nanos: nat) returns (reply: Option<Reply>, clean: bool)
      requires Supported(extension) && MagicMatches(extension, bytes) && |bytes| <= MAX_LOGO_BYTES
      modifies this
      ensures reply.Some? && reply.value.Refused? ==> !EarlyError(reply.value.error)
      ensures reply == Some(Refused(Internal)) ==> recorded == old(recorded)
      ensures OthersKept(old(files), files) && WholeTarget(old(files), files, LogoName(extension), bytes)
      ensures recorded == old(recorded) || recorded == Some(LogoName(extension))
      ensures reply == Some(Done) ==> recorded == Some(LogoName(extension))
      ensures reply == Some(Done) || reply == Some(Refused(Database)) ==> Holds(files, LogoName(extension), bytes)
      ensures (reply == Some(Done) || reply == Some(Refused(Database))) && clean ==> OnlyLogo(files, LogoName(extension))
      ensures reply == Some(Refused(Internal)) ==>
                forall n :: n != TemporaryName(extension, nanos) ==>
                  (n in files <==> n in old(files)) && (n in files ==> files[n] == old(files)[n])
      ensures reply == Some(Refused(Database)) ==> NothingElse(old(files), files, LogoName(extension))
      ensures reply.Some? && reply.value.Refused? ==> reply == Some(Refused(Internal)) || reply == Some(Refused(Database))
      ensures reply == Some(Done) && clean <==> mishaps == old(mishaps)
      ensures disk.Always? ==> clean && (database.Always? ==> reply == Some(Done))
      ensures disk.Always? && database.Never? ==> reply == Some(Refused(Database)) && recorded == old(recorded)
    {
      clean := false;
      TargetIsLogo(extension);
      var target, temporary := LogoName(extension), TemporaryName(extension, nanos);
      TemporaryIsNot(extension, nanos);
      var directory := Luck(disk);
      if !directory {
        return Some(Refused(Internal)), clean;
      }
      var ok, stopped := WriteAtomically(temporary, target, bytes);
      if stopped { return None, clean; }
      if !ok { return Some(Refused(Internal)), clean; }
      clean, stopped := RemoveOtherLogoFiles(target);
      if stopped { return None, clean; }
      var stored := Luck(database);
      if !stored { return Some(Refused(Database)), clean; }
      recorded := Some(target);
      var replied := Luck(database);
      if !replied { return Some(Refused(Database)), clean; }
      var told := Luck(disk);
      reply := if told then Some(Done) else None;
    }

    /** `set_company_logo`. A refusal by the checks changes nothing. At every way out, and
        wherever the process stops, the target is whole and foreign files are untouched.
        Success records the name, and the logo is then shown with exactly the chosen bytes.
        Any other refusal than the database's leaves what is shown as it was. When the
        database reports an error, the directory is as after success; then either the
        record stayed, and what is shown is as before exactly under `StillShown`, or it was
        stored and only the reply was lost, and the new logo is shown. If all deletions worked, the
        target is the only logo file. */
    method SetCompanyLogo(source: Source, nanos: nat) returns (reply: Option<Reply>, clean: bool)
      modifies this
      ensures Check(source).Some? <==> reply.Some? && reply.value.Refused? && EarlyError(reply.value.error)
      ensures Check(source).Some? ==>
                reply == Some(Refused(Check(source).value)) && files == old(files) && recorded == old(recorded)
      ensures OthersKept(old(files), files)
      ensures Check(source).None? ==> WholeTarget(old(files), files, TargetName(source), source.content.value)
      ensures recorded == old(recorded) || (Check(source).None? && recorded == Some(TargetName(source)))
      ensures reply.Some? && reply.value.Refused? && reply != Some(Refused(Database)) ==> recorded == old(recorded)
      ensures reply == Some(Done) || (reply == Some(Refused(Database)) && recorded == Some(TargetName(source))) ==>
                recorded == Some(TargetName(source)) && GetCompanyLogo(files, recorded).Some?
                && ReadDataUrl(GetCompanyLogo(files, recorded).value)
                == Some((Mime(LowerAscii(source.extension.value)).value, source.content.value))
      ensures reply == Some(Done) || reply == Some(Refused(Database)) ==>
                Holds(files, TargetName(source), source.content.value)
                && (clean ==> OnlyLogo(files, TargetName(source)))
      ensures reply.Some? && reply.value.Refused? && reply != Some(Refused(Database)) ==>
                GetCompanyLogo(files, recorded) == GetCompanyLogo(old(files), old(recorded))
      ensures reply == Some(Refused(Database)) && recorded == old(recorded) ==>
                (GetCompanyLogo(files, recorded) == GetCompanyLogo(old(files), old(recorded))
                 <==> StillShown(old(files), files, recorded, TargetName(source), source.content.value))
      ensures Check(source).None? ==> (reply == Some(Done) && clean <==> mishaps == old(mishaps))
      ensures disk.Always? && Check(source).None? ==>
                clean && (database.Always? ==> reply == Some(Done))
                && (database.Never? ==> reply == Some(Refused(Database)) && recorded == old(recorded))
    {
      clean := false;
      var early := Check(source);
      if early.Some? {
        return Some(Refused(early.value)), clean;
      }
      var extension := LowerAscii(source.extension.value);
      LowerSupported(extension);
      reply, clean := StoreLogo(extension, source.content.value, nanos);
      if recorded == Some(LogoName(extension)) && (reply == Some(Done) || reply == Some(Refused(Database))) {
        ShownLogo(files, extension);
      }
      if reply == Some(Refused(Internal)) {
        TemporaryNotShown(old(files), extension, nanos);
        TemporaryNotShown(files, extension, nanos);
      } else if reply == Some(Refused(Database)) {
        AfterRefusal(old(files), files, recorded, extension, source.content.value);
      }
    }

    /** `clear_company_logo`: the record first, then every file that begins like a logo,
        temporary ones included. An error of the database leaves the files; the record is
        cleared all the same if only the reply was lost. */
    method ClearCompanyLogo() returns (reply: Option<Reply>, clean: bool)
      modifies this
      ensures OthersKept(old(files), files)
      ensures reply.Some? && reply.value.Refused? ==> files == old(files)
      ensures recorded == old(recorded) || recorded == None
      ensures reply.Some? && reply.value.Done? ==> recorded == None && GetCompanyLogo(files, recorded) == None
      ensures reply == Some(Done) && clean ==> forall n :: n in files ==> !StartsWith(n, "logo.")
      ensures reply == Some(Done) && clean <==> mishaps == old(mishaps)
      ensures disk.Always? && database.Always? ==> reply == Some(Done) && clean
    {
      clean := false;
      var stored := Luck(database);
      if !stored { return Some(Refused(Database)), clean; }
      recorded := None;
      var replied := Luck(database);
      if !replied { return Some(Refused(Database)), clean; }
      var listing := ListDirectory();
      if listing.None? { return Some(Done), clean; }
      var stopped;
      clean, stopped := RemoveListed(listing.value, n => StartsWith(n, "logo."));
      reply := if stopped then None else Some(Done);
    }
  }

  ghost predicate Holds(files: Files, name: string, content: seq<byte>) { name in files && files[name] == content }

  ghost predicate OnlyLogo(files: Files, name: string)
  {
    name in files && IsLogoFile(name) && forall n :: n in files && IsLogoFile(n) ==> n == name
  }

  /** Apart from one file, nothing is new or changed. */
  ghost predicate NothingElse(a: Files, b: Files, name: string)
  {
    forall n :: n in b && n != name ==> n in a && b[n] == a[n]
  }

  /** What a caller can find out about the logo on record when the database has refused a
      new one: its own file is still there, or it was not shown before; or, under the new
      file's name, it had the new content already. */
  ghost predicate StillShown(a: Files, b: Files, recorded: Option<string>, target: string, content: seq<byte>)
  {
    if recorded == Some(target) then Holds(a, target, content)
    else recorded.None? || recorded.value in b || GetCompanyLogo(a, recorded).None?
  }

  /** After the database refused a new logo, what is shown is what was shown before
      exactly under that condition. A logo recorded with another extension is lost if its
      file was deleted, and one with the same extension is replaced by the new one. */
  lemma AfterRefusal(a: Files, b: Files, recorded: Option<string>, extension: string, content: seq<byte>)
    requires Supported(extension) && MagicMatches(extension, content) && |content| <= MAX_LOGO_BYTES
    requires Holds(b, LogoName(extension), content) && NothingElse(a, b, LogoName(extension))
    ensures GetCompanyLogo(b, recorded) == GetCompanyLogo(a, recorded)
        <==> StillShown(a, b, recorded, LogoName(extension), content)
  {
    if recorded == Some(LogoName(extension)) {
      ShownLogo(b, extension);
      if LogoName(extension) in a && |a[LogoName(extension)]| <= MAX_LOGO_BYTES {
        ShownBytes(a, extension);
      }
    }
  }

  /** The process keeps running, the disk works and the database refuses: a logo that was
      shown is shown no more. */
  method LoseLogo(shown: seq<byte>, chosen: seq<byte>, nanos: nat)
      returns (before: Option<string>, reply: Option<Reply>, after: Option<string>)
    requires IsJpeg(shown) && |shown| <= MAX_LOGO_BYTES && IsPng(chosen) && |chosen| <= MAX_LOGO_BYTES
    ensures before == Some(DataUrl("image/jpeg", shown))
    ensures reply == Some(Refused(Database)) && after == None
  {
    var directory := new LogoDirectory(map["logo.jpg" := shown], Some("logo.jpg"), Always, Never);
    JpgIsShown(directory.files);
    before := GetCompanyLogo(directory.files, directory.recorded);
    var source := Source(1, true, |chosen|, Some("png"), Some(chosen));
    LowerSupported("png");
    var clean;
    reply, clean := directory.SetCompanyLogo(source, nanos);
    TargetIsLogo("jpg");
    assert LogoName("jpg") == "logo.jpg" != LogoName("png");
    after := GetCompanyLogo(directory.files, directory.recorded);
  }

  lemma JpgIsShown(files: Files)
    requires "logo.jpg" in files && |files["logo.jpg"]| <= MAX_LOGO_BYTES
    ensures GetCompanyLogo(files, Some("logo.jpg")) == Some(DataUrl("image/jpeg", files["logo.jpg"]))
  {
    assert LogoName("jpg") == "logo.jpg" == "logo" + "." + "jpg";
    LowerSupported("jpg");
    ExtensionAfterDot("logo", "jpg");
  }

  /** A temporary file is never shown, even if it should be on record. */
  lemma TemporaryNotShown(files: Files, extension: string, nanos: nat)
    ensures GetCompanyLogo(files, Some(TemporaryName(extension, nanos))) == None
  {
    var ending := "tmp-" + NatText(nanos);
    ExtensionAfterDot("logo." + extension, ending);
    assert TemporaryName(extension, nanos) == "logo." + extension + "." + ending;
    assert LowerAscii(ending)[0] == 't';
  }

  predicate EarlyError(e: Error) { e.Validation? || e.NotAFile? || e.TooLarge? || e.UnsupportedType? }

  /** The file a logo is stored in counts as a logo file, so it is the one that is left. */
  lemma TargetIsLogo(extension: string)
    requires Supported(extension)
    ensures IsLogoFile(LogoName(extension))
  {
    var name := LogoName(extension);
    assert name[..5] == "logo.";
    forall i | 0 <= i <= |name| - 5
      ensures !StartsWith(name[i..], ".tmp-")
    {
      assert name[i..][..5][4] == name[i + 4] != '-';
    }
  }

  lemma TemporaryIsNot(extension: string, nanos: nat)
    ensures TemporaryName(extension, nanos) != LogoName(extension)
    ensures StartsWith(TemporaryName(extension, nanos), "logo.") && StartsWith(LogoName(extension), "logo.")
  {
  }
}
