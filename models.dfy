/** The per-file record of the organiser: whether a media file can be handled, when it was
    taken, and the name and folder it is to get. The metadata exiftool would report and the
    file-system facts about the file are inputs. */
module Models {
  import opened Wrappers
  import opened Strings
  import opened Calendar
  import opened Timestamps
  import opened Settings
  import opened Args

  /** A metadata value as exiftool reports it: text, or anything else (a number, a list, a
      flag); `falsy` says whether Python counts the other value as false (0, an empty list). */
  datatype MetaValue = Text(text: string) | Other(falsy: bool)

  /** The tag-to-value map exiftool reports for one file. */
  type Metadata = map<string, MetaValue>

  const MimeTag: string := "File:MIMEType"

  /** What the file system says about the file when it is examined: whether it exists, its size,
      and whether the process may read and write it. */
  datatype FileFacts = FileFacts(present: bool, size: nat, readable: bool, writable: bool)

  // ----- the date scan -----

  /** What scanning the date tags gives: a date, the reason the first text value did not parse,
      or nothing at all. */
  datatype DateScan = Found(date: DateTime) | ParseFailed(reason: string) | NotFound

  predicate HasText(md: Metadata, tag: string) {
    tag in md && md[tag].Text?
  }

  /** What one text value of a date tag gives. */
  function ReadDate(s: string): (r: DateScan)
    ensures r.Found? || r.ParseFailed?
    ensures r.Found? ==> ValidDateTime(r.date) && InYearRange(r.date.date)
  {
    match ParseExifDate(s)
    case Ok(t) => Found(t)
    case Err(e) => ParseFailed(ErrorText(e))
  }

  /** The tags in priority order: values that are not text are passed over, and the first text
      value decides, whether or not it parses. */
  function ScanTags(md: Metadata, tags: seq<string>): (r: DateScan)
    ensures r.Found? ==> ValidDateTime(r.date) && InYearRange(r.date.date)
  {
    if |tags| == 0 then NotFound
    else if HasText(md, tags[0]) then ReadDate(md[tags[0]].text)
    else ScanTags(md, tags[1..])
  }

  /** `get_exif_date` as a value: no metadata or empty metadata gives no date, and so does a
      scan that fails. */
  function ExifDate(md: Option<Metadata>, tags: seq<string>): Option<DateTime> {
    if md.None? || |md.value| == 0 then None
    else match ScanTags(md.value, tags)
      case Found(t) => Some(t)
      case _ => None
  }

  /** The scan is decided by the first tag, in order, that holds text. */
  lemma {:induction false} ScanTakesFirstText(md: Metadata, tags: seq<string>, k: nat)
    requires k < |tags| && HasText(md, tags[k])
    requires forall j :: 0 <= j < k ==> !HasText(md, tags[j])
    ensures ScanTags(md, tags) == ReadDate(md[tags[k]].text)
    decreases k
  {
    if k > 0 {
      assert !HasText(md, tags[0]);
      assert tags[1..][k - 1] == tags[k];
      ScanTakesFirstText(md, tags[1..], k - 1);
    }
  }

  /** The scan finds nothing exactly when no tag holds text. */
  lemma {:induction false} ScanNotFound(md: Metadata, tags: seq<string>)
    ensures ScanTags(md, tags).NotFound? <==> forall j :: 0 <= j < |tags| ==> !HasText(md, tags[j])
    decreases |tags|
  {
    if |tags| > 0 {
      ScanNotFound(md, tags[1..]);
      if !HasText(md, tags[0]) {
        assert forall j :: 1 <= j < |tags| ==> tags[j] == tags[1..][j - 1];
      }
    }
  }

  /** A text that does not parse ends the scan, even when a later tag would give a date: the
      value "garbage" under the first default tag hides a good date under the second. */
  lemma FailedParseStopsScan()
    ensures var md: Metadata := map[
        "EXIF:DateTimeOriginal" := Text("garbage"),
        "EXIF:CreateDate" := Text("2024:01:02 03:04:05")];
      ScanTags(md, DefaultDateTags).ParseFailed?
      && ExifDate(Some(md), DefaultDateTags).None?
  {
    var md: Metadata := map[
        "EXIF:DateTimeOriginal" := Text("garbage"),
        "EXIF:CreateDate" := Text("2024:01:02 03:04:05")];
    assert !FixedShape(Head(Normalized("garbage"), 19));
    ScanTakesFirstText(md, DefaultDateTags, 0);
  }

  // ----- the media type -----

  /** `get_exif_type` as a value: the MIME type tag, when there is metadata and it has one. */
  function ExifType(md: Option<Metadata>): (r: Option<MetaValue>)
    ensures r.Some? <==> md.Some? && MimeTag in md.value
  {
    if md.None? || |md.value| == 0 then None
    else if MimeTag in md.value then Some(md.value[MimeTag])
    else None
  }

  /** The media type: the part of a non-empty MIME type before its first "/", else "unknown". */
  function MediaType(v: Option<MetaValue>): (r: string)
    requires v.Some? ==> v.value.Text? || v.value.falsy
  {
    if v.Some? && v.value.Text? && v.value.text != "" then Split(v.value.text, '/')[0] else "unknown"
  }

  /** "image/jpeg" has media type "image": the MIME type up to its first slash. A missing, empty
      or false value gives "unknown". */
  lemma MediaTypeSpec(v: Option<MetaValue>)
    requires v.Some? ==> v.value.Text? || v.value.falsy
    ensures v.None? || v.value.Other? || v.value.text == "" ==> MediaType(v) == "unknown"
    ensures v.Some? && v.value.Text? && v.value.text != "" ==>
      var s, r := v.value.text, MediaType(v);
      '/' !in r && |r| <= |s| && r == s[..|r|] && (|r| == |s| || s[|r|] == '/')
  {
    if v.Some? && v.value.Text? && v.value.text != "" {
      SplitFirst(v.value.text, '/');
    }
  }

  // ----- names and paths -----

  /** `get_new_extension`: the old extension, lower-cased when normalising, then looked up once
      in the extension mapping. */
  function NewExtension(cfg: Config, extOld: string): (r: string)
  {
    var e := if cfg.normalizeExt then Lower(extOld) else extOld;
    if e in cfg.changeExtensions then cfg.changeExtensions[e] else e
  }

  /** The new extension is the mapped one when the (normalised) old one is mapped, and the
      normalised old one otherwise; with normalising on and lower-case mapping targets it is
      always lower-case. */
  lemma NewExtensionSpec(cfg: Config, extOld: string)
    ensures var e := if cfg.normalizeExt then Lower(extOld) else extOld;
      (e in cfg.changeExtensions ==> NewExtension(cfg, extOld) == cfg.changeExtensions[e])
      && (e !in cfg.changeExtensions ==> NewExtension(cfg, extOld) == e)
    ensures cfg.normalizeExt && (forall k :: k in cfg.changeExtensions ==>
        Lower(cfg.changeExtensions[k]) == cfg.changeExtensions[k])
      ==> Lower(NewExtension(cfg, extOld)) == NewExtension(cfg, extOld)
  {
    LowerIdempotent(extOld);
  }

  /** With the default mapping, "JPEG" becomes "jpg", "tiff" becomes "tif" and "MOV" "mov". */
  lemma DefaultExtensionMapping(cwd: Path)
    ensures NewExtension(DefaultConfig(cwd), "JPEG") == "jpg"
    ensures NewExtension(DefaultConfig(cwd), "tiff") == "tif"
    ensures NewExtension(DefaultConfig(cwd), "MOV") == "mov"
  {
    assert Lower("JPEG") == "jpeg";
    assert Lower("tiff") == "tiff";
    assert Lower("MOV") == "mov";
  }

  /** `get_prefix`: every file template renders `%Y%m%d-%H%M%S`. */
  function Prefix(cfg: Config, t: DateTime): string {
    if cfg.fileTemplate == "YYYYMMDD-HHMMSS" then Stamp(t) else Stamp(t)
  }

  lemma PrefixSpec(cfg: Config, t: DateTime)
    requires ValidDateTime(t) && InYearRange(t.date)
    ensures var p := Prefix(cfg, t);
      |p| == 15 && p[..8] == CompactDate(t.date) && p[8] == '-'
      && (forall i :: 9 <= i < 15 ==> IsDigit(p[i]))
      && DecimalValue(p[9..11]) == t.hour && DecimalValue(p[11..13]) == t.minute
      && DecimalValue(p[13..]) == t.second
  {
    StampShape(t);
  }

  /** The folder name for a date: "YYYY-MM-DD" is `%Y-%m-%d`, every other template (and
      "YYYYMMDD" itself) `%Y%m%d`. */
  function DateFolder(template: string, d: Date): string {
    if template == "YYYYMMDD" then CompactDate(d)
    else if template == "YYYY-MM-DD" then DashedDate(d)
    else CompactDate(d)
  }

  lemma DateFolderSpec(template: string, d: Date)
    requires ValidDate(d) && InYearRange(d)
    ensures template == "YYYY-MM-DD" ==>
      (|DateFolder(template, d)| == 10
       && DateFolder(template, d) == CompactDate(d)[..4] + "-" + CompactDate(d)[4..6] + "-"
         + CompactDate(d)[6..])
    ensures template != "YYYY-MM-DD" ==>
      (DateFolder(template, d) == CompactDate(d) && |DateFolder(template, d)| == 8)
  {
    DashedDateShape(d);
    CompactDateShape(d);
  }

  /** `get_subdir`, given the adjusted date-time when a date was found: nothing without
      sub-folders, the fallback folder without a date, and otherwise the folder of the date,
      moved back a day when the clock is before the configured start of the day. */
  function Subdir(cfg: Config, adjusted: Option<DateTime>): (r: Option<string>)
    requires adjusted.Some? ==> ValidDateTime(adjusted.value)
    requires cfg.useSubdirs && adjusted.Some? ==> ParseDayStart(cfg.timeDayStarts).Ok?
    ensures r.Some? <==> cfg.useSubdirs
  {
    if !cfg.useSubdirs then None
    else if adjusted.None? then Some(cfg.fallbackFolder)
    else
      var start := ParseDayStart(cfg.timeDayStarts).value;
      Some(DateFolder(cfg.directoryTemplate, FolderDate(adjusted.value, ClockOffset(start))))
  }

  /** `get_new_name` as a value: the prefix and the interfix, each followed by a dash when it is
      not empty, then the stem, a dot and the new extension. */
  function NewName(prefix: string, interfix: string, stem: string, ext: string): string {
    (if prefix != "" then prefix + "-" else "") + (if interfix != "" then interfix + "-" else "")
      + stem + "." + ext
  }

  /** Renaming only puts the prefix and interfix segments in front: when the extension is kept,
      the old name follows them unchanged. */
  lemma NewNameKeepsOldName(prefix: string, interfix: string, name: string, ext: string)
    requires HasSuffix(name) && ext == Extension(name)
    ensures var lead := (if prefix != "" then prefix + "-" else "")
        + (if interfix != "" then interfix + "-" else "");
      NewName(prefix, interfix, Stem(name), ext) == lead + name
  {
    StemSuffix(name);
  }

  /** The new name is made of, in order: the prefix and one dash when there is a prefix, the
      interfix and one dash when there is an interfix, and the stem, a dot and the extension.
      Nothing else is added, so each segment can be read back from its place. */
  lemma NewNameSegments(prefix: string, interfix: string, stem: string, ext: string)
    ensures var n := NewName(prefix, interfix, stem, ext);
      var a := if prefix != "" then |prefix| + 1 else 0;
      var b := a + (if interfix != "" then |interfix| + 1 else 0);
      |n| == b + |stem| + 1 + |ext|
      && (prefix != "" ==> n[..a] == prefix + "-")
      && (interfix != "" ==> n[a..b] == interfix + "-")
      && n[b..] == stem + "." + ext
      && n[b + |stem| + 1..] == ext
  {
    var n := NewName(prefix, interfix, stem, ext);
    var lp := if prefix != "" then prefix + "-" else "";
    var li := if interfix != "" then interfix + "-" else "";
    assert n == lp + li + (stem + "." + ext);
    assert n[..|lp|] == lp;
    assert n[|lp|..|lp| + |li|] == li;
    assert n[|lp| + |li|..] == stem + "." + ext;
  }

  /** The new name is a single path component when none of its parts holds a "/" and the stem
      is not empty; an interfix with a "/" makes the new name a path of several components. */
  lemma NewNameComponent(prefix: string, interfix: string, stem: string, ext: string)
    requires '/' !in prefix && '/' !in interfix && '/' !in stem && '/' !in ext && stem != ""
    ensures Component(NewName(prefix, interfix, stem, ext))
  {
    var n := NewName(prefix, interfix, stem, ext);
    var lp := if prefix != "" then prefix + "-" else "";
    var li := if interfix != "" then interfix + "-" else "";
    assert n == lp + li + stem + "." + ext;
    assert |n| >= 2;
    assert '/' !in n by {
      forall k | 0 <= k < |n|
        ensures n[k] != '/'
      {
        if k < |lp| {
          assert n[k] == lp[k];
        } else if k < |lp| + |li| {
          assert n[k] == li[k - |lp|];
        } else if k < |lp| + |li| + |stem| {
          assert n[k] == stem[k - |lp| - |li|];
        } else if k > |lp| + |li| + |stem| {
          assert n[k] == ext[k - |lp| - |li| - |stem| - 1];
        }
      }
    }
  }

  /** `get_new_path`: the source directory, the sub-folder when sub-folders are on, and the new
      name, joined as `pathlib` joins. */
  function NewPath(cfg: Config, subdir: Field<string>, name: string): (p: Path)
    requires cfg.useSubdirs ==> subdir.Set?
  {
    if cfg.useSubdirs then Child(Child(cfg.sourceDir, subdir.value), name)
    else Child(cfg.sourceDir, name)
  }

  /** The folder a new path goes in: the sub-folder when sub-folders are on, the source
      directory otherwise. */
  function NewFolder(cfg: Config, subdir: Field<string>): Path
    requires cfg.useSubdirs ==> subdir.Set?
  {
    if cfg.useSubdirs then Child(cfg.sourceDir, subdir.value) else cfg.sourceDir
  }

  /** A new name that is a single component is the last component of the new path, directly in
      its folder; any other name that is not absolute still lies inside that folder. */
  lemma NewPathSpec(cfg: Config, subdir: Field<string>, name: string)
    requires cfg.useSubdirs ==> subdir.Set?
    ensures var p, f := NewPath(cfg, subdir, name), NewFolder(cfg, subdir);
      (Component(name) ==> |p| > 0 && Name(p) == name && p[..|p| - 1] == f)
      && (!Absolute(name) ==> |p| >= |f| && p[..|f|] == f)
  {
  }

  // ----- the record and its stages -----

  /** The attributes `_validate_file` records. Attributes Python assigns only on some paths are
      `Field`s that stay `Unset` until assigned. */
  datatype Checks = Checks(size: Field<nat>, readable: Field<bool>, writable: Field<bool>)

  /** The attributes of the metadata stage: the metadata itself, the date found, the date-time
      after the offset, the MIME type and the media type. */
  datatype Exif = Exif(
    metadata: Option<Metadata>,
    exifDate: Field<Option<DateTime>>,
    dateTime: Field<DateTime>,
    exifType: Field<Option<MetaValue>>,
    mediaType: Field<string>)

  /** The attributes `_generate_new_name` assigns. */
  datatype Naming = Naming(
    extNew: Field<string>,
    prefix: Field<string>,
    interfix: Field<string>,
    subdir: Field<string>,
    nameNew: Field<string>,
    pathNew: Field<Path>)

  /** Everything a file item holds, as a value, grouped by the stage that assigns it. */
  datatype Record = Record(
    pathOld: Path,
    nameOld: string,
    stem: string,
    extOld: string,
    error: string,
    isValid: bool,
    checks: Checks,
    exif: Exif,
    naming: Naming)

  const NoChecks := Checks(Unset, Unset, Unset)
  const NoExif := Exif(None, Unset, Unset, Unset, Unset)
  const NoNaming := Naming(Unset, Unset, Unset, Unset, Unset, Unset)

  /** The attributes assigned before validation. */
  function Initial(path: Path): Record {
    var name := Name(path);
    Record(path, name, Stem(name), Extension(name), "", true, NoChecks, NoExif, NoNaming)
  }

  predicate Passes(f: FileFacts) {
    f.present && f.size != 0 && f.readable && f.writable
  }

  /** The message of the first validation check a file fails: exists, then non-empty, then
      readable, then writable. */
  function FailMessage(f: FileFacts): string {
    if !f.present then "File does not exist."
    else if f.size == 0 then "File is empty."
    else if !f.readable then "File is not readable."
    else "File is not writable."
  }

  /** The facts `_validate_file` records: each one once it has been looked up, that is, once the
      checks before it passed. */
  function Recorded(c: Checks, f: FileFacts): Checks {
    Checks(
      if f.present then Set(f.size) else c.size,
      if f.present && f.size != 0 then Set(f.readable) else c.readable,
      if f.present && f.size != 0 && f.readable then Set(f.writable) else c.writable)
  }

  /** `_validate_file`: the first check that fails marks the record invalid with its message. */
  function Validated(r: Record, f: FileFacts): Record {
    r.(
      error := if Passes(f) then r.error else FailMessage(f),
      isValid := r.isValid && Passes(f),
      checks := Recorded(r.checks, f))
  }

  /** A MIME type value that `split` can be called on, or that is false and so never split. */
  predicate MimeUsable(md: Metadata) {
    MimeTag in md ==> md[MimeTag].Text? || md[MimeTag].falsy
  }

  /** When the media type is worked out: a date was found, or the fallback folder is on. */
  predicate TypeNeeded(cfg: Config, md: Metadata) {
    ExifDate(Some(md), cfg.exifDateTags).Some? || cfg.useFallbackFolder
  }

  /** The metadata stage's attributes: the date scan, the offset, and the MIME and media types,
      which are skipped when the missing date makes the file invalid. */
  function ExifRead(cfg: Config, e: Exif, md: Metadata): Exif
    requires TypeNeeded(cfg, md) ==> MimeUsable(md)
  {
    var date := ExifDate(Some(md), cfg.exifDateTags);
    var t := ExifType(Some(md));
    Exif(
      Some(md),
      Set(date),
      if date.Some? then Set(AddSeconds(date.value, cfg.offset)) else e.dateTime,
      if TypeNeeded(cfg, md) then Set(t) else e.exifType,
      if TypeNeeded(cfg, md) then Set(MediaType(t)) else e.mediaType)
  }

  /** `_process_exif` once the metadata has been read. A message the scan leaves in `error` is
      always overwritten: a scan that fails gives no date, and no date gives "No EXIF date
      found.". */
  function ExifProcessed(cfg: Config, r: Record, md: Metadata): Record
    requires TypeNeeded(cfg, md) ==> MimeUsable(md)
  {
    var date := ExifDate(Some(md), cfg.exifDateTags);
    r.(
      error := if date.None? then "No EXIF date found." else r.error,
      isValid := r.isValid && TypeNeeded(cfg, md),
      exif := ExifRead(cfg, r.exif, md))
  }

  /** The adjusted date-time, when a date was found. */
  function Adjusted(e: Exif): Option<DateTime>
    requires e.exifDate.Set?
    requires e.exifDate.value.Some? ==> e.dateTime.Set?
  {
    if e.exifDate.value.Some? then Some(e.dateTime.value) else None
  }

  /** What `_generate_new_name` needs: the date scan has run, and a found date has its adjusted
      date-time (and, when folders are named after dates, a well-formed start of the day). */
  predicate ReadyToName(cfg: Config, e: Exif) {
    e.exifDate.Set?
    && (e.exifDate.value.Some? ==> e.dateTime.Set? && ValidDateTime(e.dateTime.value))
    && (cfg.useSubdirs && e.exifDate.value.Some? ==> ParseDayStart(cfg.timeDayStarts).Ok?)
  }

  /** `_generate_new_name`: extension, prefix (only for a found date with prefixes on),
      interfix, sub-folder (only with sub-folders on), name and path. */
  function NamesFor(cfg: Config, stem: string, extOld: string, e: Exif, n: Naming): Naming
    requires ReadyToName(cfg, e)
  {
    var ext := NewExtension(cfg, extOld);
    var prefix := if e.exifDate.value.Some? && cfg.usePrefix then Prefix(cfg, e.dateTime.value) else "";
    var interfix := if cfg.interfix != "" then cfg.interfix else "";
    var subdir := if cfg.useSubdirs then Set(Subdir(cfg, Adjusted(e)).value) else n.subdir;
    var name := NewName(prefix, interfix, stem, ext);
    Naming(Set(ext), Set(prefix), Set(interfix), subdir, Set(name), Set(NewPath(cfg, subdir, name)))
  }

  function NamesGenerated(cfg: Config, r: Record): Record
    requires ReadyToName(cfg, r.exif)
  {
    r.(naming := NamesFor(cfg, r.stem, r.extOld, r.exif, r.naming))
  }

  /** The inputs for which building a file item returns instead of raising: for a file that
      passes validation, a found date must stay within years 1..9999 after the offset and after
      the one-day shift, the day start must be well formed when folders are named after dates,
      and a MIME type that is looked at must be text or false. */
  predicate Completes(cfg: Config, f: FileFacts, md: Metadata) {
    Passes(f) ==>
      (TypeNeeded(cfg, md) ==> MimeUsable(md))
      && (ExifDate(Some(md), cfg.exifDateTags).Some? ==>
        var t := AddSeconds(ExifDate(Some(md), cfg.exifDateTags).value, cfg.offset);
        InYearRange(t.date)
        && (cfg.useSubdirs ==>
          (ParseDayStart(cfg.timeDayStarts).Ok?
           && InYearRange(FolderDate(t, ClockOffset(ParseDayStart(cfg.timeDayStarts).value))))))
  }

  /** After the metadata stage of a file the constructor accepts, the naming stage can run. */
  lemma ExifReadReady(cfg: Config, e: Exif, md: Metadata)
    requires TypeNeeded(cfg, md) ==> MimeUsable(md)
    requires ExifDate(Some(md), cfg.exifDateTags).Some? && cfg.useSubdirs ==>
      ParseDayStart(cfg.timeDayStarts).Ok?
    ensures ReadyToName(cfg, ExifRead(cfg, e, md))
  {
  }

  /** The whole of `FileItem(path, config)`: validation, and only for a file that passes it, the
      metadata stage followed by naming, which runs even when the metadata stage has just marked
      the record invalid. */
  function Classify(cfg: Config, path: Path, f: FileFacts, md: Metadata): Record
    requires Completes(cfg, f, md)
  {
    var r := Validated(Initial(path), f);
    if !Passes(f) then r else NamesGenerated(cfg, ExifProcessed(cfg, r, md))
  }

  // ----- what the record promises -----

  /** The old name, stem and extension come from the path, whatever else happens. */
  lemma ClassifyNames(cfg: Config, path: Path, f: FileFacts, md: Metadata)
    requires Completes(cfg, f, md)
    ensures var r := Classify(cfg, path, f, md);
      r.pathOld == path && r.nameOld == Name(path)
      && r.stem + Suffix(r.nameOld) == r.nameOld
      && (HasSuffix(r.nameOld) ==> r.stem + "." + r.extOld == r.nameOld)
  {
    StemSuffix(Name(path));
  }

  /** Validation in order: the first failing check sets its message and the record is invalid,
      each fact is recorded exactly when the checks before it passed, and neither the metadata
      nor any name is looked at. */
  lemma ClassifyInvalidFile(cfg: Config, path: Path, f: FileFacts, md: Metadata)
    requires !Passes(f)
    ensures var r := Classify(cfg, path, f, md);
      !r.isValid && r.exif == NoExif && r.naming == NoNaming
      && r.error == (if !f.present then "File does not exist."
        else if f.size == 0 then "File is empty."
        else if !f.readable then "File is not readable."
        else "File is not writable.")
      && (r.checks.size.Set? <==> f.present)
      && (r.checks.readable.Set? <==> f.present && f.size != 0)
      && (r.checks.writable.Set? <==> f.present && f.size != 0 && f.readable)
  {
  }

  /** A file that passes validation has its size recorded, starts the metadata stage without
      error, and keeps its status unless the date is missing. */
  lemma ClassifyValidFile(cfg: Config, path: Path, f: FileFacts, md: Metadata)
    requires Completes(cfg, f, md)
    requires Passes(f)
    ensures var r := Classify(cfg, path, f, md);
      r.checks == Checks(Set(f.size), Set(true), Set(true))
      && r.exif.metadata == Some(md)
      && r.exif.exifDate == Set(ExifDate(Some(md), cfg.exifDateTags))
      && (ExifDate(Some(md), cfg.exifDateTags).Some? ==> r.isValid && r.error == "")
  {
  }

  /** Without a date the error is "No EXIF date found."; the record stays valid exactly when the
      fallback folder is on, and the naming still runs: no prefix, and the fallback folder as
      sub-folder. A date text that fails to parse leaves no trace of its reason. */
  lemma ClassifyWithoutDate(cfg: Config, path: Path, f: FileFacts, md: Metadata)
    requires Completes(cfg, f, md)
    requires Passes(f) && ExifDate(Some(md), cfg.exifDateTags).None?
    ensures var r := Classify(cfg, path, f, md);
      r.error == "No EXIF date found." && (r.isValid <==> cfg.useFallbackFolder)
      && r.exif.exifDate == Set(None) && r.exif.dateTime.Unset?
      && r.naming.prefix == Set("")
      && (cfg.useSubdirs ==> r.naming.subdir == Set(cfg.fallbackFolder))
      && r.naming.nameNew == Set(NewName("", cfg.interfix, r.stem, NewExtension(cfg, r.extOld)))
      && (r.exif.mediaType.Set? <==> cfg.useFallbackFolder)
  {
  }

  /** With a date the record is valid without error, its date-time is the date moved by the
      offset, the prefix renders that date-time, and the sub-folder names its day, moved back
      one calendar day when the clock is before the start of the day. */
  lemma ClassifyWithDate(cfg: Config, path: Path, f: FileFacts, md: Metadata)
    requires Completes(cfg, f, md)
    requires Passes(f) && ExifDate(Some(md), cfg.exifDateTags).Some?
    ensures var r := Classify(cfg, path, f, md);
      var t := AddSeconds(ExifDate(Some(md), cfg.exifDateTags).value, cfg.offset);
      r.isValid && r.error == "" && r.exif.dateTime == Set(t)
      && r.naming.prefix == Set(if cfg.usePrefix then Stamp(t) else "")
      && (cfg.useSubdirs ==>
        var start := ClockOffset(ParseDayStart(cfg.timeDayStarts).value);
        var day := if ClockSeconds(t) < start then PrevDay(t.date) else t.date;
        r.naming.subdir == Set(DateFolder(cfg.directoryTemplate, day)))
  {
    var t := AddSeconds(ExifDate(Some(md), cfg.exifDateTags).value, cfg.offset);
    if cfg.useSubdirs {
      FolderDateRule(t, ClockOffset(ParseDayStart(cfg.timeDayStarts).value));
    }
  }

  /** A file that passes validation always gets its new name and path: the name is the prefix,
      interfix, stem and new extension, and the path ends in it under the source directory or
      its sub-folder. */
  lemma ClassifyNewPath(cfg: Config, path: Path, f: FileFacts, md: Metadata)
    requires Completes(cfg, f, md)
    requires Passes(f)
    ensures var r := Classify(cfg, path, f, md);
      var n := r.naming;
      n.extNew == Set(NewExtension(cfg, r.extOld))
      && n.prefix.Set? && n.interfix == Set(cfg.interfix)
      && n.nameNew == Set(NewName(n.prefix.value, cfg.interfix, r.stem, n.extNew.value))
      && (cfg.useSubdirs <==> n.subdir.Set?)
      && n.pathNew == Set(NewPath(cfg, n.subdir, n.nameNew.value))
  {
    var r1 := ExifProcessed(cfg, Validated(Initial(path), f), md);
    var r := NamesGenerated(cfg, r1);
    assert Classify(cfg, path, f, md) == r;
    NamesForFields(cfg, r1.stem, r1.extOld, r1.exif, r1.naming);
  }

  /** The naming stage sets the extension, prefix, interfix and name, the sub-folder exactly
      when sub-folders are on, and the path for them. */
  lemma NamesForFields(cfg: Config, stem: string, extOld: string, e: Exif, n0: Naming)
    requires ReadyToName(cfg, e)
    requires cfg.useSubdirs || n0.subdir.Unset?
    ensures var n := NamesFor(cfg, stem, extOld, e, n0);
      n.extNew == Set(NewExtension(cfg, extOld))
      && n.prefix.Set? && n.interfix == Set(cfg.interfix)
      && n.nameNew == Set(NewName(n.prefix.value, cfg.interfix, stem, n.extNew.value))
      && (cfg.useSubdirs <==> n.subdir.Set?)
      && n.pathNew == Set(NewPath(cfg, n.subdir, n.nameNew.value))
  {
  }

  /** A valid record has a new path, and a sub-folder when sub-folders are on. */
  lemma ClassifyReady(cfg: Config, path: Path, f: FileFacts, md: Metadata)
    requires Completes(cfg, f, md)
    ensures var r := Classify(cfg, path, f, md);
      r.isValid ==> r.naming.pathNew.Set? && (cfg.useSubdirs ==> r.naming.subdir.Set?)
  {
    if Passes(f) {
      ClassifyNewPath(cfg, path, f, md);
    }
  }

  /** An hour of offset moves noon to one o'clock of the same day. */
  lemma OneHourOffset(t: DateTime)
    requires ValidDateTime(t) && t.hour == 12 && t.minute == 0 && t.second == 0
    ensures AddSeconds(t, 3600) == t.(hour := 13)
  {
    AddSecondsSameDay(t, 3600);
    ClockUnique(AddSeconds(t, 3600), t.(hour := 13));
  }

  // ----- the file item -----

  /** A media file with what has been worked out about it. The constructor takes the metadata
      that exiftool would report and the file-system facts; the batch step later rewrites
      `error`. The attributes are held in groups, one per stage that assigns them. */
  class FileItem {
    const cfg: Config
    const pathOld: Path
    const nameOld: string
    const stem: string
    const extOld: string
    var error: string
    var isValid: bool
    var checks: Checks
    var exif: Exif
    var naming: Naming

    /** The item's attributes as a value. */
    function View(): Record
      reads this
    {
      Record(pathOld, nameOld, stem, extOld, error, isValid, checks, exif, naming)
    }

    constructor (path: Path, config: Config, facts: FileFacts, md: Metadata)
      requires Completes(config, facts, md)
      ensures cfg == config && pathOld == path
      ensures View() == Classify(config, path, facts, md)
      ensures isValid ==> naming.pathNew.Set? && (config.useSubdirs ==> naming.subdir.Set?)
    {
      cfg := config;
      pathOld := path;
      nameOld := Name(path);
      stem := Stem(Name(path));
      extOld := Extension(Name(path));
      error := "";
      isValid := true;
      checks, exif, naming := NoChecks, NoExif, NoNaming;
      new;
      assert View() == Initial(path);
      var ok := ValidateFile(facts);
      if ok {
        ghost var validated := View();
        ProcessExif(md);
        assert View() == ExifProcessed(cfg, validated, md);
        ExifReadReady(cfg, validated.exif, md);
        GenerateNewName();
      }
      ClassifyReady(config, path, facts, md);
    }

    /** `_validate_file`. */
    method ValidateFile(facts: FileFacts) returns (ok: bool)
      modifies this
      ensures ok == Passes(facts)
      ensures View() == Validated(old(View()), facts)
    {
      if !facts.present {
        error, isValid := "File does not exist.", false;
        return false;
      }
      checks := checks.(size := Set(facts.size));
      if facts.size == 0 {
        error, isValid := "File is empty.", false;
        return false;
      }
      checks := checks.(readable := Set(facts.readable));
      if !facts.readable {
        error, isValid := "File is not readable.", false;
        return false;
      }
      checks := checks.(writable := Set(facts.writable));
      if !facts.writable {
        error, isValid := "File is not writable.", false;
        return false;
      }
      return true;
    }

    /** `get_exif_date`: the tags in order, the loop ending at the first text value; a value that
        does not parse records its reason in `error` and gives no date. */
    method GetExifDate() returns (date: Option<DateTime>)
      modifies this`error
      ensures date == ExifDate(exif.metadata, cfg.exifDateTags)
      ensures var md := exif.metadata;
        error == if md.Some? && |md.value| > 0 && ScanTags(md.value, cfg.exifDateTags).ParseFailed?
          then "Error extracting EXIF date: " + ScanTags(md.value, cfg.exifDateTags).reason
          else old(error)
    {
      if exif.metadata.None? || |exif.metadata.value| == 0 {
        return None;
      }
      var md := exif.metadata.value;
      var tags := cfg.exifDateTags;
      var i := 0;
      while i < |tags|
        invariant 0 <= i <= |tags|
        invariant ScanTags(md, tags) == ScanTags(md, tags[i..])
        invariant error == old(error)
      {
        assert tags[i..][1..] == tags[i + 1..];
        var tag := tags[i];
        if tag in md && md[tag].Text? {
          match ParseExifDate(md[tag].text) {
            case Ok(t) =>
              return Some(t);
            case Err(e) =>
              error := "Error extracting EXIF date: " + ErrorText(e);
              return None;
          }
        }
        i := i + 1;
      }
      return None;
    }

    /** `get_exif_type`. */
    method GetExifType() returns (t: Option<MetaValue>)
      ensures t == ExifType(exif.metadata)
    {
      if exif.metadata.None? || |exif.metadata.value| == 0 {
        return None;
      }
      if MimeTag in exif.metadata.value {
        return Some(exif.metadata.value[MimeTag]);
      }
      return None;
    }

    /** `_process_exif`, with the metadata read successfully as `md`. */
    method ProcessExif(md: Metadata)
      requires TypeNeeded(cfg, md) ==> MimeUsable(md)
      modifies this
      ensures View() == ExifProcessed(cfg, old(View()), md)
    {
      exif := exif.(metadata := Some(md));
      var date := GetExifDate();
      exif := exif.(exifDate := Set(date));
      if date.None? {
        error := "No EXIF date found.";
        if !cfg.useFallbackFolder {
          isValid := false;
          return;
        }
      }
      if date.Some? {
        exif := exif.(dateTime := Set(AddSeconds(date.value, cfg.offset)));
      }
      var t := GetExifType();
      exif := exif.(exifType := Set(t), mediaType := Set(MediaType(t)));
    }

    /** `get_new_name`: the name built up segment by segment. */
    method GetNewName() returns (name: string)
      requires naming.prefix.Set? && naming.interfix.Set? && naming.extNew.Set?
      ensures name == NewName(naming.prefix.value, naming.interfix.value, stem, naming.extNew.value)
    {
      name := "";
      if naming.prefix.value != "" {
        name := name + naming.prefix.value + "-";
      }
      if naming.interfix.value != "" {
        name := name + naming.interfix.value + "-";
      }
      name := name + stem + "." + naming.extNew.value;
    }

    /** `_generate_new_name`. */
    method GenerateNewName()
      requires ReadyToName(cfg, exif)
      modifies this
      ensures View() == NamesGenerated(cfg, old(View()))
    {
      var n := naming.(extNew := Set(NewExtension(cfg, extOld)));
      if exif.exifDate.value.Some? && cfg.usePrefix {
        n := n.(prefix := Set(Prefix(cfg, exif.dateTime.value)));
      } else {
        n := n.(prefix := Set(""));
      }
      n := n.(interfix := Set(if cfg.interfix != "" then cfg.interfix else ""));
      if cfg.useSubdirs {
        n := n.(subdir := Set(Subdir(cfg, Adjusted(exif)).value));
      }
      naming := n;
      var name := GetNewName();
      naming := naming.(nameNew := Set(name));
      naming := naming.(pathNew := Set(NewPath(cfg, naming.subdir, name)));
    }
  }
}
