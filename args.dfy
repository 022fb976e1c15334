/** The parsed command line, the validation of the day-start option, and the configuration the
    options produce. */
module Args {
  import opened Wrappers
  import opened Strings
  import opened Settings

  /** The values the argument parser hands over, one per option; `skipFallback` is the
      `--skip-fallback` flag and `directory` the positional argument. */
  datatype Arguments = Arguments(
    directoryTemplate: string,
    showFilesDetails: bool,
    extensions: seq<string>,
    showErrors: bool,
    fileTemplate: string,
    interfix: string,
    timeDayStarts: string,
    normalizeExt: bool,
    fallbackFolder: string,
    offset: int,
    overwrite: bool,
    usePrefix: bool,
    quiet: bool,
    skipFallback: bool,
    showSettings: bool,
    useSubdirs: bool,
    test: bool,
    showVersion: bool,
    verbose: bool,
    yes: bool,
    directory: string)

  /** A time of day as the day-start option gives it. */
  datatype Clock = Clock(hour: nat, minute: nat, second: nat)

  function ClockOffset(c: Clock): nat {
    c.hour * 3600 + c.minute * 60 + c.second
  }

  /** Why a day-start value is refused, in the order it is checked. */
  datatype DayStartError = WrongPartCount | NotAnInteger(part: string) | OutOfRange

  /** The text of the `ValueError` behind the refusal. */
  function DayStartMessage(e: DayStartError): string {
    match e
    case WrongPartCount => "Must be in HH:MM:SS format"
    case NotAnInteger(part) => "invalid literal for int() with base 10: '" + part + "'"
    case OutOfRange => "Invalid time values (hours: 0-23, minutes/seconds: 0-59)"
  }

  /** The day-start check: split on ":" into exactly three parts, read each as an integer (the
      first one that is not refuses the value), then require hours 0..23 and minutes and seconds
      0..59. */
  function ParseDayStart(s: string): (r: Result<Clock, DayStartError>)
    ensures r.Ok? ==> r.value.hour <= 23 && r.value.minute <= 59 && r.value.second <= 59
  {
    var parts := Split(s, ':');
    if |parts| != 3 then Err(WrongPartCount)
    else if !IsDecimal(parts[0]) then Err(NotAnInteger(parts[0]))
    else if !IsDecimal(parts[1]) then Err(NotAnInteger(parts[1]))
    else if !IsDecimal(parts[2]) then Err(NotAnInteger(parts[2]))
    else
      var h, m, sec := DecimalValue(parts[0]), DecimalValue(parts[1]), DecimalValue(parts[2]);
      if h <= 23 && m <= 59 && sec <= 59 then Ok(Clock(h, m, sec)) else Err(OutOfRange)
  }

  /** Three integer fields within range: the fields `get_config`'s day-start check accepts. */
  predicate AcceptedFields(a: string, b: string, c: string) {
    IsDecimal(a) && IsDecimal(b) && IsDecimal(c)
    && DecimalValue(a) <= 23 && DecimalValue(b) <= 59 && DecimalValue(c) <= 59
  }

  lemma NoColonInDecimal(s: string)
    requires IsDecimal(s)
    ensures ':' !in s
  {
  }

  lemma JoinThree(a: string, b: string, c: string)
    ensures Join([a, b, c], ':') == a + ":" + b + ":" + c
  {
    assert [a, b, c][1..] == [b, c];
    assert [b, c][1..] == [c];
    assert Join([c], ':') == c;
    assert Join([b, c], ':') == b + [':'] + c;
    assert Join([a, b, c], ':') == a + [':'] + (b + [':'] + c);
  }

  /** A value is accepted exactly when it is three accepted fields joined by colons; the fields
      then give the clock. */
  lemma DayStartAccepted(a: string, b: string, c: string)
    ensures AcceptedFields(a, b, c) ==>
      ParseDayStart(a + ":" + b + ":" + c) == Ok(Clock(DecimalValue(a), DecimalValue(b), DecimalValue(c)))
  {
    if AcceptedFields(a, b, c) {
      NoColonInDecimal(a);
      NoColonInDecimal(b);
      NoColonInDecimal(c);
      JoinThree(a, b, c);
      JoinSplit([a, b, c], ':');
    }
  }

  /** Every accepted value has that form. */
  lemma DayStartForm(s: string)
    requires ParseDayStart(s).Ok?
    ensures var p := Split(s, ':');
      |p| == 3 && s == p[0] + ":" + p[1] + ":" + p[2] && AcceptedFields(p[0], p[1], p[2])
      && ParseDayStart(s).value == Clock(DecimalValue(p[0]), DecimalValue(p[1]), DecimalValue(p[2]))
  {
    var p := Split(s, ':');
    SplitJoin(s, ':');
    JoinThree(p[0], p[1], p[2]);
    assert p == [p[0], p[1], p[2]];
  }

  /** Refusals: a value without exactly two colons, and a value whose integer fields leave the
      ranges (as "24:00:00" or "04:60:00" do). */
  lemma DayStartRefused(s: string)
    ensures |Split(s, ':')| != 3 ==> ParseDayStart(s) == Err(WrongPartCount)
    ensures var p := Split(s, ':');
      (|p| == 3 && IsDecimal(p[0]) && IsDecimal(p[1]) && IsDecimal(p[2])
        && !AcceptedFields(p[0], p[1], p[2])) ==> ParseDayStart(s) == Err(OutOfRange)
  {
  }

  /** The default "04:00:00" is four in the morning. */
  lemma DefaultDayStart()
    ensures ParseDayStart("04:00:00") == Ok(Clock(4, 0, 0))
  {
    assert "04:00:00" == "04" + ":" + "00" + ":" + "00";
    assert DecimalValue("04") == 4 by {
      assert "04"[..1] == "0";
    }
    assert DecimalValue("00") == 0 by {
      assert "00"[..1] == "0";
    }
    DayStartAccepted("04", "00", "00");
  }

  /** Each option applied to the settings: extensions normalised, `--skip-fallback` inverted into
      `use_fallback_folder`, and the resolved directory with its writability taken as given. */
  function Configure(base: Config, a: Arguments, resolved: Path, writable: bool): (c: Config)
    ensures |c.extensions| == |a.extensions|
    ensures forall i :: 0 <= i < |a.extensions| ==>
      c.extensions[i] == NormalizeExtension(a.extensions[i])
    ensures c.useFallbackFolder == !a.skipFallback
    ensures c.sourceDir == resolved && c.sourceDirWritable == writable
    ensures c.changeExtensions == base.changeExtensions && c.exifDateTags == base.exifDateTags
    ensures c.timeDayStarts == a.timeDayStarts
  {
    base.(
      directoryTemplate := a.directoryTemplate,
      showFilesDetails := a.showFilesDetails,
      extensions := seq(|a.extensions|, i requires 0 <= i < |a.extensions| =>
        NormalizeExtension(a.extensions[i])),
      showErrors := a.showErrors,
      fileTemplate := a.fileTemplate,
      interfix := a.interfix,
      timeDayStarts := a.timeDayStarts,
      normalizeExt := a.normalizeExt,
      fallbackFolder := a.fallbackFolder,
      offset := a.offset,
      overwrite := a.overwrite,
      usePrefix := a.usePrefix,
      quiet := a.quiet,
      showSettings := a.showSettings,
      useSubdirs := a.useSubdirs,
      test := a.test,
      showVersion := a.showVersion,
      verbose := a.verbose,
      yes := a.yes,
      useFallbackFolder := !a.skipFallback,
      sourceDir := resolved,
      sourceDirWritable := writable)
  }

  /** Normalised extensions are lower-case and carry no leading dot; ".JPG" becomes "jpg". */
  lemma ConfiguredExtensions(base: Config, a: Arguments, resolved: Path, writable: bool)
    ensures var c := Configure(base, a, resolved, writable);
      forall i :: 0 <= i < |c.extensions| ==>
        Lower(c.extensions[i]) == c.extensions[i]
        && (c.extensions[i] == [] || c.extensions[i][0] != '.')
  {
    var c := Configure(base, a, resolved, writable);
    forall i | 0 <= i < |c.extensions|
      ensures Lower(c.extensions[i]) == c.extensions[i]
      ensures c.extensions[i] == [] || c.extensions[i][0] != '.'
    {
      NormalizeExtensionSpec(a.extensions[i]);
    }
  }

  lemma DottedUpperExtension()
    ensures NormalizeExtension(".JPG") == "jpg"
  {
    var l := Lower(".JPG");
    assert |l| == 4 && l[0] == '.' && l[1] == 'j' && l[2] == 'p' && l[3] == 'g';
    assert l == ".jpg";
    assert ".jpg"[1..] == "jpg";
    assert LStrip(".jpg", '.') == LStrip("jpg", '.');
  }

  /** The program ends with a status code and the lines it printed. */
  datatype Exit = Exit(code: int, lines: seq<string>)

  /** The configuration from the command line, or the exit with status 1 that an invalid day
      start causes; `resolved` is the directory argument resolved to an absolute path. */
  function GetConfig(a: Arguments, resolved: Path, writable: bool): (r: Result<Config, Exit>)
    ensures r.Ok? <==> ParseDayStart(a.timeDayStarts).Ok?
    ensures r.Ok? ==> r.value == Configure(DefaultConfig(resolved), a, resolved, writable)
    ensures r.Ok? ==> r.value.timeDayStarts == a.timeDayStarts
    ensures r.Err? ==>
      (r.error.code == 1 && |r.error.lines| == 3
        && r.error.lines[2] == "       " + DayStartMessage(ParseDayStart(a.timeDayStarts).error))
  {
    var p := ParseDayStart(a.timeDayStarts);
    if p.Err? then
      Err(Exit(1, [
        "Error: Invalid time format for --new-day: " + a.timeDayStarts,
        "       Expected format: HH:MM:SS (e.g., 04:00:00)",
        "       " + DayStartMessage(p.error)]))
    else
      var c := Configure(DefaultConfig(resolved), a, resolved, writable);
      assert c.timeDayStarts == a.timeDayStarts;
      Ok(c)
  }

  /** A configuration the command line gives has a day start that the file item can read, so
      naming never meets a malformed one. */
  lemma GetConfigDayStart(a: Arguments, resolved: Path, writable: bool)
    ensures var r := GetConfig(a, resolved, writable);
      r.Ok? ==> ParseDayStart(r.value.timeDayStarts).Ok?
  {
  }

  /** `main` in `core.py` builds its configuration with `update_config_from_args`, which copies
      `--new-day` unchecked: "4:00" reaches the configuration although `get_config` refuses it,
      and the day-start reading of `FileItem` cannot parse it. */
  lemma ConfigureKeepsMalformedDayStart(base: Config, a: Arguments, resolved: Path, writable: bool)
    requires a.timeDayStarts == "4:00"
    ensures Configure(base, a, resolved, writable).timeDayStarts == "4:00"
    ensures ParseDayStart(Configure(base, a, resolved, writable).timeDayStarts) == Err(WrongPartCount)
    ensures GetConfig(a, resolved, writable).Err?
  {
    assert "4:00" == "4" + [':'] + "00";
    SplitAt("4", "00", ':');
    SplitWhole("00", ':');
    DayStartRefused("4:00");
  }
}
