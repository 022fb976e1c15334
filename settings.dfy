/** The configuration the program runs with, and the `pathlib` path values it is made of. */
module Settings {
  import opened Strings

  /** An absolute path, as its components below the root: `/home/a/b.jpg` is
      `["home", "a", "b.jpg"]`. */
  type Path = seq<string>

  /** `p.name`: the last component, or "" for the root. */
  function Name(p: Path): string {
    if |p| == 0 then "" else p[|p| - 1]
  }

  /** A single path component: not empty, not ".", and without a "/". */
  predicate Component(c: string) {
    c != "" && c != "." && '/' !in c
  }

  /** The pieces `pathlib` keeps of a string split at its slashes: it drops the empty pieces
      that leading, trailing and doubled slashes leave, and the "." pieces. */
  function Kept(pieces: seq<string>): (r: seq<string>)
    ensures |r| <= |pieces|
    ensures forall k :: 0 <= k < |r| ==> r[k] in pieces && r[k] != "" && r[k] != "."
    decreases |pieces|
  {
    if |pieces| == 0 then []
    else (if pieces[0] == "" || pieces[0] == "." then [] else [pieces[0]]) + Kept(pieces[1..])
  }

  /** The components `pathlib` makes of a string. */
  function Components(c: string): (r: seq<string>)
    ensures forall k :: 0 <= k < |r| ==> Component(r[k])
  {
    SplitJoin(c, '/');
    Kept(Split(c, '/'))
  }

  /** An absolute path string: one that starts with "/". */
  predicate Absolute(c: string) {
    |c| > 0 && c[0] == '/'
  }

  /** `p / c`: the components of `c` below `p`, or, for an absolute `c`, the components of `c`
      alone. A single component is added as it is; "" and "." add nothing. */
  function Child(p: Path, c: string): (r: Path)
    ensures Component(c) ==> r == p + [c]
    ensures c == "" || c == "." ==> r == p
    ensures !Absolute(c) ==> |r| >= |p| && r[..|p|] == p
    ensures Absolute(c) ==> r == Components(c)
  {
    SplitWhole(c, '/');
    (if Absolute(c) then [] else p) + Components(c)
  }

  /** Two components with a slash between them are two levels below `p`: an interfix or a
      fallback folder such as "trip/2024" names a folder inside a folder. */
  lemma ChildSplits(p: Path, a: string, b: string)
    requires Component(a) && Component(b)
    ensures Child(p, a + "/" + b) == p + [a, b]
  {
    var c := a + "/" + b;
    SplitAt(a, b, '/');
    SplitWhole(a, '/');
    SplitWhole(b, '/');
    assert Split(c, '/') == [a, b];
    assert Kept([a, b]) == [a] + Kept([b]);
    assert !Component(c) by {
      assert c[|a|] == '/';
    }
    assert !Absolute(c) by {
      assert c[0] == a[0];
    }
  }

  /** `s.rfind('.')`. */
  function LastDot(s: string): (i: int)
    ensures -1 <= i < |s|
    ensures 0 <= i ==> s[i] == '.'
    ensures forall k :: i < k < |s| ==> s[k] != '.'
  {
    if |s| == 0 then -1 else if s[|s| - 1] == '.' then |s| - 1 else LastDot(s[..|s| - 1])
  }

  /** Whether a name has a suffix in the sense of `pathlib` (Python 3.12): a dot that is neither
      its first nor its last character. */
  predicate HasSuffix(name: string) {
    0 < LastDot(name) < |name| - 1
  }

  /** `PurePath.suffix`: from the last dot on, or "". */
  function Suffix(name: string): string {
    if HasSuffix(name) then name[LastDot(name)..] else ""
  }

  /** `PurePath.stem`: the name without its suffix. */
  function Stem(name: string): string {
    if HasSuffix(name) then name[..LastDot(name)] else name
  }

  /** `suffix.lstrip(".")`: the extension as the file item stores it. */
  function Extension(name: string): string {
    LStrip(Suffix(name), '.')
  }

  /** A name is its stem followed by its suffix; a suffix is a dot and a non-empty extension free
      of dots, so that stem, a dot and the extension give the name back. */
  lemma StemSuffix(name: string)
    ensures Stem(name) + Suffix(name) == name
    ensures HasSuffix(name) ==> Stem(name) + "." + Extension(name) == name
    ensures HasSuffix(name) ==> Extension(name) != "" && '.' !in Extension(name)
    ensures !HasSuffix(name) ==> Suffix(name) == "" && Extension(name) == "" && Stem(name) == name
  {
    if HasSuffix(name) {
      DottedName(name, LastDot(name));
    }
  }

  /** The parts of a name around its last dot. */
  lemma DottedName(name: string, i: int)
    requires HasSuffix(name) && i == LastDot(name)
    ensures Stem(name) == name[..i] && Suffix(name) == name[i..]
    ensures Extension(name) == name[i + 1..] && name[i + 1..] != ""
    ensures name[..i] + name[i..] == name && name[..i] + "." + name[i + 1..] == name
    ensures '.' !in name[i + 1..]
  {
    var e := name[i + 1..];
    DotExtension(name[i..]);
    assert name[i..][1..] == e;
    assert name[i..] == "." + e;
    assert name[..i] + name[i..] == name;
    assert forall k :: 0 <= k < |e| ==> e[k] == name[i + 1 + k];
  }

  lemma DotExtension(suffix: string)
    requires |suffix| >= 2 && suffix[0] == '.' && suffix[1] != '.'
    ensures LStrip(suffix, '.') == suffix[1..]
  {
    assert LStrip(suffix, '.') == LStrip(suffix[1..], '.');
  }

  /** `.lower().lstrip(".")`, applied to each extension the user names. */
  function NormalizeExtension(e: string): string {
    LStrip(Lower(e), '.')
  }

  lemma LowerIdempotent(s: string)
    ensures Lower(Lower(s)) == Lower(s)
  {
  }

  lemma {:induction false} LowerLStrip(s: string)
    ensures Lower(LStrip(s, '.')) == LStrip(Lower(s), '.')
    decreases |s|
  {
    if |s| > 0 {
      var l := Lower(s);
      assert l[1..] == Lower(s[1..]);
      if s[0] == '.' {
        assert l[0] == '.';
        assert LStrip(s, '.') == LStrip(s[1..], '.');
        assert LStrip(l, '.') == LStrip(l[1..], '.');
        LowerLStrip(s[1..]);
      } else {
        assert l[0] != '.';
        assert LStrip(s, '.') == s;
        assert LStrip(l, '.') == l;
      }
    }
  }

  /** A normalised extension is lower-case, starts with no dot, and normalising it again leaves
      it as it is. Stripping before or after lower-casing gives the same string, so the
      `.lstrip(".").lower()` of the extension filter and the `.lower().lstrip(".")` of the
      option agree. */
  lemma NormalizeExtensionSpec(e: string)
    ensures var n := NormalizeExtension(e);
      Lower(n) == n && (n == [] || n[0] != '.') && NormalizeExtension(n) == n
    ensures NormalizeExtension(e) == Lower(LStrip(e, '.'))
  {
    var n := NormalizeExtension(e);
    LowerLStrip(e);
    LowerLStrip(Lower(e));
    LowerIdempotent(e);
    LowerIdempotent(LStrip(e, '.'));
    assert LStrip(n, '.') == n;
  }

  /** The configuration: the fields of the program's settings object that the modelled code
      reads. Display-only fields (names, colours, indentation) are not part of it. */
  datatype Config = Config(
    extensions: seq<string>,
    changeExtensions: map<string, string>,
    exifDateTags: seq<string>,
    fallbackFolder: string,
    fileTemplate: string,
    directoryTemplate: string,
    interfix: string,
    normalizeExt: bool,
    offset: int,
    overwrite: bool,
    quiet: bool,
    showVersion: bool,
    showFilesDetails: bool,
    showErrors: bool,
    showSettings: bool,
    test: bool,
    timeDayStarts: string,
    useFallbackFolder: bool,
    usePrefix: bool,
    useSubdirs: bool,
    verbose: bool,
    yes: bool,
    sourceDir: Path,
    sourceDirWritable: bool)

  const DefaultExtensions: seq<string> := ["jpg", "jpeg", "dng", "mov", "mp4", "orf", "ori", "raw"]
  const DefaultChangeExtensions: map<string, string> := map["jpeg" := "jpg", "tiff" := "tif"]
  const DefaultDateTags: seq<string> :=
    ["EXIF:DateTimeOriginal", "EXIF:CreateDate", "XMP:CreateDate", "QuickTime:CreateDate"]

  /** The settings before any option is applied; `cwd` is the working directory. */
  function DefaultConfig(cwd: Path): Config {
    Config(
      extensions := DefaultExtensions,
      changeExtensions := DefaultChangeExtensions,
      exifDateTags := DefaultDateTags,
      fallbackFolder := "_UNKNOWN",
      fileTemplate := "YYYYMMDD-HHMMSS",
      directoryTemplate := "YYYYMMDD",
      interfix := "",
      normalizeExt := true,
      offset := 0,
      overwrite := false,
      quiet := false,
      showVersion := false,
      showFilesDetails := false,
      showErrors := false,
      showSettings := false,
      test := false,
      timeDayStarts := "04:00:00",
      useFallbackFolder := false,
      usePrefix := true,
      useSubdirs := true,
      verbose := false,
      yes := false,
      sourceDir := cwd,
      sourceDirWritable := false)
  }

  /** A word of lower-case ASCII letters. */
  predicate LowerWord(e: string)
    decreases |e|
  {
    |e| == 0 || ('a' <= e[0] <= 'z' && LowerWord(e[1..]))
  }

  lemma {:induction false} LowerWordLower(e: string)
    requires LowerWord(e)
    ensures Lower(e) == e
    decreases |e|
  {
    if |e| > 0 {
      LowerWordLower(e[1..]);
      assert Lower(e) == [LowerChar(e[0])] + Lower(e[1..]);
      assert [e[0]] + e[1..] == e;
    }
  }

  /** A non-empty lower-case word is its own normalisation. */
  lemma PlainExtension(e: string)
    requires |e| > 0 && LowerWord(e)
    ensures NormalizeExtension(e) == e
  {
    LowerWordLower(e);
  }

  /** The default extensions are already normalised, and no target of the default extension
      mapping is itself remapped. */
  lemma DefaultsNormalized(cwd: Path)
    ensures var c := DefaultConfig(cwd);
      (forall i :: 0 <= i < |c.extensions| ==> NormalizeExtension(c.extensions[i]) == c.extensions[i])
      && (forall k :: k in c.changeExtensions ==> c.changeExtensions[k] !in c.changeExtensions)
      && c.changeExtensions["jpeg"] == "jpg" && c.changeExtensions["tiff"] == "tif"
  {
    var c := DefaultConfig(cwd);
    assert c.extensions == DefaultExtensions && c.changeExtensions == DefaultChangeExtensions;
    DefaultExtensionsNormalized();
    DefaultMappingClosed();
  }

  lemma DefaultExtensionsNormalized()
    ensures forall i :: 0 <= i < |DefaultExtensions| ==>
      NormalizeExtension(DefaultExtensions[i]) == DefaultExtensions[i]
  {
    forall i | 0 <= i < |DefaultExtensions|
      ensures NormalizeExtension(DefaultExtensions[i]) == DefaultExtensions[i]
    {
      var e := DefaultExtensions[i];
      assert e == "jpg" || e == "jpeg" || e == "dng" || e == "mov" || e == "mp4" || e == "orf"
        || e == "ori" || e == "raw";
      if e == "mp4" {
        assert Lower("mp4") == "mp4" by {
          assert LowerChar('4') == '4';
          LowerWordLower("mp");
          assert Lower("mp4") == Lower("mp") + [LowerChar('4')];
        }
      } else {
        assert LowerWord(e);
        PlainExtension(e);
      }
    }
  }

  lemma DefaultMappingClosed()
    ensures forall k :: k in DefaultChangeExtensions ==> DefaultChangeExtensions[k] !in DefaultChangeExtensions
  {
    assert DefaultChangeExtensions.Keys == {"jpeg", "tiff"};
    assert "jpg" != "jpeg" && "jpg" != "tiff" && "tif" != "jpeg" && "tif" != "tiff";
  }
}
