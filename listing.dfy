/** Listing a folder, picking its media files by extension, counting them per extension, and
    building a file item for each. */
module Listing {
  import opened Wrappers
  import opened Strings
  import opened Settings
  import opened Models
  import opened Core

  // ----- the extension filter -----

  /** `f.suffix.lstrip(".").lower()`: the key under which a file counts as media. */
  function MediaKey(p: Path): string {
    Lower(LStrip(Suffix(Name(p)), '.'))
  }

  lemma LowerNoDot(s: string)
    requires '.' !in s
    ensures '.' !in Lower(s)
  {
    var l := Lower(s);
    forall i | 0 <= i < |l|
      ensures l[i] != '.'
    {
      assert l[i] == LowerChar(s[i]) && s[i] != '.';
    }
  }

  /** The key is the lower-cased extension: lower-case, without dots, and empty exactly when the
      name has no suffix. */
  lemma MediaKeyShape(p: Path)
    ensures var k := MediaKey(p);
      k == Lower(Extension(Name(p))) && Lower(k) == k && '.' !in k
      && (k == "" <==> !HasSuffix(Name(p)))
  {
    var e := Extension(Name(p));
    assert MediaKey(p) == Lower(e);
    StemSuffix(Name(p));
    assert e == "" <==> !HasSuffix(Name(p));
    assert '.' !in e;
    LowerIdempotent(e);
    LowerNoDot(e);
  }

  predicate IsMedia(cfg: Config, p: Path) {
    MediaKey(p) in cfg.extensions
  }

  /** A list comprehension `[f for f in files if keep(f)]`. */
  function Filter(keep: Path -> bool, files: seq<Path>): (r: seq<Path>)
    ensures |r| <= |files|
  {
    if |files| == 0 then []
    else (if keep(files[0]) then [files[0]] else []) + Filter(keep, files[1..])
  }

  /** The comprehension keeps exactly the files that pass. */
  lemma {:induction false} FilterMembers(keep: Path -> bool, files: seq<Path>)
    ensures forall p :: p in Filter(keep, files) <==> p in files && keep(p)
    decreases |files|
  {
    if |files| > 0 {
      FilterMembers(keep, files[1..]);
      assert files == [files[0]] + files[1..];
    }
  }

  /** The comprehension keeps the order of the list: filtering a concatenation concatenates the
      two filtered parts, a list whose files all pass is kept whole and a list without any is
      dropped. */
  lemma {:induction false} FilterAppend(keep: Path -> bool, a: seq<Path>, b: seq<Path>)
    ensures Filter(keep, a + b) == Filter(keep, a) + Filter(keep, b)
    decreases |a|
  {
    if |a| > 0 {
      assert (a + b)[1..] == a[1..] + b;
      FilterAppend(keep, a[1..], b);
    } else {
      assert a + b == b;
    }
  }

  lemma {:induction false} FilterAll(keep: Path -> bool, files: seq<Path>)
    ensures (forall i :: 0 <= i < |files| ==> keep(files[i])) ==> Filter(keep, files) == files
    ensures (forall i :: 0 <= i < |files| ==> !keep(files[i])) ==> Filter(keep, files) == []
    decreases |files|
  {
    if |files| > 0 {
      FilterAll(keep, files[1..]);
      assert forall i :: 0 <= i < |files| - 1 ==> files[1..][i] == files[i + 1];
    }
  }

  /** The test of `get_media_objects` and `get_folder_info`. */
  function MediaTest(cfg: Config): Path -> bool {
    p => IsMedia(cfg, p)
  }

  /** `[f for f in file_list if f.suffix.lstrip(".").lower() in cfg.extensions]`. */
  function FilterMedia(cfg: Config, files: seq<Path>): seq<Path> {
    Filter(MediaTest(cfg), files)
  }

  /** The filter keeps exactly the media files of the list. */
  lemma FilterMediaMembers(cfg: Config, files: seq<Path>)
    ensures forall p :: p in FilterMedia(cfg, files) <==> p in files && IsMedia(cfg, p)
  {
    FilterMembers(MediaTest(cfg), files);
  }

  // ----- the folder statistics -----

  /** The `media_count` sum: one for each media file. */
  function CountMedia(cfg: Config, files: seq<Path>): nat {
    if |files| == 0 then 0
    else CountMedia(cfg, files[..|files| - 1]) + (if IsMedia(cfg, files[|files| - 1]) then 1 else 0)
  }

  /** How many media files have the key `k`. */
  function CountKey(cfg: Config, files: seq<Path>, k: string): nat {
    if |files| == 0 then 0
    else
      var p := files[|files| - 1];
      CountKey(cfg, files[..|files| - 1], k) + (if IsMedia(cfg, p) && MediaKey(p) == k then 1 else 0)
  }

  /** The media count is the number of files the filter keeps, and so the number of file items
      built from the list. */
  lemma {:induction false} CountMediaFilter(cfg: Config, files: seq<Path>)
    ensures CountMedia(cfg, files) == |FilterMedia(cfg, files)|
    decreases |files|
  {
    if |files| > 0 {
      var init, last := files[..|files| - 1], files[|files| - 1];
      assert files == init + [last];
      CountMediaFilter(cfg, init);
      FilterAppend(MediaTest(cfg), init, [last]);
      assert Filter(MediaTest(cfg), [last]) == (if IsMedia(cfg, last) then [last] else []) + Filter(MediaTest(cfg), []);
    }
  }

  /** The `media_types` dictionary, as its entries in insertion order. */
  type Counts = seq<(string, nat)>

  function Lookup(t: Counts, k: string): nat {
    if |t| == 0 then 0 else if t[0].0 == k then t[0].1 else Lookup(t[1..], k)
  }

  predicate HasKey(t: Counts, k: string) {
    |t| > 0 && (t[0].0 == k || HasKey(t[1..], k))
  }

  predicate DistinctKeys(t: Counts) {
    |t| == 0 || (!HasKey(t[1..], t[0].0) && DistinctKeys(t[1..]))
  }

  /** Every entry counts at least one file. */
  predicate Positive(t: Counts) {
    forall i :: 0 <= i < |t| ==> t[i].1 > 0
  }

  /** The sum of the counts. */
  function Total(t: Counts): nat {
    if |t| == 0 then 0 else t[0].1 + Total(t[1..])
  }

  /** `d[k] = d.get(k, 0) + 1`: the entry for `k` goes up by one, a new key is added at the end,
      and the other entries stay as they are. */
  function Bump(t: Counts, k: string): (r: Counts)
    ensures Total(r) == Total(t) + 1
    ensures forall j :: Lookup(r, j) == Lookup(t, j) + (if j == k then 1 else 0)
    ensures forall j :: HasKey(r, j) <==> HasKey(t, j) || j == k
    ensures DistinctKeys(t) ==> DistinctKeys(r)
    ensures Positive(t) ==> Positive(r)
    ensures HasKey(t, k) ==> |r| == |t|
    ensures !HasKey(t, k) ==> r == t + [(k, 1)]
  {
    if |t| == 0 then [(k, 1)]
    else if t[0].0 == k then [(k, t[0].1 + 1)] + t[1..]
    else
      var rest := Bump(t[1..], k);
      assert ([t[0]] + rest)[1..] == rest;
      assert !HasKey(t, k) ==> t + [(k, 1)] == [t[0]] + (t[1..] + [(k, 1)]);
      [t[0]] + rest
  }

  lemma {:induction false} LookupPositive(t: Counts, k: string)
    requires Positive(t)
    ensures HasKey(t, k) <==> Lookup(t, k) > 0
    decreases |t|
  {
    if |t| > 0 {
      LookupPositive(t[1..], k);
    }
  }

  /** The entries the loop of `get_folder_info` builds from the files handled so far. */
  function TypeCounts(cfg: Config, files: seq<Path>): Counts {
    if |files| == 0 then []
    else
      var t := TypeCounts(cfg, files[..|files| - 1]);
      var p := files[|files| - 1];
      if IsMedia(cfg, p) then Bump(t, MediaKey(p)) else t
  }

  /** The media types: one entry per key, each key one of the configured extensions, lower-case
      and free of dots, and the counts add up to the media count. */
  lemma {:induction false} TypeCountsSpec(cfg: Config, files: seq<Path>)
    ensures var t := TypeCounts(cfg, files);
      Total(t) == CountMedia(cfg, files) && DistinctKeys(t) && Positive(t)
      && forall k :: HasKey(t, k) ==> k in cfg.extensions && Lower(k) == k && '.' !in k
    decreases |files|
  {
    if |files| > 0 {
      var init, p := files[..|files| - 1], files[|files| - 1];
      TypeCountsSpec(cfg, init);
      MediaKeyShape(p);
    }
  }

  /** The count of each key is the number of media files with it. */
  lemma {:induction false} TypeCountsPerKey(cfg: Config, files: seq<Path>, k: string)
    ensures Lookup(TypeCounts(cfg, files), k) == CountKey(cfg, files, k)
    decreases |files|
  {
    if |files| > 0 {
      var init, p := files[..|files| - 1], files[|files| - 1];
      TypeCountsPerKey(cfg, init, k);
      var t := TypeCounts(cfg, init);
      if IsMedia(cfg, p) {
        assert TypeCounts(cfg, files) == Bump(t, MediaKey(p));
      } else {
        assert TypeCounts(cfg, files) == t;
      }
    }
  }

  /** A key is present exactly when a media file has it. */
  lemma TypeCountsHasKey(cfg: Config, files: seq<Path>, k: string)
    ensures HasKey(TypeCounts(cfg, files), k) <==> CountKey(cfg, files, k) > 0
  {
    TypeCountsPerKey(cfg, files, k);
    TypeCountsSpec(cfg, files);
    LookupPositive(TypeCounts(cfg, files), k);
  }

  /** What `get_folder_info` returns, without the folder's ctime and mtime. */
  datatype FolderInfo = FolderInfo(
    path: Path,
    fileCount: nat,
    mediaCount: nat,
    mediaTypes: Counts,
    processedFiles: seq<string>,
    skippedFiles: seq<string>,
    createdDirs: seq<string>)

  /** `get_folder_info`: the counts of the list, with the lists of the batch still empty. */
  method GetFolderInfo(cfg: Config, fileList: seq<Path>) returns (info: FolderInfo)
    ensures info == FolderInfo(cfg.sourceDir, |fileList|, CountMedia(cfg, fileList),
      TypeCounts(cfg, fileList), [], [], [])
  {
    info := FolderInfo(cfg.sourceDir, |fileList|, CountMedia(cfg, fileList), [], [], [], []);
    var i := 0;
    while i < |fileList|
      invariant 0 <= i <= |fileList|
      invariant info == FolderInfo(cfg.sourceDir, |fileList|, CountMedia(cfg, fileList),
        TypeCounts(cfg, fileList[..i]), [], [], [])
    {
      assert fileList[..i + 1][..i] == fileList[..i];
      var ext := MediaKey(fileList[i]);
      if ext in cfg.extensions {
        info := info.(mediaTypes := Bump(info.mediaTypes, ext));
      }
      i := i + 1;
    }
    assert fileList[..i] == fileList;
  }

  // ----- the folder listing -----

  /** `[directory / f for f in entries if (directory / f).is_file()]`, with `entries` what
      `os.listdir` returns. */
  function Listed(directory: Path, entries: seq<string>, d: Disk): (r: seq<Path>)
    ensures forall p :: p in r ==> p in d.files
    ensures forall i :: 0 <= i < |entries| && Child(directory, entries[i]) in d.files ==>
      Child(directory, entries[i]) in r
  {
    if |entries| == 0 then []
    else
      var p := Child(directory, entries[0]);
      var rest := Listed(directory, entries[1..], d);
      assert forall i :: 1 <= i < |entries| ==> entries[i] == entries[1..][i - 1];
      (if p in d.files then [p] else []) + rest
  }

  /** Python's `<=` on strings: by code points, a prefix first. */
  predicate NameLe(a: string, b: string) {
    |a| == 0 || (|b| > 0 && (a[0] < b[0] || (a[0] == b[0] && NameLe(a[1..], b[1..]))))
  }

  lemma {:induction false} NameLeTotal(a: string, b: string)
    ensures NameLe(a, b) || NameLe(b, a)
    decreases |a|
  {
    if |a| > 0 && |b| > 0 && a[0] == b[0] {
      NameLeTotal(a[1..], b[1..]);
    }
  }

  lemma {:induction false} NameLeTrans(a: string, b: string, c: string)
    requires NameLe(a, b) && NameLe(b, c)
    ensures NameLe(a, c)
    decreases |a|
  {
    if |a| > 0 && a[0] == b[0] && b[0] == c[0] {
      NameLeTrans(a[1..], b[1..], c[1..]);
    }
  }

  /** The order of `sorted` with a key: by the key, as Python's `<=` on strings compares. */
  predicate SortedBy(key: Path -> string, s: seq<Path>) {
    forall i, j :: 0 <= i < j < |s| ==> NameLe(key(s[i]), key(s[j]))
  }

  /** `p` placed before the first entry whose key is not below its own. */
  function InsertBy(key: Path -> string, p: Path, s: seq<Path>): (r: seq<Path>)
    ensures multiset(r) == multiset(s) + multiset{p}
  {
    if |s| == 0 then [p]
    else if NameLe(key(p), key(s[0])) then
      assert s == [s[0]] + s[1..];
      [p] + s
    else
      assert s == [s[0]] + s[1..];
      [s[0]] + InsertBy(key, p, s[1..])
  }

  /** Where every key of `s` and the key of `p` are at least `b`, so is every key after the
      insertion. */
  lemma InsertByBound(key: Path -> string, p: Path, s: seq<Path>, b: string)
    requires NameLe(b, key(p)) && forall i :: 0 <= i < |s| ==> NameLe(b, key(s[i]))
    ensures forall i :: 0 <= i < |InsertBy(key, p, s)| ==> NameLe(b, key(InsertBy(key, p, s)[i]))
  {
    var r := InsertBy(key, p, s);
    forall i | 0 <= i < |r|
      ensures NameLe(b, key(r[i]))
    {
      assert r[i] in multiset(r);
      assert r[i] == p || r[i] in multiset(s);
    }
  }

  /** Inserting into a sorted list keeps it sorted. */
  lemma {:induction false} InsertBySorted(key: Path -> string, p: Path, s: seq<Path>)
    requires SortedBy(key, s)
    ensures SortedBy(key, InsertBy(key, p, s))
    decreases |s|
  {
    if |s| > 0 {
      if NameLe(key(p), key(s[0])) {
        forall j | 0 < j < |s|
          ensures NameLe(key(p), key(s[j]))
        {
          NameLeTrans(key(p), key(s[0]), key(s[j]));
        }
      } else {
        NameLeTotal(key(p), key(s[0]));
        var rest := InsertBy(key, p, s[1..]);
        InsertBySorted(key, p, s[1..]);
        InsertByBound(key, p, s[1..], key(s[0]));
        assert InsertBy(key, p, s) == [s[0]] + rest;
      }
    }
  }

  /** `sorted(s, key=key)`: the same entries, in the order of their keys. Each entry goes before
      the entries after it with an equal key, so the sort is stable, as Python's is. */
  function SortBy(key: Path -> string, s: seq<Path>): (r: seq<Path>)
    ensures SortedBy(key, r) && multiset(r) == multiset(s)
  {
    if |s| == 0 then []
    else
      assert s == [s[0]] + s[1..];
      var rest := SortBy(key, s[1..]);
      InsertBySorted(key, s[0], rest);
      InsertBy(key, s[0], rest)
  }

  /** The entries of `s` whose key is `k`, in their order in `s`. */
  function WithKey(key: Path -> string, k: string, s: seq<Path>): (r: seq<Path>)
    ensures |r| <= |s|
    decreases |s|
  {
    if |s| == 0 then []
    else (if key(s[0]) == k then [s[0]] else []) + WithKey(key, k, s[1..])
  }

  lemma {:induction false} NameLeRefl(a: string)
    ensures NameLe(a, a)
    decreases |a|
  {
    if |a| > 0 {
      NameLeRefl(a[1..]);
    }
  }

  lemma WithKeyCons(key: Path -> string, k: string, x: Path, t: seq<Path>)
    ensures WithKey(key, k, [x] + t) == (if key(x) == k then [x] else []) + WithKey(key, k, t)
  {
    assert ([x] + t)[1..] == t;
  }

  /** The insertion puts `p` before every entry with the same key. */
  lemma {:induction false} InsertByStable(key: Path -> string, p: Path, s: seq<Path>, k: string)
    ensures WithKey(key, k, InsertBy(key, p, s)) == (if key(p) == k then [p] else []) + WithKey(key, k, s)
    decreases |s|
  {
    if |s| == 0 {
      WithKeyCons(key, k, p, s);
    } else if NameLe(key(p), key(s[0])) {
      WithKeyCons(key, k, p, s);
    } else {
      var x, t := s[0], s[1..];
      assert s == [x] + t;
      NameLeRefl(key(p));
      assert key(x) != key(p);
      InsertByStable(key, p, t, k);
      WithKeyCons(key, k, x, InsertBy(key, p, t));
      WithKeyCons(key, k, x, t);
      var px := if key(p) == k then [p] else [];
      var xx := if key(x) == k then [x] else [];
      assert xx + px == px + xx;
    }
  }

  /** The sort is stable: the entries with any one key come out in the order they went in. */
  lemma {:induction false} SortByStable(key: Path -> string, s: seq<Path>, k: string)
    ensures WithKey(key, k, SortBy(key, s)) == WithKey(key, k, s)
    decreases |s|
  {
    if |s| > 0 {
      SortByStable(key, s[1..], k);
      InsertByStable(key, s[0], SortBy(key, s[1..]), k);
    }
  }

  /** A list without repeats has each entry once in its multiset. */
  lemma {:induction false} DistinctOnce(s: seq<Path>, x: Path)
    requires NoDuplicates(s)
    ensures multiset(s)[x] <= 1
    decreases |s|
  {
    if |s| > 0 {
      assert s == [s[0]] + s[1..];
      assert NoDuplicates(s[1..]) by {
        assert forall i :: 0 <= i < |s| - 1 ==> s[1..][i] == s[i + 1];
      }
      DistinctOnce(s[1..], x);
      if x == s[0] {
        assert x !in s[1..] by {
          assert forall i :: 0 <= i < |s| - 1 ==> s[1..][i] == s[i + 1];
        }
      }
    }
  }

  /** Lists with the same multiset are both free of repeats when one is. */
  lemma SameEntriesDistinct(s: seq<Path>, r: seq<Path>)
    requires NoDuplicates(s) && multiset(r) == multiset(s)
    ensures NoDuplicates(r)
  {
    forall i, j | 0 <= i < j < |r|
      ensures r[i] != r[j]
    {
      if r[i] == r[j] {
        var x := r[i];
        assert r == r[..j] + r[j..];
        assert x in r[..j] && x == r[j..][0];
        assert multiset(r)[x] == multiset(r[..j])[x] + multiset(r[j..])[x];
        DistinctOnce(s, x);
        assert false;
      }
    }
  }

  lemma ConsDistinct(p: Path, l: seq<Path>)
    requires NoDuplicates(l) && p !in l
    ensures NoDuplicates([p] + l)
  {
    var r := [p] + l;
    assert forall i :: 1 <= i < |r| ==> r[i] == l[i - 1];
  }

  /** What the file list holds: each path is a component below the folder. */
  lemma {:induction false} ListedBelow(directory: Path, entries: seq<string>, d: Disk)
    requires forall i :: 0 <= i < |entries| ==> Component(entries[i])
    ensures forall p :: p in Listed(directory, entries, d) ==>
      |p| == |directory| + 1 && p[..|directory|] == directory && p[|directory|] in entries
    decreases |entries|
  {
    if |entries| > 0 {
      ListedBelow(directory, entries[1..], d);
      assert forall e :: e in entries[1..] ==> e in entries;
    }
  }

  /** Distinct names give distinct paths. */
  lemma {:induction false} ListedDistinct(directory: Path, entries: seq<string>, d: Disk)
    requires forall i :: 0 <= i < |entries| ==> Component(entries[i])
    requires NoDuplicates(entries)
    ensures NoDuplicates(Listed(directory, entries, d))
    decreases |entries|
  {
    if |entries| > 0 {
      var rest := entries[1..];
      assert forall i :: 0 <= i < |rest| ==> rest[i] == entries[i + 1];
      ListedDistinct(directory, rest, d);
      ListedBelow(directory, rest, d);
      var p := Child(directory, entries[0]);
      var l := Listed(directory, rest, d);
      assert p[|directory|] == entries[0];
      assert entries[0] !in rest;
      var r := Listed(directory, entries, d);
      assert r == (if p in d.files then [p] else []) + l;
      if p in d.files {
        ConsDistinct(p, l);
      }
    }
  }

  /** The sort key `x.name.lower()`. */
  function NameKey(): Path -> string {
    p => Lower(Name(p))
  }

  /** `get_file_list`: the files of the folder, in the order of their lower-cased names. */
  function GetFileList(directory: Path, entries: seq<string>, d: Disk): (r: seq<Path>)
    ensures forall i, j :: 0 <= i < j < |r| ==> NameLe(Lower(Name(r[i])), Lower(Name(r[j])))
    ensures multiset(r) == multiset(Listed(directory, entries, d))
    ensures forall p :: p in r ==> p in d.files
    ensures forall i :: 0 <= i < |entries| && Child(directory, entries[i]) in d.files ==>
      Child(directory, entries[i]) in r
    ensures forall k :: WithKey(NameKey(), k, r) == WithKey(NameKey(), k, Listed(directory, entries, d))
  {
    var listed := Listed(directory, entries, d);
    var r := SortBy(NameKey(), listed);
    assert forall k :: WithKey(NameKey(), k, r) == WithKey(NameKey(), k, listed) by {
      forall k
        ensures WithKey(NameKey(), k, r) == WithKey(NameKey(), k, listed)
      {
        SortByStable(NameKey(), listed, k);
      }
    }
    assert forall p :: p in r <==> p in listed by {
      forall p
        ensures p in r <==> p in listed
      {
        assert p in r <==> p in multiset(r);
        assert p in listed <==> p in multiset(listed);
      }
    }
    r
  }

  /** `os.listdir` gives each name once, and a name is a single component: then the file list
      holds each of the folder's files exactly once. */
  lemma GetFileListDistinct(directory: Path, entries: seq<string>, d: Disk)
    requires forall i :: 0 <= i < |entries| ==> Component(entries[i])
    requires NoDuplicates(entries)
    ensures NoDuplicates(GetFileList(directory, entries, d))
  {
    ListedDistinct(directory, entries, d);
    SameEntriesDistinct(Listed(directory, entries, d), GetFileList(directory, entries, d));
  }

  // ----- the file items -----

  /** Every path has facts and metadata for which the constructor returns. */
  ghost predicate AllComplete(cfg: Config, paths: seq<Path>, facts: Path -> FileFacts, metadata: Path -> Metadata) {
    |paths| == 0
    || (Completes(cfg, facts(paths[0]), metadata(paths[0])) && AllComplete(cfg, paths[1..], facts, metadata))
  }

  /** The items are distinct, one for each of `paths` and in their order, and ready for the
      batch. */
  ghost predicate Made(cfg: Config, items: seq<FileItem>, paths: seq<Path>)
    reads set k | 0 <= k < |items| :: items[k]
  {
    |items| == |paths|
    && (forall k :: 0 <= k < |items| ==> items[k].pathOld == paths[k] && Ready(cfg, items[k]))
    && (forall a, b :: 0 <= a < b < |items| ==> items[a] != items[b])
  }

  /** One pass of the loop of `get_media_objects`: the item for `file`, built by the
      constructor, appended. */
  method AddItem(cfg: Config, items: seq<FileItem>, ghost paths: seq<Path>, file: Path, facts: FileFacts, md: Metadata)
    returns (items': seq<FileItem>)
    requires Completes(cfg, facts, md)
    requires Made(cfg, items, paths)
    ensures Made(cfg, items', paths + [file])
    ensures |items'| == |items| + 1 && items'[..|items|] == items && fresh(items'[|items|])
  {
    var item := new FileItem(file, cfg, facts, md);
    items' := items + [item];
    assert items'[..|items|] == items;
  }

  /** The loop of `get_media_objects` over the media files `paths`. */
  method BuildItems(cfg: Config, paths: seq<Path>, facts: Path -> FileFacts, metadata: Path -> Metadata)
    returns (items: seq<FileItem>)
    requires AllComplete(cfg, paths, facts, metadata)
    ensures Made(cfg, items, paths)
    ensures forall i :: 0 <= i < |items| ==> fresh(items[i])
  {
    items := [];
    var i := 0;
    while i < |paths|
      invariant 0 <= i <= |paths|
      invariant Made(cfg, items, paths[..i])
      invariant forall k :: 0 <= k < |items| ==> fresh(items[k])
      invariant AllComplete(cfg, paths[i..], facts, metadata)
    {
      var file := paths[i];
      assert paths[i..][1..] == paths[i + 1..];
      assert paths[..i] + [file] == paths[..i + 1];
      items := AddItem(cfg, items, paths[..i], file, facts(file), metadata(file));
      i := i + 1;
    }
    assert paths[..i] == paths;
  }

  /** `get_media_objects`: one new file item per media file of the list, in its order, built by
      the constructor from the facts and the metadata of its path; the items are distinct and
      ready for the batch. `facts` and `metadata` stand for the file system and for exiftool. */
  method GetMediaObjects(cfg: Config, fileList: seq<Path>, facts: Path -> FileFacts, metadata: Path -> Metadata)
    returns (items: seq<FileItem>)
    requires AllComplete(cfg, FilterMedia(cfg, fileList), facts, metadata)
    ensures Made(cfg, items, FilterMedia(cfg, fileList))
    ensures forall i :: 0 <= i < |items| ==> fresh(items[i])
  {
    var mediaFiles := FilterMedia(cfg, fileList);
    items := BuildItems(cfg, mediaFiles, facts, metadata);
  }
}
