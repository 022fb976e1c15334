# exifsort, modelled in Dafny

exifsort sorts the media files of one folder into date-named sub-folders, or renames them in
place. It reads each file's capture date from its EXIF metadata, which the `exiftool` program
reports. This project models the decision logic of the program and proves what it promises.

- **The file item** (`Models.FileItem`) is built from a path, the configuration, four
  file-system facts and the metadata map. It decides, in this order:
  - whether the file is valid: it exists, is non-empty, is readable, is writable;
  - the capture date: the first date tag, in priority order, that holds text;
  - the date-time after the offset;
  - the media type;
  - the new extension, prefix, interfix, sub-folder, name and path.
- **The batch** (`Core.ProcessFiles`) walks the items against a file system of sets of paths:
  - it creates each missing sub-folder once;
  - it skips an item whose target exists when overwriting is off;
  - it renames outside test mode and records failed renames;
  - it reports the processed files, the skipped files and the created folders.
- **Around them** (`Listing`, `Conditions`, `Args`):
  - the folder listing, sorted by lower-cased name;
  - the extension filter and the per-extension counts;
  - the building of the file items;
  - the checks made before a run;
  - the day-start option, the extension normalisation and the configuration the options give.

Python's `datetime` is modelled too (`Calendar`, `Timestamps`):
- a date is a proleptic Gregorian date with `date.toordinal()` day numbers;
- conversion between dates and day numbers is proved both ways;
- adding seconds, `strftime` for the formats used, and a fixed-width `strptime` are proved
  against that conversion.

Files, one module each:
- `wrappers.dfy`: `Option`, `Result`, and `Field`, an attribute that may not be assigned yet.
- `strings.dfy`: ASCII `lower`, `lstrip`, `split`, `join`, `replace`, decimal digits.
- `calendar.dfy`, `timestamps.dfy`: the date arithmetic and formats.
- `settings.dfy`: paths, suffixes, and the configuration with its defaults.
- `args.dfy`: the day-start check, the extension normalisation and the configuration the options give.
- `models.dfy`: the file item.
- `core.dfy`: the file system and the batch.
- `listing.dfy`: listing, filtering, counting and building items.
- `conditions.dfy`: the pre-run checks.

Inputs the model takes from outside:
- The file system is a value: the set of files and the set of directories.
- A rename fails for the reasons `RenameFailure` lists. One of them is a per-file reason the
  operating system gives, which is an input map.
- The metadata exiftool would report is an input map from tag to value.
- Whether `exiftool -ver` runs, whether the source is a directory and whether it is writable
  are inputs.
- The resolved source directory is an input.

## Model

| member | source | states |
|---|---|---|
| Strings.Lower | src/exifsort/models.py:205 | the result has the input's length, and each character is the lower-case form of the input's character at that place |
| Strings.LStrip | src/exifsort/models.py:37 | the result is a suffix of the input, does not start with the stripped character, and everything removed was that character |
| Strings.SplitJoin | src/exifsort/args.py:224 | joining the pieces of a split with the separator gives back the string, and no piece holds the separator |
| Strings.JoinSplit | src/exifsort/args.py:224 | splitting a join of separator-free pieces gives back the pieces |
| Strings.SplitAt | src/exifsort/models.py:199 | a piece free of the separator, the separator and the rest split into that piece followed by the pieces of the rest |
| Strings.PadToDecimal | src/exifsort/models.py:134 | reading back the zero-padded rendering of a run of digits gives that run |
| Calendar.DaysBeforeYearClosed | src/exifsort/models.py:93 | the days before January 1, counted year by year, equal Python's closed form with 4-, 100- and 400-year corrections |
| Calendar.YearOfBounds | src/exifsort/models.py:93 | the year found for a day number by the 400/100/4/1-year cycles is the one whose days contain it |
| Calendar.OrdinalInjective | src/exifsort/models.py:93 | two valid dates with the same day number are the same date |
| Calendar.FromOrdinal | src/exifsort/models.py:93 | every day number has a valid date, and the date's day number is that number |
| Calendar.FromToOrdinal | src/exifsort/models.py:93 | converting a valid date to its day number and back gives the date |
| Calendar.NextDayOrdinal | src/exifsort/models.py:93 | the next calendar day, computed across month and year ends and leap days, has the next day number |
| Calendar.PrevDayOrdinal | src/exifsort/models.py:130 | the previous calendar day, computed across month and year starts and leap days, has the previous day number |
| Calendar.FromOrdinalPred | src/exifsort/models.py:130 | the date of the previous day number is the previous calendar day |
| Calendar.FromOrdinalAdd | src/exifsort/models.py:93 | moving a date's day number by k is taking k calendar steps forward or back |
| Timestamps.TimelineInjective | src/exifsort/models.py:93 | two valid date-times at the same second of the timeline are equal |
| Timestamps.AddSeconds | src/exifsort/models.py:93 | `date_time = exif_date + timedelta(seconds=offset)`: the result is a valid date-time exactly `offset` seconds further on the timeline |
| Timestamps.AddSecondsZero | src/exifsort/models.py:93 | an offset of zero leaves the date-time unchanged |
| Timestamps.AddSecondsCompose | src/exifsort/models.py:93 | two offsets in a row are their sum |
| Timestamps.AddSecondsSameDay | src/exifsort/models.py:93 | an offset that stays within the day keeps the date and moves the clock by the offset |
| Timestamps.AddOneDay | src/exifsort/models.py:93 | adding 86400 seconds keeps the clock and moves to the next calendar day |
| Timestamps.SubtractOneDay | src/exifsort/models.py:130 | `target_date - timedelta(days=1)` keeps the clock and moves to the previous calendar day |
| Timestamps.FolderDate | src/exifsort/models.py:124-130 | the day a date-time is filed under for a day start; its contract: a valid date, and `Timestamps.FolderDateRule` gives which |
| Timestamps.FolderDateRule | src/exifsort/models.py:124-130 | the folder's day is the previous calendar day exactly when the clock is strictly before the start of the day, and the date itself otherwise |
| Timestamps.YearText | src/exifsort/models.py:134 | the year of `%Y`, padded to four digits; read back by `Timestamps.CompactDateShape` |
| Timestamps.CompactDateShape | src/exifsort/models.py:134 | `%Y%m%d` is eight digits that read back as the year, month and day |
| Timestamps.DashedDateShape | src/exifsort/models.py:136 | `%Y-%m-%d` is ten characters, the compact digits with dashes after the year and the month |
| Timestamps.StampShape | src/exifsort/models.py:143 | `%Y%m%d-%H%M%S` is fifteen characters: the compact date, a dash, and six digits that read back as the clock |
| Timestamps.ParseStrict | src/exifsort/models.py:168 | a parsed date-time is valid and in years 1 to 9999 |
| Timestamps.ParseThenFormat | src/exifsort/models.py:168 | an accepted text is exactly the `%Y-%m-%d %H:%M:%S` rendering of what it parses to |
| Timestamps.FormatThenParse | src/exifsort/models.py:168 | the rendering of a date-time parses back to it |
| Timestamps.ParseExifDate | src/exifsort/models.py:166-168 | the parse of a text date value; stated by `Timestamps.ExifDateIgnoresTail`, `Timestamps.ExifDateBothForms`, `Timestamps.IsoTextParses` and `Timestamps.ExifTextParses` |
| Timestamps.ExifDateIgnoresTail | src/exifsort/models.py:168 | only the first 19 characters count: whatever follows them does not change the result |
| Timestamps.Normalized | src/exifsort/models.py:166-167 | the EXIF form turned into the dashed form; stated by `Timestamps.ReplaceTwoSeparators` and `Timestamps.ExifToIso` |
| Timestamps.ReplaceTwoSeparators | src/exifsort/models.py:167 | `replace(":", "-", 2)` turns the first two colons into dashes and keeps the colons of the clock |
| Timestamps.ExifToIso | src/exifsort/models.py:166-167 | the EXIF form `YYYY:MM:DD HH:MM:SS` of a date-time becomes its dashed form |
| Timestamps.ExifDateBothForms | src/exifsort/models.py:166-168 | the EXIF form and the dashed form, with any tail, both give the date-time |
| Timestamps.IsoTextParses | src/exifsort/models.py:168 | the dashed form alone parses to the date-time |
| Timestamps.ExifTextParses | src/exifsort/models.py:166-168 | the EXIF form alone parses to the date-time |
| Settings.Child | src/exifsort/models.py:199 | `p / c` as `pathlib` joins: a single component (not empty, not ".", no "/") is added below `p`; "" and "." add nothing; a relative `c` stays below `p`, and an absolute one starts again from the root |
| Settings.Components | src/exifsort/models.py:199 | every part `pathlib` keeps of a string split at its slashes is a single component |
| Settings.ChildSplits | src/exifsort/models.py:199 | a string "x/y" of two components adds two levels below `p`, as an interfix or a fallback folder with a slash does |
| Settings.LastDot | src/exifsort/models.py:36-37 | `rfind(".")`: the index holds a dot and no dot follows it, or -1 when there is none |
| Settings.StemSuffix | src/exifsort/models.py:35-37 | the stem followed by the suffix is the name; with a suffix, the stem, a dot and a non-empty dot-free extension give the name, and without one the extension is empty |
| Settings.NormalizeExtensionSpec | src/exifsort/core.py:89 | a normalised extension is lower-case, starts with no dot and is a fixed point, and lower-casing and stripping commute |
| Settings.NormalizeExtension | src/exifsort/core.py:89 | `.lower().lstrip(".")` of one extension option; its properties are those of `Settings.NormalizeExtensionSpec` |
| Settings.DefaultsNormalized | src/exifsort/core.py:30-31 | the default extensions are normalised, and no target of the default mapping is itself remapped |
| Settings.DefaultConfig | src/exifsort/core.py:24-56 | the settings `init_config` creates, with the working directory as source; what they guarantee is stated by `Settings.DefaultsNormalized`, `Args.DefaultDayStart` and `Models.DefaultExtensionMapping` |
| Args.ParseDayStart | src/exifsort/args.py:224-229 | an accepted day start has hours 0-23 and minutes and seconds 0-59 |
| Args.DayStartAccepted | src/exifsort/args.py:224-229 | three integer parts joined by colons and within range are accepted as that clock |
| Args.DayStartForm | src/exifsort/args.py:224-229 | every accepted value is exactly three in-range integer parts joined by colons |
| Args.DayStartRefused | src/exifsort/args.py:225-229 | a value that does not split into three parts is refused with "Must be in HH:MM:SS format", and in-form integers out of range with the range message |
| Args.DefaultDayStart | src/exifsort/core.py:52 | the default "04:00:00" is four in the morning |
| Args.Configure | src/exifsort/core.py:82-94 | each extension is normalised, keeping order and count; `use_fallback_folder` is the negation of `--skip-fallback`; the source directory and its writability are the resolved ones |
| Args.ConfiguredExtensions | src/exifsort/args.py:241 | every configured extension is lower-case and starts with no dot |
| Args.DottedUpperExtension | src/exifsort/args.py:241 | ".JPG" becomes "jpg" |
| Args.GetConfig | src/exifsort/args.py:222-238 | the configuration is given exactly when the day start is accepted, and it keeps that day start; otherwise exit status 1 with the three error lines, the last giving the refusal's reason |
| Args.GetConfigDayStart | src/exifsort/args.py:222-238 | every configuration it gives has a day start that `Args.ParseDayStart` accepts, which is what naming the sub-folder needs |
| Args.ConfigureKeepsMalformedDayStart | src/exifsort/core.py:82-94 | `update_config_from_args` copies the day start "4:00" into the configuration unchecked, `Args.ParseDayStart` refuses it for having two parts, and `get_config` refuses the same arguments |
| Models.ReadDate | src/exifsort/models.py:166-168 | a text value gives a date (valid, in years 1 to 9999) or the reason it did not parse, never nothing |
| Models.ExifDate | src/exifsort/models.py:156-172 | the date found in the metadata: nothing without metadata, else the scan of the date tags in order; its properties are stated by `Models.ScanTakesFirstText`, `Models.ScanNotFound` and `Models.FailedParseStopsScan` |
| Models.ScanTags | src/exifsort/models.py:161-168 | a date found by the scan is valid and in years 1 to 9999 |
| Models.ScanTakesFirstText | src/exifsort/models.py:162-168 | the scan is decided by the first tag, in priority order, whose value is text; values that are not text are passed over |
| Models.ScanNotFound | src/exifsort/models.py:161-172 | the scan finds nothing exactly when no tag holds text |
| Models.FailedParseStopsScan | src/exifsort/models.py:161-172 | a text that fails to parse ends the scan with no date, even when a later tag holds a good date |
| Models.ExifType | src/exifsort/models.py:174-185 | there is a MIME type exactly when there is metadata that has the MIME type tag |
| Models.MediaType | src/exifsort/models.py:96 | `exif_type.split("/")[0] if exif_type else "unknown"`, for a MIME value that is text or false; what it gives is stated by `Models.MediaTypeSpec` |
| Models.MediaTypeSpec | src/exifsort/models.py:96 | the media type is "unknown" for a missing, empty or false MIME value, and otherwise the MIME type up to its first "/" |
| Models.NewExtension | src/exifsort/models.py:203-206 | `get_new_extension` as a value; the lookup and the lower-casing are stated by `Models.NewExtensionSpec` |
| Models.NewExtensionSpec | src/exifsort/models.py:203-206 | the new extension is the mapped one when the (lower-cased, if normalising) old one is mapped, and that old one otherwise; it is lower-case when normalising and the mapping targets are |
| Models.DefaultExtensionMapping | src/exifsort/models.py:203-206 | with the defaults, "JPEG" becomes "jpg", "tiff" becomes "tif" and "MOV" becomes "mov" |
| Models.Prefix | src/exifsort/models.py:140-144 | `get_prefix`, one rendering for every template; stated by `Models.PrefixSpec` |
| Models.PrefixSpec | src/exifsort/models.py:140-144 | whatever the template, the prefix is the `%Y%m%d-%H%M%S` rendering of the date-time |
| Models.DateFolder | src/exifsort/models.py:133-138 | the folder name for a day under a directory template; stated by `Models.DateFolderSpec` |
| Models.DateFolderSpec | src/exifsort/models.py:133-138 | "YYYY-MM-DD" gives the ten-character dashed date, every other template the eight-digit compact date |
| Models.Subdir | src/exifsort/models.py:115-138 | there is a sub-folder exactly when sub-folders are on |
| Models.NewName | src/exifsort/models.py:187-194 | `get_new_name` as a value; its layout is stated by `Models.NewNameSegments` and `Models.NewNameKeepsOldName` |
| Models.NewNameKeepsOldName | src/exifsort/models.py:187-194 | with the old extension kept, the new name is the prefix and interfix segments followed by the old name |
| Models.NewNameSegments | src/exifsort/models.py:187-194 | the name is, in order, the prefix and a dash when there is a prefix, the interfix and a dash when there is an interfix, then the stem, a dot and the extension, with each segment at a known place; nothing else is added, so an interfix that starts with a dash gives two dashes in a row |
| Models.NewNameComponent | src/exifsort/models.py:187-194 | a name whose parts hold no "/" and whose stem is not empty is a single path component |
| Models.NewPath | src/exifsort/models.py:196-201 | `get_new_path`: the name joined below the sub-folder or the source directory; stated by `Models.NewPathSpec` |
| Models.NewPathSpec | src/exifsort/models.py:196-201 | a new name that is a single component is the last component of the new path, directly in the sub-folder when sub-folders are on and in the source directory otherwise; a relative name of several components still lies inside that folder |
| Models.Classify | src/exifsort/models.py:25-50 | the whole constructor as a value; what it gives is stated by `Models.ClassifyNames`, `Models.ClassifyInvalidFile`, `Models.ClassifyValidFile`, `Models.ClassifyWithoutDate`, `Models.ClassifyWithDate`, `Models.ClassifyNewPath` and `Models.ClassifyReady` |
| Models.ClassifyNames | src/exifsort/models.py:33-37 | the old path, name, stem and extension come from the path whatever else happens, and the stem with the suffix is the name |
| Models.ClassifyInvalidFile | src/exifsort/models.py:43-44 | a file failing validation is invalid with the message of the first check it fails (exists, non-empty, readable, writable); each fact is recorded exactly when the checks before it passed; no metadata or naming step runs |
| Models.ClassifyValidFile | src/exifsort/models.py:52-93 | a valid file has its size recorded as readable and writable, its metadata and date scan stored, and with a date it stays valid with no error |
| Models.ClassifyWithoutDate | src/exifsort/models.py:85-121 | without a date the error is "No EXIF date found.", the item is valid exactly when the fallback folder is on, naming still runs with no prefix, the sub-folder is the fallback folder, and the media type is set only with fallback on |
| Models.ClassifyWithDate | src/exifsort/models.py:92-138 | with a date the item is valid without error; its date-time is the date plus the offset; the prefix renders it when prefixes are on; the sub-folder names its day, the previous one when the clock is before the day start |
| Models.ClassifyNewPath | src/exifsort/models.py:98-113 | every item that passes validation gets the new extension, prefix, interfix and name, a sub-folder exactly when sub-folders are on, and the new path `Models.NewPath` gives for its sub-folder and name |
| Models.NamesForFields | src/exifsort/models.py:98-113 | the naming stage sets the extension, prefix, interfix and name, the sub-folder exactly when sub-folders are on, and the path `Models.NewPath` gives for them |
| Models.ClassifyReady | src/exifsort/models.py:98-113 | a valid item has a new path, and a sub-folder when sub-folders are on |
| Models.OneHourOffset | src/exifsort/models.py:93 | an offset of 3600 moves 12:00:00 to 13:00:00 on the same day |
| Models.FileItem.constructor | src/exifsort/models.py:25-50 | the item's attributes are those of `Classify`: validation, then for a valid file the metadata stage and naming, which runs even after the metadata stage marked the item invalid |
| Models.FileItem.ValidateFile | src/exifsort/models.py:52-77 | succeeds exactly when all four checks pass; the new state is that of `Validated` |
| Models.FileItem.GetExifDate | src/exifsort/models.py:156-172 | the loop returns the date of `ExifDate`, and the error holds "Error extracting EXIF date: " with the reason exactly when the first text value failed to parse |
| Models.FileItem.GetExifType | src/exifsort/models.py:174-185 | returns the MIME type value of `ExifType` |
| Models.FileItem.ProcessExif | src/exifsort/models.py:79-96 | the new state is that of `ExifProcessed`: date, offset, error, validity, MIME and media type |
| Models.FileItem.GetNewName | src/exifsort/models.py:187-194 | the name built segment by segment is `NewName` of the prefix, interfix, stem and extension |
| Models.FileItem.GenerateNewName | src/exifsort/models.py:98-113 | the new state is that of `NamesGenerated` |
| Core.RenameFailure | src/exifsort/core.py:574-578 | why `rename` raises: a reason of the operating system for the file, a missing source, a parent of the target that is a file or missing, or a target that is a directory; `Core.MissingNameFolderFails` is a consequence |
| Core.MissingNameFolderFails | src/exifsort/core.py:574-578 | a new name "x/y" names a file in a folder "x" nothing creates: when it does not exist, the move fails with "No such file or directory" |
| Core.Renamed | src/exifsort/core.py:574 | a successful rename as a value; its effect on the number of files is `Core.RenameCount` |
| Core.RenameCount | src/exifsort/core.py:574 | a rename to a fresh target keeps the number of files, and one over another file loses one |
| Core.Lineage | src/exifsort/core.py:566 | the directories `mkdir(parents=True)` makes exist: the path itself, the root and every prefix of the path, nothing else |
| Core.FileSystem.MakeDir | src/exifsort/core.py:566 | the directory and every directory above it are added, and nothing else changes |
| Core.FileSystem.Rename | src/exifsort/core.py:574-578 | the failure is `RenameFailure`; on success the source is gone and the target is a file, and on failure nothing changes |
| Core.Prepared | src/exifsort/core.py:563-567 | with sub-folders on, a missing target directory is created with its parents outside test mode and reported; stated by `Core.SourceFolderCreatesNothing`, `Core.NestedFolderCreated` and `Core.CreatedOnce` |
| Core.SourceFolderCreatesNothing | src/exifsort/core.py:563-567 | a sub-folder "." or "" is the existing source directory: nothing is created or reported |
| Core.NestedFolderCreated | src/exifsort/core.py:563-567 | a sub-folder "x/y" is created with its parent "x" and reported once, as "x/y" |
| Core.Step | src/exifsort/core.py:563-580 | one pass of the loop as a value; its outcomes are stated by `Core.StepOutcome` and `Core.StepCounts` |
| Core.RunBatch | src/exifsort/core.py:562-580 | one error entry per item handled |
| Core.BatchCounts | src/exifsort/core.py:562-580 | processed plus skipped is the number of valid items, an item is skipped exactly when it is given an error, and invalid items are given none |
| Core.TestModeTouchesNothing | src/exifsort/core.py:565-572 | in test mode the file system is unchanged and no folder is reported created |
| Core.CreatedExistAfter | src/exifsort/core.py:563-567 | directories are only added, and every reported folder exists afterwards |
| Core.CreatedOnce | src/exifsort/core.py:563-567 | the list of created folders has no duplicates |
| Core.NoOverwriteKeepsFiles | src/exifsort/core.py:568-571 | with overwriting off the batch never loses a file: the number of files stays the same |
| Core.StepOutcome | src/exifsort/core.py:568-580 | an existing target with overwriting off gives "Target file already exists." (test mode too); a failed rename gives "Error moving file: " and the reason; a free or overwritable target in test mode, or with a rename that succeeds, gives no error and records the original name as processed; an item is processed exactly when it gets no error and skipped exactly when it gets one; a processed item outside test mode is at its new path and not at its old one |
| Core.StepCounts | src/exifsort/core.py:562-580 | one step adds one entry to the two lists for a valid item and none for an invalid one, and adds to the skipped list exactly when it gives an error |
| Core.Moves | src/exifsort/core.py:562 | one move per item, in order |
| Core.MoveOne | src/exifsort/core.py:563-580 | one pass of the loop leaves the lists, the file system and the item's message as one `Step` of the batch does |
| Core.RecordError | src/exifsort/core.py:569-576 | the current item gets the batch's message, if any; the items before keep theirs and the items after their original error |
| Core.Iterate | src/exifsort/core.py:562-580 | one pass of the loop keeps the loop invariant: file system, lists and errors are those of the batch over one more item |
| Core.ProcessFiles | src/exifsort/core.py:554-590 | the final file system, the lists and each item's error are those of `RunBatch` over the items in order; the items are otherwise unchanged |
| Listing.MediaKey | src/exifsort/core.py:426 | `f.suffix.lstrip(".").lower()`; its shape is stated by `Listing.MediaKeyShape` |
| Listing.MediaKeyShape | src/exifsort/core.py:468 | the key is the lower-cased extension: lower-case, dot-free, and empty exactly when the name has no suffix |
| Listing.Filter | src/exifsort/core.py:426 | the comprehension keeps at most as many files as it is given |
| Listing.FilterMembers | src/exifsort/core.py:426 | a file is kept exactly when it is in the list and passes |
| Listing.FilterAppend | src/exifsort/core.py:426 | filtering keeps order: a filtered concatenation is the concatenation of the filtered parts |
| Listing.FilterAll | src/exifsort/core.py:426 | a list whose files all pass is kept whole, and a list without any is dropped |
| Listing.FilterMedia | src/exifsort/core.py:426 | the media filter as an instance of `Listing.Filter`; stated by `Listing.FilterMediaMembers` |
| Listing.FilterMediaMembers | src/exifsort/core.py:426 | the media filter keeps exactly the files of the list whose lower-cased suffix is a configured extension |
| Listing.CountMediaFilter | src/exifsort/core.py:461 | `media_count` is the number of files the media filter keeps, and so of the items built |
| Listing.Bump | src/exifsort/core.py:470 | the entry for the key goes up by one and no other changes, a new key is added at the end, and the total goes up by one |
| Listing.TypeCounts | src/exifsort/core.py:467-470 | the `media_types` loop as a value; stated by `Listing.TypeCountsSpec`, `Listing.TypeCountsPerKey` and `Listing.TypeCountsHasKey` |
| Listing.TypeCountsSpec | src/exifsort/core.py:461-470 | the counts add up to `media_count`, keys are distinct and counts positive, and every key is a configured extension, lower-case and dot-free |
| Listing.TypeCountsPerKey | src/exifsort/core.py:467-470 | each key's count is the number of media files with it |
| Listing.TypeCountsHasKey | src/exifsort/core.py:467-470 | a key is present exactly when some media file has it |
| Listing.GetFolderInfo | src/exifsort/core.py:451-471 | the path, the number of files, `media_count`, the per-key counts of `TypeCounts`, and empty batch lists |
| Listing.Listed | src/exifsort/core.py:447 | the list holds only files, and every listed entry that is a file |
| Listing.InsertBy | src/exifsort/core.py:448 | the insertion adds the entry and keeps the others |
| Listing.SortBy | src/exifsort/core.py:448 | `sorted(key=...)` gives a permutation ordered by the key under Python string order |
| Listing.WithKey | src/exifsort/core.py:448 | the entries with one key, in order, and no more of them than the list has |
| Listing.InsertByStable | src/exifsort/core.py:448 | an entry is inserted before every entry with the same key |
| Listing.SortByStable | src/exifsort/core.py:448 | the sort is stable: the entries with any one key come out in the order they went in |
| Listing.GetFileList | src/exifsort/core.py:446-448 | the folder's files, the same entries as the listing, ordered by lower-cased name, with files whose lower-cased names are equal in the order `os.listdir` gave them |
| Listing.GetFileListDistinct | src/exifsort/core.py:446-448 | with names given once each and each a single component, as `os.listdir` gives them, every file is in the list exactly once |
| Listing.AddItem | src/exifsort/core.py:430-438 | the new item is created for the file and appended, and the items before are kept |
| Listing.BuildItems | src/exifsort/core.py:430-438 | one new, distinct item per path, in order, each ready for the batch |
| Listing.GetMediaObjects | src/exifsort/core.py:419-443 | one new, distinct item per media file of the list, in its order, each ready for the batch |
| Conditions.StopCode | src/exifsort/core.py:264-267 | the exit status is 0 for the version request and 1 for every error |
| Conditions.HasExtension | src/exifsort/core.py:291 | the extension test of `check_conditions`: a non-empty list with an entry that is not blank; used by `Conditions.CheckConditions` |
| Conditions.CheckConditions | src/exifsort/core.py:270-294 | the run starts exactly when exiftool runs, no version is asked for, the directory is a writable directory, some extension is not blank and not both quiet and verbose; an empty extension list, an all-blank one and quiet with verbose are refused |
| Conditions.FirstFailureStops | src/exifsort/core.py:270-294 | the program stops at the first failing check, in the source's order |
| Conditions.VersionExitsCleanly | src/exifsort/core.py:271-280 | a stop has status 0 exactly when exiftool runs and the version was asked for |

## Left out

- Reading metadata with exiftool (`models.py:146-154`) and checking for the binary (`core.py:271-277`). The metadata map and tool availability are inputs. `read_exif_metadata` is assumed to succeed: its failure path would leave `exif_date` unassigned and `_generate_new_name` would raise.
- Real file-system calls (`exists`, `stat`, `os.access`, `mkdir`, `rename`, `os.listdir`). They are sets of paths and input facts. The directory listing is an input sequence in the order `os.listdir` gives.
- Core.FileSystem.MakeDir: never fails. In Python `mkdir(parents=True)` raises when a file stands where a directory is needed, and `process_files` does not catch that.
- Settings.Child: ".." is kept as an ordinary component, as `pathlib` keeps it; the file system does not resolve it to the parent. A path string starting with exactly two slashes is treated like one with one.
- The texts of operating-system errors are the strings `RenameFailure` gives or an input map. Python's exact `OSError` wording is not modelled.
- All terminal output: printing, colours, progress, `print_file_errors`, the header and footer, and the version line. The prompt, `sys.exit` and the clock are not modelled either. `Conditions` gives the stop and its status, not the printed message.
- The folder's creation and modification times (`core.py:454-459`) are not part of `FolderInfo`.
- The global mutable `TyConf` with `freeze` is an immutable `Config`. `AppConfig`, `check_mode` and `show_templates` belong to `args.get_config`'s result type. That type is not part of this model, so `Args.GetConfig` returns a `Config`.
- Models.FileItem.constructor: requires `Completes`. A file that passes validation must meet three conditions:
  - its adjusted date and folder date stay within years 1 to 9999 (else Python raises `OverflowError`);
  - its day start is well formed when sub-folders are on. This holds on the path through `args.get_config` (`Args.GetConfigDayStart`). It does not hold on the path of `core.py`'s own `main`, where `update_config_from_args` (`Args.Configure`) copies `--new-day` unchecked: there a malformed value such as "4:00" (`Args.ConfigureKeepsMalformedDayStart`) makes `get_subdir` raise `ValueError` for every dated file, and `get_media_objects` does not catch it;
  - a MIME type that is looked at must be text, or a value Python counts as false (that gives "unknown").
  Python raises in the other cases. The model does not represent the exception.
- Timestamps.ParseStrict: fixed-width fields only. Python's `strptime` also accepts one-digit months, days and clock fields, and matches the space of the format against any run of whitespace: "2024:01:01  12:00:00" cut to 19 characters parses in Python and gives no date here. Its `\d` also accepts any Unicode decimal digit, where `FixedShape` accepts ASCII digits only.
- Timestamps.ErrorText: the text of a mismatch always wraps the date in single quotes. Python builds it with `%r`, which uses double quotes for a text holding a single quote and no double quote, and escapes backslashes and control characters. Python also words some refusals differently: a seconds field from 62 to 99 ("2024-01-01 12:00:62") is a `Mismatch` here, where `%S` takes its one-digit branch "6" and raises "unconverted data remains: 2". `_process_exif` overwrites that message with "No EXIF date found." (`models.py:87`), so only the intermediate error differs.
- Args.ParseDayStart: parts are plain ASCII digits. Python's `int()` also accepts a sign, surrounding whitespace, underscores between digits ("0_4") and any Unicode decimal digit ("٤").
- Args.GetConfig: the third error line for a part that is not an integer always wraps the part in single quotes (`Args.DayStartMessage`). Python's `int()` writes the part's repr, cut to 200 characters: it uses double quotes for a part holding a single quote and no double quote (`--new-day "4':00:00"` quotes the part as `"4'"`), and it escapes backslashes and control characters. This line is the program's final output, so the printed text differs in those cases.
- Timestamps.YearText: pads the year to four digits. CPython on glibc does not pad `%Y`, so there a year below 1000 is rendered with fewer digits ("999"), and the folder and prefix names of such dates differ from the model's.
- Strings.Lower: only ASCII letters are lower-cased. `Strings.IsBlank` only knows ASCII whitespace, where Python's `str.strip()` knows all Unicode whitespace.
- Paths are sequences of components. `absolute()` and `resolve()` are the identity on the (already absolute) source directory, or an input.
- Core.ProcessFiles: requires the items to be distinct objects and ready. The items `Listing.GetMediaObjects` builds are both. The same object twice in the list is not modelled.
- Listing.GetMediaObjects, Listing.BuildItems, Listing.AddItem: state that each item is ready and built for its path, not that its whole state equals `Classify`. That is the constructor's own contract, `Models.FileItem.constructor`.
- Listing.TypeCounts: the `media_types` dictionary is an association list in insertion order.
- The `get_unique_path` disambiguation, rename-error classification and the larger template tables appear only in the tests. They are not in the modelled source.
