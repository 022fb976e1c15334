/** The batch step of the organiser: moving or renaming each valid file item, creating the
    sub-folders it needs and reporting what was processed, skipped and created. The file system
    is a value of sets of paths (files and directories) behind a small class. */
module Core {
  import opened Wrappers
  import opened Strings
  import opened Settings
  import opened Args
  import opened Models

  // ----- the file system -----

  /** The files and directories that exist. */
  datatype Disk = Disk(files: set<Path>, dirs: set<Path>)

  /** `p.exists()`. */
  predicate Present(d: Disk, p: Path) {
    p in d.files || p in d.dirs
  }

  function Parent(p: Path): Path {
    if |p| == 0 then p else p[..|p| - 1]
  }

  /** `p` and every directory above it, up to the root. */
  function Lineage(p: Path): (r: set<Path>)
    ensures p in r && [] in r
    ensures forall q :: q in r ==> |q| <= |p| && q == p[..|q|]
  {
    assert p[..|p|] == p && p[..0] == [];
    set k | 0 <= k <= |p| :: p[..k]
  }

  /** Why `src.rename(dst)` raises, when it does: a reason the operating system gives for this
      source (a permission, a device boundary), a missing source, a parent of the target that is
      a file or is missing, or a target that is a directory. */
  function RenameFailure(refusals: map<Path, string>, d: Disk, src: Path, dst: Path): Option<string> {
    if src in refusals then Some(refusals[src])
    else if src !in d.files then Some("[Errno 2] No such file or directory")
    else if Parent(dst) in d.files then Some("[Errno 20] Not a directory")
    else if Parent(dst) !in d.dirs then Some("[Errno 2] No such file or directory")
    else if dst in d.dirs then Some("[Errno 21] Is a directory")
    else None
  }

  /** A new name with a "/" in it, such as one made with the interfix "trip/2024", names a file
      in a folder ("...-trip") that nothing creates: when that folder does not exist, the move
      fails with "No such file or directory". */
  lemma MissingNameFolderFails(refusals: map<Path, string>, d: Disk, src: Path, folder: Path, x: string, y: string)
    requires Component(x) && Component(y)
    requires src !in refusals && src in d.files && folder + [x] !in d.files && folder + [x] !in d.dirs
    ensures RenameFailure(refusals, d, src, Child(folder, x + "/" + y)) == Some("[Errno 2] No such file or directory")
  {
    ChildSplits(folder, x, y);
    assert Parent(folder + [x, y]) == folder + [x];
  }

  /** A successful rename: the source is gone and the target is a file, replacing a file that
      was there. */
  function Renamed(d: Disk, src: Path, dst: Path): Disk {
    d.(files := d.files - {src} + {dst})
  }

  /** With a fresh target, a rename keeps the number of files; over an existing file it loses
      one. */
  lemma RenameCount(d: Disk, src: Path, dst: Path)
    requires src in d.files
    ensures dst !in d.files ==> |Renamed(d, src, dst).files| == |d.files|
    ensures dst in d.files && dst != src ==> |Renamed(d, src, dst).files| == |d.files| - 1
  {
    var rest := d.files - {src};
    assert d.files == rest + {src};
    assert |rest| == |d.files| - 1;
    if dst !in d.files {
      assert dst !in rest;
    } else if dst != src {
      assert rest + {dst} == rest;
    }
  }

  /** The file system the batch works on. */
  class FileSystem {
    var files: set<Path>
    var dirs: set<Path>
    const refusals: map<Path, string>

    function State(): Disk
      reads this
    {
      Disk(files, dirs)
    }

    constructor (d: Disk, refusals: map<Path, string>)
      ensures State() == d && this.refusals == refusals
    {
      files := d.files;
      dirs := d.dirs;
      this.refusals := refusals;
    }

    predicate Exists(p: Path)
      reads this
    {
      Present(State(), p)
    }

    /** `p.mkdir(parents=True, exist_ok=True)`: `p` and every missing directory above it. */
    method MakeDir(p: Path)
      modifies this
      ensures State() == old(State()).(dirs := old(dirs) + Lineage(p))
    {
      dirs := dirs + Lineage(p);
    }

    /** `src.rename(dst)`: the failure, if any, and the new state. */
    method Rename(src: Path, dst: Path) returns (failure: Option<string>)
      modifies this
      ensures failure == RenameFailure(refusals, old(State()), src, dst)
      ensures State() == if failure.None? then Renamed(old(State()), src, dst) else old(State())
    {
      failure := RenameFailure(refusals, State(), src, dst);
      if failure.None? {
        files := files - {src} + {dst};
      }
    }
  }

  // ----- the batch of moves -----

  /** What the batch reads of one file item. */
  datatype Move = Move(valid: bool, subdir: string, pathOld: Path, pathNew: Path, name: string)

  /** The lists the batch reports: moved (or, in test mode, would-be moved) files, skipped files,
      and the sub-folders it created, in order. */
  datatype Tally = Tally(processed: seq<string>, skipped: seq<string>, created: seq<string>)

  /** The state of the batch: the file system, the lists so far, and for each item handled, the
      error it was given, if any. */
  datatype Batch = Batch(disk: Disk, tally: Tally, errors: seq<Option<string>>)

  function TargetDir(cfg: Config, m: Move): Path {
    Child(cfg.sourceDir, m.subdir)
  }

  /** With sub-folders on, a missing target directory is created with its missing parents
      (outside test mode) and reported. */
  function Prepared(cfg: Config, b: Batch, m: Move): Batch {
    if cfg.useSubdirs && !Present(b.disk, TargetDir(cfg, m)) && !cfg.test then
      b.(disk := b.disk.(dirs := b.disk.dirs + Lineage(TargetDir(cfg, m))),
         tally := b.tally.(created := b.tally.created + [m.subdir]))
    else b
  }

  /** A sub-folder "." or "" is the source directory itself, which exists: nothing is created
      or reported. */
  lemma SourceFolderCreatesNothing(cfg: Config, b: Batch, m: Move)
    requires cfg.sourceDir in b.disk.dirs && (m.subdir == "." || m.subdir == "")
    ensures Prepared(cfg, b, m) == b
  {
  }

  /** A sub-folder "x/y" is created together with its parent "x", and reported once, as "x/y". */
  lemma NestedFolderCreated(cfg: Config, b: Batch, m: Move, x: string, y: string)
    requires Component(x) && Component(y) && m.subdir == x + "/" + y
    requires cfg.useSubdirs && !cfg.test && !Present(b.disk, cfg.sourceDir + [x, y])
    ensures var p := Prepared(cfg, b, m);
      cfg.sourceDir + [x] in p.disk.dirs && cfg.sourceDir + [x, y] in p.disk.dirs
      && p.tally.created == b.tally.created + [x + "/" + y]
  {
    ChildSplits(cfg.sourceDir, x, y);
    var t := cfg.sourceDir + [x, y];
    assert t[..|cfg.sourceDir| + 1] == cfg.sourceDir + [x];
    assert t[..|cfg.sourceDir| + 1] in Lineage(t);
  }

  function Skipped(b: Batch, name: string, message: string): Batch {
    b.(tally := b.tally.(skipped := b.tally.skipped + [name]), errors := b.errors + [Some(message)])
  }

  function Processed(b: Batch, name: string): Batch {
    b.(tally := b.tally.(processed := b.tally.processed + [name]), errors := b.errors + [None])
  }

  /** One pass of the loop of `process_files`: an invalid item is passed over; a valid one gets
      its directory, is skipped when its target exists and overwriting is off (in test mode
      too), is moved outside test mode, and is skipped with the reason when the move fails. */
  function Step(cfg: Config, refusals: map<Path, string>, b: Batch, m: Move): Batch {
    if !m.valid then b.(errors := b.errors + [None])
    else
      var p := Prepared(cfg, b, m);
      if Present(p.disk, m.pathNew) && !cfg.overwrite then Skipped(p, m.name, "Target file already exists.")
      else if cfg.test then Processed(p, m.name)
      else match RenameFailure(refusals, p.disk, m.pathOld, m.pathNew)
        case Some(reason) => Skipped(p, m.name, "Error moving file: " + reason)
        case None => Processed(p.(disk := Renamed(p.disk, m.pathOld, m.pathNew)), m.name)
  }

  /** The batch after the loop has handled `moves`, starting on `d`. */
  function RunBatch(cfg: Config, refusals: map<Path, string>, d: Disk, moves: seq<Move>): (b: Batch)
    ensures |b.errors| == |moves|
    decreases |moves|
  {
    if |moves| == 0 then Batch(d, Tally([], [], []), [])
    else Step(cfg, refusals, RunBatch(cfg, refusals, d, moves[..|moves| - 1]), moves[|moves| - 1])
  }

  function ValidCount(moves: seq<Move>): nat
    decreases |moves|
  {
    if |moves| == 0 then 0
    else ValidCount(moves[..|moves| - 1]) + (if moves[|moves| - 1].valid then 1 else 0)
  }

  function ErrorCount(errors: seq<Option<string>>): nat
    decreases |errors|
  {
    if |errors| == 0 then 0
    else ErrorCount(errors[..|errors| - 1]) + (if errors[|errors| - 1].Some? then 1 else 0)
  }

  /** Every valid item ends up either processed or skipped, and an item is skipped exactly when
      it is given an error; invalid items are given none. */
  lemma {:induction false} BatchCounts(cfg: Config, refusals: map<Path, string>, d: Disk, moves: seq<Move>)
    ensures var b := RunBatch(cfg, refusals, d, moves);
      |b.tally.processed| + |b.tally.skipped| == ValidCount(moves)
      && |b.tally.skipped| == ErrorCount(b.errors)
      && (forall i :: 0 <= i < |moves| && !moves[i].valid ==> b.errors[i].None?)
    decreases |moves|
  {
    if |moves| > 0 {
      var before := moves[..|moves| - 1];
      BatchCounts(cfg, refusals, d, before);
      var b0 := RunBatch(cfg, refusals, d, before);
      var b := RunBatch(cfg, refusals, d, moves);
      StepCounts(cfg, refusals, b0, moves[|moves| - 1]);
      assert b.errors[..|b.errors| - 1] == b0.errors;
      forall i | 0 <= i < |moves| - 1 && !moves[i].valid
        ensures b.errors[i].None?
      {
        assert before[i] == moves[i];
      }
    }
  }

  /** One step adds one entry to the lists for a valid item and none for an invalid one, and
      adds to the skipped list exactly when it hands out an error. */
  lemma StepCounts(cfg: Config, refusals: map<Path, string>, b: Batch, m: Move)
    ensures var s := Step(cfg, refusals, b, m);
      |s.errors| == |b.errors| + 1 && s.errors[..|b.errors|] == b.errors
      && |s.tally.processed| + |s.tally.skipped|
        == |b.tally.processed| + |b.tally.skipped| + (if m.valid then 1 else 0)
      && |s.tally.skipped| == |b.tally.skipped| + (if s.errors[|b.errors|].Some? then 1 else 0)
      && (!m.valid ==> s.errors[|b.errors|].None?)
  {
    var p := Prepared(cfg, b, m);
    assert p.tally.processed == b.tally.processed && p.tally.skipped == b.tally.skipped;
  }

  /** In test mode nothing on disk changes and no directory is created. */
  lemma {:induction false} TestModeTouchesNothing(cfg: Config, refusals: map<Path, string>, d: Disk, moves: seq<Move>)
    requires cfg.test
    ensures RunBatch(cfg, refusals, d, moves).disk == d
    ensures RunBatch(cfg, refusals, d, moves).tally.created == []
    decreases |moves|
  {
    if |moves| > 0 {
      TestModeTouchesNothing(cfg, refusals, d, moves[..|moves| - 1]);
    }
  }

  predicate NoDuplicates<T(==)>(s: seq<T>) {
    forall i, j :: 0 <= i < j < |s| ==> s[i] != s[j]
  }

  /** Directories never disappear, and each created sub-folder exists. */
  predicate CreatedExist(cfg: Config, d0: Disk, b: Batch) {
    d0.dirs <= b.disk.dirs
    && forall k :: 0 <= k < |b.tally.created| ==> Child(cfg.sourceDir, b.tally.created[k]) in b.disk.dirs
  }

  /** Directories are only ever added, and every created sub-folder exists afterwards. */
  lemma {:induction false} CreatedExistAfter(cfg: Config, refusals: map<Path, string>, d: Disk, moves: seq<Move>)
    ensures CreatedExist(cfg, d, RunBatch(cfg, refusals, d, moves))
    decreases |moves|
  {
    if |moves| > 0 {
      CreatedExistAfter(cfg, refusals, d, moves[..|moves| - 1]);
      StepKeepsCreated(cfg, refusals, d, RunBatch(cfg, refusals, d, moves[..|moves| - 1]), moves[|moves| - 1]);
    }
  }

  /** A step only adds directories, and the folder it reports is among them. */
  lemma StepKeepsCreated(cfg: Config, refusals: map<Path, string>, d: Disk, b: Batch, m: Move)
    requires CreatedExist(cfg, d, b)
    ensures CreatedExist(cfg, d, Step(cfg, refusals, b, m))
  {
    var s := Step(cfg, refusals, b, m);
    var p := Prepared(cfg, b, m);
    assert m.valid ==> s.disk.dirs == p.disk.dirs && s.tally.created == p.tally.created;
    assert b.tally.created <= p.tally.created;
  }

  /** Each sub-folder is created at most once, however many files go to it. */
  lemma {:induction false} CreatedOnce(cfg: Config, refusals: map<Path, string>, d: Disk, moves: seq<Move>)
    ensures NoDuplicates(RunBatch(cfg, refusals, d, moves).tally.created)
    decreases |moves|
  {
    if |moves| > 0 {
      var m := moves[|moves| - 1];
      var b0 := RunBatch(cfg, refusals, d, moves[..|moves| - 1]);
      CreatedOnce(cfg, refusals, d, moves[..|moves| - 1]);
      CreatedExistAfter(cfg, refusals, d, moves[..|moves| - 1]);
      if m.valid && cfg.useSubdirs && !Present(b0.disk, TargetDir(cfg, m)) && !cfg.test {
        var c := b0.tally.created;
        assert forall k :: 0 <= k < |c| ==> Child(cfg.sourceDir, c[k]) in b0.disk.dirs;
        assert forall k :: 0 <= k < |c| ==> c[k] != m.subdir;
        assert Step(cfg, refusals, b0, m).tally.created == c + [m.subdir];
      }
    }
  }

  /** With overwriting off no file is lost: every move goes to a path where nothing was, so
      the number of files stays the same. */
  lemma {:induction false} NoOverwriteKeepsFiles(cfg: Config, refusals: map<Path, string>, d: Disk, moves: seq<Move>)
    requires !cfg.overwrite
    ensures |RunBatch(cfg, refusals, d, moves).disk.files| == |d.files|
    decreases |moves|
  {
    if |moves| > 0 {
      var m := moves[|moves| - 1];
      var b0 := RunBatch(cfg, refusals, d, moves[..|moves| - 1]);
      NoOverwriteKeepsFiles(cfg, refusals, d, moves[..|moves| - 1]);
      if m.valid && !cfg.test {
        var p := Prepared(cfg, b0, m);
        if !Present(p.disk, m.pathNew) && RenameFailure(refusals, p.disk, m.pathOld, m.pathNew).None? {
          RenameCount(p.disk, m.pathOld, m.pathNew);
        }
      }
    }
  }

  /** The last item's outcome: an item whose target exists and may not be overwritten is
      skipped with "Target file already exists." and moves nothing; a failed move is skipped
      with "Error moving file: " and the reason; otherwise, in test mode too, the item is
      processed under its original name, and outside test mode the file is at its new path and
      no longer at its old one. */
  lemma StepOutcome(cfg: Config, refusals: map<Path, string>, b: Batch, m: Move)
    requires m.valid
    ensures var p := Prepared(cfg, b, m);
      Present(p.disk, m.pathNew) && !cfg.overwrite ==>
        Step(cfg, refusals, b, m) == Skipped(p, m.name, "Target file already exists.")
    ensures var p := Prepared(cfg, b, m);
      !(Present(p.disk, m.pathNew) && !cfg.overwrite) && !cfg.test
      && RenameFailure(refusals, p.disk, m.pathOld, m.pathNew).Some? ==>
        Step(cfg, refusals, b, m)
          == Skipped(p, m.name, "Error moving file: " + RenameFailure(refusals, p.disk, m.pathOld, m.pathNew).value)
    ensures var p := Prepared(cfg, b, m);
      !(Present(p.disk, m.pathNew) && !cfg.overwrite)
      && (cfg.test || RenameFailure(refusals, p.disk, m.pathOld, m.pathNew).None?) ==>
        Step(cfg, refusals, b, m).errors[|b.errors|].None?
        && Step(cfg, refusals, b, m).tally.processed == b.tally.processed + [m.name]
        && Step(cfg, refusals, b, m).tally.skipped == b.tally.skipped
    ensures var s := Step(cfg, refusals, b, m);
      |s.errors| == |b.errors| + 1 && s.errors[..|b.errors|] == b.errors
      && (s.errors[|b.errors|].None? <==> s.tally.processed == b.tally.processed + [m.name])
      && (s.errors[|b.errors|].Some? <==> s.tally.skipped == b.tally.skipped + [m.name])
    ensures var s := Step(cfg, refusals, b, m);
      s.errors[|b.errors|].None? && !cfg.test ==>
        m.pathNew in s.disk.files && (m.pathOld != m.pathNew ==> m.pathOld !in s.disk.files)
  {
    var p := Prepared(cfg, b, m);
    var s := Step(cfg, refusals, b, m);
    assert p.tally.processed == b.tally.processed && p.tally.skipped == b.tally.skipped;
    if s.errors[|b.errors|].None? {
      assert s.tally.skipped == b.tally.skipped;
    } else {
      assert s.tally.processed == b.tally.processed;
    }
  }

  // ----- process_files -----

  /** What the batch reads of an item: unset attributes give placeholders that the batch, for a
      valid item, never reads. */
  function MoveOf(item: FileItem): Move
    reads item`isValid, item`naming
  {
    Move(item.isValid,
      if item.naming.subdir.Set? then item.naming.subdir.value else "",
      item.pathOld,
      if item.naming.pathNew.Set? then item.naming.pathNew.value else [],
      item.nameOld)
  }

  function Moves(media: seq<FileItem>): (ms: seq<Move>)
    reads set i | 0 <= i < |media| :: media[i]
    ensures |ms| == |media|
  {
    seq(|media|, i requires 0 <= i < |media| reads media => MoveOf(media[i]))
  }

  /** What a valid item must have for the batch: a new path, and a sub-folder when sub-folders
      are on. Every item the constructor builds has them. */
  predicate Ready(cfg: Config, item: FileItem)
    reads item
  {
    item.isValid ==> item.naming.pathNew.Set? && (cfg.useSubdirs ==> item.naming.subdir.Set?)
  }

  /** The error an item ends with: the one the batch gave it, or the one it had. */
  function FinalError(errors: seq<Option<string>>, i: nat, before: string): string
    requires i < |errors|
  {
    if errors[i].Some? then errors[i].value else before
  }

  /** One pass of the loop for an item that reads as `m`: the message the item is to be given,
      if any, and the lists and file system after it are those of `Step`. */
  method MoveOne(cfg: Config, m: Move, fs: FileSystem, t: Tally) returns (t': Tally, message: Option<string>)
    modifies fs
    ensures Step(cfg, fs.refusals, Batch(old(fs.State()), t, []), m) == Batch(fs.State(), t', [message])
  {
    t' := t;
    message := None;
    ghost var b := Batch(fs.State(), t, []);
    if !m.valid {
      return;
    }
    if cfg.useSubdirs {
      var targetDir := Child(cfg.sourceDir, m.subdir);
      if !fs.Exists(targetDir) && !cfg.test {
        fs.MakeDir(targetDir);
        t' := t'.(created := t'.created + [m.subdir]);
      }
    }
    assert fs.State() == Prepared(cfg, b, m).disk;
    if fs.Exists(m.pathNew) && !cfg.overwrite {
      message := Some("Target file already exists.");
    } else if !cfg.test {
      var failure := fs.Rename(m.pathOld, m.pathNew);
      if failure.Some? {
        message := Some("Error moving file: " + failure.value);
      }
    }
    if message.Some? {
      t' := t'.(skipped := t'.skipped + [m.name]);
    } else {
      t' := t'.(processed := t'.processed + [m.name]);
    }
  }

  /** `file.error = ...` for the loop's current item, keeping track of the errors of all items:
      those already handled have the message the batch gave them, if any, and the others
      their original error. */
  method RecordError(file: FileItem, message: Option<string>, ghost media: seq<FileItem>, ghost i: nat,
                     ghost errors: seq<Option<string>>, ghost start: seq<string>)
    requires i < |media| && media[i] == file && |errors| == i && |start| == |media|
    requires forall a, b :: 0 <= a < b < |media| ==> media[a] != media[b]
    requires forall k :: 0 <= k < i ==> media[k].error == FinalError(errors, k, start[k])
    requires forall k :: i <= k < |media| ==> media[k].error == start[k]
    modifies file`error
    ensures forall k :: 0 <= k <= i ==> media[k].error == FinalError(errors + [message], k, start[k])
    ensures forall k :: i < k < |media| ==> media[k].error == start[k]
  {
    if message.Some? {
      file.error := message.value;
    }
    assert forall k :: 0 <= k < |media| && k != i ==> media[k] != file;
  }

  /** The step does not depend on the errors handed out before it. */
  lemma StepErrors(cfg: Config, refusals: map<Path, string>, b: Batch, m: Move)
    ensures var s := Step(cfg, refusals, b.(errors := []), m);
      Step(cfg, refusals, b, m) == s.(errors := b.errors + s.errors)
  {
  }

  /** One more item handled by the loop is one more step of the batch. */
  lemma BatchStep(cfg: Config, refusals: map<Path, string>, d: Disk, moves: seq<Move>, i: nat,
                  b: Batch, message: Option<string>)
    requires i < |moves|
    requires RunBatch(cfg, refusals, d, moves[..i]) == b
    ensures Step(cfg, refusals, b.(errors := []), moves[i]).errors == [message] ==>
      RunBatch(cfg, refusals, d, moves[..i + 1])
        == Step(cfg, refusals, b.(errors := []), moves[i]).(errors := b.errors + [message])
  {
    assert moves[..i + 1][..i] == moves[..i];
    StepErrors(cfg, refusals, b, moves[i]);
  }

  /** Where the loop of `process_files` stands after its first `i` items: the items read as
      `moves` throughout, the file system and the lists are those of the batch over the first `i`
      moves, the items handled carry the message it gave them, and the others their error from
      `start`. */
  predicate Progress(cfg: Config, media: seq<FileItem>, fs: FileSystem, moves: seq<Move>, d0: Disk,
                     start: seq<string>, i: nat, tally: Tally, errors: seq<Option<string>>)
    reads fs, set k | 0 <= k < |media| :: media[k]
  {
    i <= |media| && |moves| == |media| && |start| == |media| && |errors| == i
    && (forall k :: 0 <= k < |media| ==> MoveOf(media[k]) == moves[k])
    && RunBatch(cfg, fs.refusals, d0, moves[..i]) == Batch(fs.State(), tally, errors)
    && (forall k :: 0 <= k < i ==> media[k].error == FinalError(errors, k, start[k]))
    && (forall k :: i <= k < |media| ==> media[k].error == start[k])
  }

  /** One pass of the loop of `process_files`, for the item `file` at position `i`. */
  method Iterate(cfg: Config, file: FileItem, fs: FileSystem, tally: Tally, ghost media: seq<FileItem>,
                 ghost i: nat, ghost moves: seq<Move>, ghost d0: Disk, ghost start: seq<string>,
                 ghost errors: seq<Option<string>>)
    returns (tally': Tally, message: Option<string>)
    requires forall a, b :: 0 <= a < b < |media| ==> media[a] != media[b]
    requires i < |media| && media[i] == file
    requires Progress(cfg, media, fs, moves, d0, start, i, tally, errors)
    modifies fs, file`error
    ensures Progress(cfg, media, fs, moves, d0, start, i + 1, tally', errors + [message])
  {
    ghost var b := Batch(fs.State(), tally, errors);
    tally', message := MoveOne(cfg, MoveOf(file), fs, tally);
    BatchStep(cfg, fs.refusals, d0, moves, i, b, message);
    RecordError(file, message, media, i, errors, start);
  }

  /** `process_files`: the batch over the items in order; the new file system, the lists and each
      item's error are those of `RunBatch`. */
  method ProcessFiles(cfg: Config, media: seq<FileItem>, fs: FileSystem) returns (tally: Tally)
    requires forall i, j :: 0 <= i < j < |media| ==> media[i] != media[j]
    requires forall i :: 0 <= i < |media| ==> Ready(cfg, media[i])
    modifies fs, set i | 0 <= i < |media| :: media[i]`error
    ensures Moves(media) == old(Moves(media))
    ensures var b := RunBatch(cfg, fs.refusals, old(fs.State()), old(Moves(media)));
      tally == b.tally && fs.State() == b.disk
      && forall i :: 0 <= i < |media| ==> media[i].error == FinalError(b.errors, i, old(media[i].error))
  {
    ghost var moves := Moves(media);
    ghost var d0 := fs.State();
    ghost var errors: seq<Option<string>> := [];
    ghost var start := seq(|media|, k requires 0 <= k < |media| reads media => media[k].error);
    tally := Tally([], [], []);
    var i := 0;
    while i < |media|
      invariant Progress(cfg, media, fs, moves, d0, start, i, tally, errors)
    {
      var message;
      tally, message := Iterate(cfg, media[i], fs, tally, media, i, moves, d0, start, errors);
      errors := errors + [message];
      i := i + 1;
    }
    assert moves[..|media|] == moves;
    assert forall k :: 0 <= k < |media| ==> Moves(media)[k] == moves[k];
  }
}
