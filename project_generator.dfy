/**
 * `Proj::ProjectGenerator`: materializes a template under a target directory. The target is
 * taken already resolved to an absolute path.
 */
module ProjectGenerators {
  import opened Wrappers
  import opened Strings
  import opened FileSys
  import opened Templates

  /** `DirectoryExistsError` */
  datatype GenerateError = DirectoryExistsError(message: string)

  function DirectoryExistsMessage(target: Path): string
  {
    "Target directory '" + PathString(target) + "' already exists. Use --force to reuse it."
  }

  /** The command line `initialize_git` hands to `system`. */
  const GitInitCommand := "git init > /dev/null 2>&1"

  // ---------------------------------------------------------------------------
  // What a run does to the file system
  // ---------------------------------------------------------------------------

  /** The relative paths `rels`, joined onto `target`. */
  ghost function Under(target: Path, rels: set<Path>): set<Path>
  {
    set r | r in rels :: target + r
  }

  /** The parent directories of the files `rels` under `target`. */
  ghost function ParentsUnder(target: Path, rels: set<Path>): set<Path>
  {
    set r | r in rels :: Dirname(target + r)
  }

  /** Joining onto `target` is one-to-one. */
  lemma JoinInjective(target: Path)
    ensures forall r1, r2 :: target + r1 == target + r2 ==> r1 == r2
  {
    forall r1, r2 | target + r1 == target + r2 ensures r1 == r2 {
      assert (target + r1)[|target|..] == r1;
      assert (target + r2)[|target|..] == r2;
    }
  }

  /** The files of `files` whose relative path is in `rels`, placed under `target`. */
  ghost function Placed(target: Path, files: map<Path, string>, rels: set<Path>): map<Path, string>
    requires rels <= files.Keys
  {
    JoinInjective(target);
    map r | r in rels :: target + r := files[r]
  }

  /** The target and the first directories of `ds`, joined onto it, in the order `create_directories`
      makes them. */
  ghost function DeclaredRoots(target: Path, ds: seq<Path>): set<Path>
  {
    if |ds| == 0 then {target} else DeclaredRoots(target, ds[..|ds| - 1]) + {target + ds[|ds| - 1]}
  }

  lemma {:induction false} DeclaredRootsUnder(target: Path, ds: seq<Path>)
    ensures DeclaredRoots(target, ds) == {target} + Under(target, set d | d in ds)
  {
    if |ds| > 0 {
      var init := ds[..|ds| - 1];
      DeclaredRootsUnder(target, init);
      assert (set d | d in ds) == (set d | d in init) + {ds[|ds| - 1]} by {
        assert ds == init + [ds[|ds| - 1]];
      }
    }
  }

  lemma ParentsUnderAdd(target: Path, rels: set<Path>, r: Path)
    ensures ParentsUnder(target, rels + {r}) == ParentsUnder(target, rels) + {Dirname(target + r)}
  {
  }

  lemma PlacedAdd(target: Path, files: map<Path, string>, rels: set<Path>, r: Path)
    requires rels <= files.Keys && r in files
    ensures Placed(target, files, rels + {r}) == Placed(target, files, rels)[target + r := files[r]]
  {
    JoinInjective(target);
  }

  /** Every directory a run creates: the target, each declared directory and each file's parent,
      with all of their ancestors. */
  ghost function CreatedDirectories(t: Template, target: Path): set<Path>
  {
    Ancestry({target} + Under(target, set d | d in t.directories) + ParentsUnder(target, t.files.Keys))
  }

  /** The file system after the directories and the files have been created. */
  ghost function Materialize(s: Snapshot, t: Template, target: Path): Snapshot
  {
    Snapshot(s.dirs + CreatedDirectories(t, target), s.files + Placed(target, t.files, t.files.Keys))
  }

  /** `run` on the file system `s`, leaving aside the optional `git init`. */
  ghost function Generate(s: Snapshot, t: Template, target: Path, force: bool): (Outcome<GenerateError>, Snapshot)
  {
    if target in s.dirs && !force then (Fail(DirectoryExistsError(DirectoryExistsMessage(target))), s)
    else (Pass, Materialize(s, t, target))
  }

  lemma UnionUpdate(a: map<Path, string>, b: map<Path, string>, k: Path, v: string)
    ensures a + b[k := v] == (a + b)[k := v]
  {
  }

  /** The state `create_files` has reached once the files `done` are written. */
  ghost function FilesWritten(s: Snapshot, target: Path, files: map<Path, string>, done: set<Path>): Snapshot
    requires done <= files.Keys
  {
    Snapshot(s.dirs + Ancestry(ParentsUnder(target, done)), s.files + Placed(target, files, done))
  }

  lemma CreateFilesStart(s: Snapshot, target: Path, files: map<Path, string>)
    ensures FilesWritten(s, target, files, {}) == s
  {
    assert ParentsUnder(target, {}) == {};
    assert Placed(target, files, {}) == map[];
  }

  /** Writing one more file, after `mkdir_p` of its parent. */
  lemma CreateFilesStep(s: Snapshot, target: Path, files: map<Path, string>, done: set<Path>, r: Path)
    requires done <= files.Keys && r in files
    ensures FilesWritten(s, target, files, done + {r})
         == AfterWrite(AfterMkdirP(FilesWritten(s, target, files, done), Dirname(target + r)), target + r, files[r])
  {
    ParentsUnderAdd(target, done, r);
    AncestryAdd(ParentsUnder(target, done), Dirname(target + r));
    PlacedAdd(target, files, done, r);
    UnionUpdate(s.files, Placed(target, files, done), target + r, files[r]);
  }

  // ---------------------------------------------------------------------------
  // Properties of a run
  // ---------------------------------------------------------------------------

  /** An existing target without `force` fails, names the target, and leaves the file system as it
      was; otherwise the run succeeds. */
  lemma GenerateGate(s: Snapshot, t: Template, target: Path, force: bool)
    ensures Generate(s, t, target, force).0.Fail? <==> target in s.dirs && !force
    ensures Generate(s, t, target, force).0.Fail? ==>
      Generate(s, t, target, force) == (Fail(DirectoryExistsError(DirectoryExistsMessage(target))), s)
  {
  }

  /** After materializing: the target and its ancestors are directories, every declared directory
      is one, and every template file is present under the target, with its exact content, in a
      directory that exists. */
  lemma MaterializeCreates(s: Snapshot, t: Template, target: Path)
    ensures Prefixes(target) <= Materialize(s, t, target).dirs
    ensures forall d :: d in t.directories ==> Prefixes(target + d) <= Materialize(s, t, target).dirs
    ensures forall r :: r in t.files ==>
      && target + r in Materialize(s, t, target).files
      && Materialize(s, t, target).files[target + r] == t.files[r]
      && Dirname(target + r) in Materialize(s, t, target).dirs
  {
    CreatesDirectories(s, t, target);
    CreatesFiles(s, t, target);
  }

  lemma CreatesDirectories(s: Snapshot, t: Template, target: Path)
    ensures Prefixes(target) <= Materialize(s, t, target).dirs
    ensures forall d :: d in t.directories ==> Prefixes(target + d) <= Materialize(s, t, target).dirs
    ensures forall r :: r in t.files ==> Dirname(target + r) in Materialize(s, t, target).dirs
  {
    var declared := set d | d in t.directories;
    var roots := {target} + Under(target, declared) + ParentsUnder(target, t.files.Keys);
    AncestryCovers(roots, target);
    forall d | d in t.directories ensures Prefixes(target + d) <= Materialize(s, t, target).dirs {
      assert target + d in Under(target, declared);
      AncestryCovers(roots, target + d);
    }
    forall r | r in t.files ensures Dirname(target + r) in Materialize(s, t, target).dirs {
      assert Dirname(target + r) in ParentsUnder(target, t.files.Keys);
      AncestryCovers(roots, Dirname(target + r));
    }
  }

  lemma CreatesFiles(s: Snapshot, t: Template, target: Path)
    ensures forall r :: r in t.files ==>
      && target + r in Materialize(s, t, target).files
      && Materialize(s, t, target).files[target + r] == t.files[r]
  {
    JoinInjective(target);
  }

  /** Nothing the template does not name changes: a path that is not one of the template's files
      keeps its old state, and no directory is created outside `CreatedDirectories`. */
  lemma MaterializeFrame(s: Snapshot, t: Template, target: Path, q: Path)
    requires q !in Under(target, t.files.Keys)
    ensures q in Materialize(s, t, target).files <==> q in s.files
    ensures q in s.files ==> Materialize(s, t, target).files[q] == s.files[q]
    ensures q in Materialize(s, t, target).dirs <==> q in s.dirs || q in CreatedDirectories(t, target)
  {
    assert q !in Placed(target, t.files, t.files.Keys);
  }

  /** Materializing twice gives the same file system as materializing once. */
  lemma MaterializeIdempotent(s: Snapshot, t: Template, target: Path)
    ensures Materialize(Materialize(s, t, target), t, target) == Materialize(s, t, target)
  {
    var once := Materialize(s, t, target);
    var placed := Placed(target, t.files, t.files.Keys);
    assert once.files + placed == once.files;
  }

  /** A second run with `force` succeeds and leaves the same file system as the first run. */
  lemma ForcedRerunIsStable(s: Snapshot, t: Template, target: Path, force: bool)
    requires Generate(s, t, target, force).0.Pass?
    ensures Generate(Generate(s, t, target, force).1, t, target, true)
         == (Pass, Generate(s, t, target, force).1)
  {
    MaterializeIdempotent(s, t, target);
  }

  /** Materializing keeps a well-formed file system well-formed. */
  lemma MaterializeWellFormed(s: Snapshot, t: Template, target: Path)
    requires WellFormed(s)
    ensures WellFormed(Materialize(s, t, target))
  {
    var roots := {target} + Under(target, set d | d in t.directories) + ParentsUnder(target, t.files.Keys);
    AncestryPrefixClosed(roots);
    MaterializeCreates(s, t, target);
  }

  /** `p` lies inside `target` (or is `target`). */
  ghost predicate Within(target: Path, p: Path)
  {
    |target| <= |p| && p[..|target|] == target
  }

  /** Materializing into a target that does not exist yet gives, inside the target, exactly the
      template's files and exactly the directories the run creates there. */
  lemma FreshTargetGetsExactlyTheTemplate(s: Snapshot, t: Template, target: Path, q: Path)
    requires WellFormed(s) && target !in s.dirs && target !in s.files
    requires Within(target, q)
    ensures q in Materialize(s, t, target).files <==> q in Under(target, t.files.Keys)
    ensures q in Materialize(s, t, target).dirs <==> q in CreatedDirectories(t, target)
  {
    assert q !in s.dirs;
    if |q| > |target| {
      assert Dirname(q)[..|target|] == q[..|target|];
    } else {
      assert q == q[..|target|];
    }
    assert q !in s.files;
    if q in Under(target, t.files.Keys) {
      var r :| r in t.files && q == target + r;
      assert q in Placed(target, t.files, t.files.Keys);
    } else {
      assert q !in Placed(target, t.files, t.files.Keys);
    }
  }

  /** `post_init_commands` has no effect on a run. */
  lemma PostInitCommandsAreInert(s: Snapshot, t: Template, target: Path, force: bool, cmds: seq<string>)
    ensures Generate(s, t.(postInitCommands := cmds), target, force) == Generate(s, t, target, force)
  {
  }

  // ---------------------------------------------------------------------------
  // The generator
  // ---------------------------------------------------------------------------

  class ProjectGenerator {
    const template: Template
    /** `target_path`: the absolute path of the project directory. */
    const target: Path
    const git: bool
    const force: bool

    constructor (template: Template, target: Path, git: bool := false, force: bool := false)
      ensures this.template == template && this.target == target
      ensures this.git == git && this.force == force
    {
      this.template := template;
      this.target := target;
      this.git := git;
      this.force := force;
    }

    /** `run`: validate, create the directories, write the files, then `git init` if asked. */
    method Run(fs: FileSystem) returns (r: Outcome<GenerateError>)
      requires fs.Valid()
      modifies fs
      ensures fs.Valid()
      ensures (r, fs.State()) == Generate(old(fs.State()), template, target, force)
      ensures fs.commands == old(fs.commands) + (if r.Pass? && git then [Command(target, GitInitCommand)] else [])
    {
      r := ValidateTargetDirectory(fs);
      if r.Fail? {
        return;
      }
      ghost var s0 := fs.State();
      CreateDirectories(fs);
      CreateFiles(fs);
      AncestryUnion({target} + Under(target, set d | d in template.directories),
                    ParentsUnder(target, template.files.Keys));
      assert fs.State() == Materialize(s0, template, target);
      if git {
        InitializeGit(fs);
      }
    }

    /** `validate_target_directory` */
    method ValidateTargetDirectory(fs: FileSystem) returns (r: Outcome<GenerateError>)
      ensures r.Fail? <==> target in fs.dirs && !force
      ensures r.Fail? ==> r.error == DirectoryExistsError(DirectoryExistsMessage(target))
    {
      if fs.DirExists(target) && !force {
        r := Fail(DirectoryExistsError(DirectoryExistsMessage(target)));
      } else {
        r := Pass;
      }
    }

    /** `create_directories`: `mkdir_p` of the target, then of each declared directory. */
    method CreateDirectories(fs: FileSystem)
      requires fs.Valid()
      modifies fs
      ensures fs.Valid()
      ensures fs.dirs == old(fs.dirs) + Ancestry({target} + Under(target, set d | d in template.directories))
      ensures fs.files == old(fs.files) && fs.commands == old(fs.commands)
    {
      var ds := template.directories;
      fs.MkdirP(target);
      AncestrySingleton(target);
      var i := 0;
      while i < |ds|
        invariant 0 <= i <= |ds|
        invariant fs.Valid()
        invariant fs.dirs == old(fs.dirs) + Ancestry(DeclaredRoots(target, ds[..i]))
        invariant fs.files == old(fs.files) && fs.commands == old(fs.commands)
      {
        fs.MkdirP(target + ds[i]);
        assert ds[..i + 1][..i] == ds[..i];
        AncestryAdd(DeclaredRoots(target, ds[..i]), target + ds[i]);
        i := i + 1;
      }
      assert ds[..i] == ds;
      DeclaredRootsUnder(target, ds);
    }

    /** `create_files`: for each file, `mkdir_p` its parent unless it exists, then write it. */
    method CreateFiles(fs: FileSystem)
      requires fs.Valid()
      modifies fs
      ensures fs.Valid()
      ensures fs.State() == FilesWritten(old(fs.State()), target, template.files, template.files.Keys)
      ensures fs.commands == old(fs.commands)
    {
      var files := template.files;
      var remaining := files.Keys;
      ghost var done: set<Path> := {};
      CreateFilesStart(old(fs.State()), target, files);
      while remaining != {}
        invariant remaining !! done && remaining + done == files.Keys
        invariant fs.Valid()
        invariant fs.State() == FilesWritten(old(fs.State()), target, files, done)
        invariant fs.commands == old(fs.commands)
        decreases remaining
      {
        var r :| r in remaining;
        CreateFile(fs, r);
        CreateFilesStep(old(fs.State()), target, files, done, r);
        remaining := remaining - {r};
        done := done + {r};
      }
    }

    /** One step of `create_files`: `mkdir_p` the parent unless it exists, then write the file. */
    method CreateFile(fs: FileSystem, r: Path)
      requires fs.Valid() && r in template.files
      modifies fs
      ensures fs.Valid()
      ensures fs.State() == AfterWrite(AfterMkdirP(old(fs.State()), Dirname(target + r)), target + r, template.files[r])
      ensures fs.commands == old(fs.commands)
    {
      var path := target + r;
      var parent := Dirname(path);
      if !fs.DirExists(parent) {
        fs.MkdirP(parent);
      } else {
        PrefixesOfMember(fs.dirs, parent);
      }
      fs.Write(path, template.files[r]);
    }

    /** `initialize_git`: `git init` in the target; its output and exit status are dropped. */
    method InitializeGit(fs: FileSystem)
      modifies fs
      ensures fs.State() == old(fs.State())
      ensures fs.commands == old(fs.commands) + [Command(target, GitInitCommand)]
    {
      fs.System(target, GitInitCommand);
    }
  }
}
