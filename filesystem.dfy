/**
 * The part of the file system the scaffolder touches, as two tables: the set of
 * directory paths and the map from file path to content. `FileUtils.mkdir_p`,
 * `File.write`, `Dir.exist?`, `File.exist?`, `File.join` and `File.dirname` are
 * modelled on them; a program started with `system` is recorded, not run.
 */
module FileSys {
  import opened Strings

  /** A path as its segments; the root directory is `[]`, so `File.join` is `+`. */
  type Path = seq<string>

  /** The directory holding `p` (`File.dirname`); the root is its own parent. */
  function Dirname(p: Path): (r: Path)
    ensures |p| > 0 ==> p == r + [p[|p| - 1]]
    ensures |p| == 0 ==> r == []
  {
    if |p| == 0 then [] else p[..|p| - 1]
  }

  /** The absolute path as Ruby prints it, `/a/b/c`. */
  function PathString(p: Path): string
  {
    "/" + Join(p, "/")
  }

  /** `p` and each of its ancestors, the root included. */
  function Prefixes(p: Path): (r: set<Path>)
    ensures p in r && [] in r
    ensures forall q :: q in r <==> |q| <= |p| && q == p[..|q|]
  {
    var r := set k | 0 <= k <= |p| :: p[..k];
    assert p[..|p|] == p;
    assert forall q :: |q| <= |p| && q == p[..|q|] ==> q in r;
    r
  }

  /** Every path of `ps` together with all of its ancestors. */
  ghost function Ancestry(ps: set<Path>): set<Path>
  {
    set p, k | p in ps && 0 <= k <= |p| :: p[..k]
  }

  /** Every ancestor of a directory is a directory. */
  ghost predicate PrefixClosed(dirs: set<Path>)
  {
    forall d, k :: d in dirs && 0 <= k <= |d| ==> d[..k] in dirs
  }

  /** A whole file system at one moment. */
  datatype Snapshot = Snapshot(dirs: set<Path>, files: map<Path, string>)

  /** What every real file system satisfies: the root exists, directories are closed under
      ancestors, and every file sits in an existing directory. */
  ghost predicate WellFormed(s: Snapshot)
  {
    && [] in s.dirs
    && PrefixClosed(s.dirs)
    && forall f :: f in s.files ==> Dirname(f) in s.dirs
  }

  /** The state after `FileUtils.mkdir_p(p)`. */
  function AfterMkdirP(s: Snapshot, p: Path): Snapshot
  {
    s.(dirs := s.dirs + Prefixes(p))
  }

  /** The state after `File.write(p, content)`. */
  function AfterWrite(s: Snapshot, p: Path, content: string): Snapshot
  {
    s.(files := s.files[p := content])
  }

  lemma AncestryPrefixClosed(ps: set<Path>)
    ensures PrefixClosed(Ancestry(ps))
  {
    forall d, k | d in Ancestry(ps) && 0 <= k <= |d| ensures d[..k] in Ancestry(ps) {
      var p, j :| p in ps && 0 <= j <= |p| && d == p[..j];
      assert d[..k] == p[..k];
    }
  }

  lemma {:induction false} PrefixesPrefixClosed(p: Path)
    ensures PrefixClosed(Prefixes(p))
  {
    assert Prefixes(p) == Ancestry({p});
    AncestryPrefixClosed({p});
  }

  lemma AncestryUnion(a: set<Path>, b: set<Path>)
    ensures Ancestry(a + b) == Ancestry(a) + Ancestry(b)
  {
  }

  lemma AncestrySingleton(p: Path)
    ensures Ancestry({p}) == Prefixes(p)
  {
  }

  /** Adding one path to `ps` adds that path's ancestors and nothing else. */
  lemma AncestryAdd(ps: set<Path>, p: Path)
    ensures Ancestry(ps + {p}) == Ancestry(ps) + Prefixes(p)
  {
    AncestryUnion(ps, {p});
    AncestrySingleton(p);
  }

  /** Each path of `ps` brings all of its ancestors into `Ancestry(ps)`. */
  lemma AncestryCovers(ps: set<Path>, p: Path)
    requires p in ps
    ensures Prefixes(p) <= Ancestry(ps)
  {
    forall q | q in Prefixes(p) ensures q in Ancestry(ps) {
      assert q == p[..|q|];
    }
  }

  /** In a prefix-closed set, a member brings all of its ancestors with it. */
  lemma PrefixesOfMember(dirs: set<Path>, p: Path)
    requires PrefixClosed(dirs) && p in dirs
    ensures Prefixes(p) <= dirs
  {
  }

  /** `mkdir_p` keeps a well-formed file system well-formed. */
  lemma {:induction false} MkdirPWellFormed(s: Snapshot, p: Path)
    requires WellFormed(s)
    ensures WellFormed(AfterMkdirP(s, p))
  {
    PrefixesPrefixClosed(p);
  }

  /** Writing a file into an existing directory keeps a well-formed file system well-formed. */
  lemma WriteWellFormed(s: Snapshot, p: Path, content: string)
    requires WellFormed(s) && Dirname(p) in s.dirs
    ensures WellFormed(AfterWrite(s, p, content))
  {
  }

  /** A program run through `system`: its working directory and its command line. */
  datatype Command = Command(cwd: Path, line: string)

  /** The file system the Ruby process sees. */
  class FileSystem {
    var dirs: set<Path>
    var files: map<Path, string>
    /** The external programs started so far, oldest first; their effects are not modelled. */
    var commands: seq<Command>

    function State(): Snapshot
      reads this
    {
      Snapshot(dirs, files)
    }

    ghost predicate Valid()
      reads this
    {
      WellFormed(State())
    }

    constructor (initial: Snapshot)
      requires WellFormed(initial)
      ensures Valid() && State() == initial && commands == []
    {
      dirs, files, commands := initial.dirs, initial.files, [];
    }

    /** `Dir.exist?(p)` */
    function DirExists(p: Path): bool
      reads this
    {
      p in dirs
    }

    /** `File.exist?(p)`: true for a file and for a directory alike. */
    function Exists(p: Path): bool
      reads this
    {
      p in dirs || p in files
    }

    /** `FileUtils.mkdir_p(p)`: creates `p` and each missing ancestor, outermost first. */
    method MkdirP(p: Path)
      requires Valid()
      modifies this
      ensures Valid()
      ensures State() == AfterMkdirP(old(State()), p)
      ensures commands == old(commands)
    {
      var k := 0;
      while k <= |p|
        invariant 0 <= k <= |p| + 1
        invariant dirs == old(dirs) + set j | 0 <= j < k :: p[..j]
        invariant files == old(files) && commands == old(commands)
      {
        if p[..k] !in dirs {
          dirs := dirs + {p[..k]};
        }
        k := k + 1;
      }
      assert (set j | 0 <= j < k :: p[..j]) == Prefixes(p);
      MkdirPWellFormed(old(State()), p);
    }

    /** `File.write(p, content)`: creates or replaces the file. */
    method Write(p: Path, content: string)
      requires Valid() && Dirname(p) in dirs
      modifies this
      ensures Valid()
      ensures State() == AfterWrite(old(State()), p, content)
      ensures commands == old(commands)
    {
      WriteWellFormed(State(), p, content);
      files := files[p := content];
    }

    /** `system(line)` run in the directory `cwd`; what the program does is not modelled and its
        exit status is not returned. */
    method System(cwd: Path, line: string)
      modifies this
      ensures State() == old(State())
      ensures commands == old(commands) + [Command(cwd, line)]
    {
      commands := commands + [Command(cwd, line)];
    }
  }
}
