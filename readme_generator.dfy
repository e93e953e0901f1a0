/**
 * `Proj::ReadmeGenerator`: writes a README.md skeleton into a directory. The directory is
 * taken already resolved to an absolute path.
 */
module ReadmeGenerators {
  import opened Wrappers
  import opened Strings
  import opened FileSys

  // ---------------------------------------------------------------------------
  // build_content
  // ---------------------------------------------------------------------------

  const Placeholder := "Short description of the project."

  /*
   * The five headings and their guidance sentences. The longer sentences are spelt as
   * concatenations of short pieces; each constant is still the one sentence the README shows.
   */
  const OverviewHeading := "## Overview"
  const OverviewGuidance := "Explain " + "the purpose " + "of the " + "project, " + "its main " + "features, "
                            + "and the " + "context " + "in which " + "it is used."
  const InstallationHeading := "## Installation"
  const InstallationGuidance := "Describe " + "how to " + "install " + "dependencies, " + "set up " + "the "
                                + "environment, " + "and run " + "the project."
  const UsageHeading := "## Usage"
  const UsageGuidance := "Provide " + "examples " + "of how " + "to run " + "the " + "application " + "and typical "
                         + "usage " + "scenarios."
  const DevelopmentHeading := "## Development"
  const DevelopmentGuidance := "Document " + "how to " + "work on " + "the codebase, " + "run tests, " + "and "
                               + "contribute " + "changes."
  const LicenseHeading := "## License"
  const LicenseGuidance := "State " + "the license " + "under which " + "the project " + "is distributed."

  /** The third line: the stripped description, or the placeholder when there is none or it is blank. */
  function DescriptionLine(description: Option<string>): string
  {
    if description.None? || Strip(description.value) == "" then Placeholder
    else Strip(description.value)
  }

  /** A section: its heading, a blank line, its guidance sentence and a blank line. */
  function Section(heading: string, guidance: string): seq<string>
  {
    [heading, "", guidance, ""]
  }

  /** The lines before the first section: the title, the description line and two blank lines. */
  function TitleBlock(projectName: string, description: Option<string>): seq<string>
  {
    ["# " + projectName, "", DescriptionLine(description), ""]
  }

  const Headings := [OverviewHeading, InstallationHeading, UsageHeading, DevelopmentHeading, LicenseHeading]
  const Guidance := [OverviewGuidance, InstallationGuidance, UsageGuidance, DevelopmentGuidance, LicenseGuidance]

  /** The lines `build_content` collects, in order. */
  function ContentLines(projectName: string, description: Option<string>): seq<string>
  {
    TitleBlock(projectName, description)
      + Section(OverviewHeading, OverviewGuidance)
      + Section(InstallationHeading, InstallationGuidance)
      + Section(UsageHeading, UsageGuidance)
      + Section(DevelopmentHeading, DevelopmentGuidance)
      + Section(LicenseHeading, LicenseGuidance)
  }

  /** `build_content`: the lines joined with line feeds. */
  function BuildContent(projectName: string, description: Option<string>): string
  {
    Join(ContentLines(projectName, description), "\n")
  }

  /** No description, or one made only of whitespace, gives the placeholder; any other description
      gives itself with the surrounding whitespace removed, which is never blank. */
  lemma DescriptionLineChoice(description: Option<string>)
    ensures description.None? ==> DescriptionLine(description) == Placeholder
    ensures description.Some? && AllSpace(description.value) ==> DescriptionLine(description) == Placeholder
    ensures description.Some? && !AllSpace(description.value) ==>
      && DescriptionLine(description) == Strip(description.value)
      && |DescriptionLine(description)| > 0
      && !IsSpace(DescriptionLine(description)[0])
  {
  }

  /** A description that is already trimmed and not empty appears verbatim as the third line. */
  lemma TrimmedDescriptionVerbatim(d: string)
    requires |d| > 0 && !IsSpace(d[0]) && !IsSpace(d[|d| - 1])
    ensures DescriptionLine(Some(d)) == d
  {
    var r := Strip(d);
    var i, j :| 0 <= i <= j <= |d| && r == d[i..j] && SpaceBetween(d, 0, i) && SpaceBetween(d, j, |d|);
    assert d[0..|d|] == d;
  }

  /** The five sections, in order: section `k` takes lines `4k + 4` to `4k + 7`, after the
      title block, and the README has 24 lines. */
  lemma {:induction false} SectionLayout(projectName: string, description: Option<string>)
    ensures |ContentLines(projectName, description)| == 24
    ensures ContentLines(projectName, description)[..4] == TitleBlock(projectName, description)
    ensures forall k :: 0 <= k < 5 ==>
      ContentLines(projectName, description)[4 * k + 4..4 * k + 8] == Section(Headings[k], Guidance[k])
  {
    LayoutOf(TitleBlock(projectName, description), Headings, Guidance, ContentLines(projectName, description));
  }

  /** Four title lines followed by five sections occupy 24 lines, section `k` at `4k + 4`. */
  lemma LayoutOf(title: seq<string>, hs: seq<string>, gs: seq<string>, lines: seq<string>)
    requires |title| == 4 && |hs| == 5 && |gs| == 5
    requires lines == title + Section(hs[0], gs[0]) + Section(hs[1], gs[1]) + Section(hs[2], gs[2])
                     + Section(hs[3], gs[3]) + Section(hs[4], gs[4])
    ensures |lines| == 24 && lines[..4] == title
    ensures forall k :: 0 <= k < 5 ==> lines[4 * k + 4..4 * k + 8] == Section(hs[k], gs[k])
  {
    assert lines[..4] == title;
    assert lines[4..8] == Section(hs[0], gs[0]);
    assert lines[8..12] == Section(hs[1], gs[1]);
    assert lines[12..16] == Section(hs[2], gs[2]);
    assert lines[16..20] == Section(hs[3], gs[3]);
    assert lines[20..24] == Section(hs[4], gs[4]);
  }

  lemma HeadingsHaveNoLineFeed()
    ensures forall k :: 0 <= k < 5 ==> '\n' !in Headings[k]
  {
  }

  /** No guidance sentence holds a line feed. Each sentence is checked by a lemma of its own, which
      keeps the check of each long literal small. */
  lemma GuidanceHasNoLineFeed()
    ensures forall k :: 0 <= k < 5 ==> '\n' !in Guidance[k]
  {
    OverviewGuidanceHasNoLineFeed();
    InstallationGuidanceHasNoLineFeed();
    UsageGuidanceHasNoLineFeed();
    DevelopmentGuidanceHasNoLineFeed();
    LicenseGuidanceHasNoLineFeed();
  }

  lemma OverviewGuidanceHasNoLineFeed() ensures '\n' !in OverviewGuidance {}
  lemma InstallationGuidanceHasNoLineFeed() ensures '\n' !in InstallationGuidance {}
  lemma UsageGuidanceHasNoLineFeed() ensures '\n' !in UsageGuidance {}
  lemma DevelopmentGuidanceHasNoLineFeed() ensures '\n' !in DevelopmentGuidance {}
  lemma LicenseGuidanceHasNoLineFeed() ensures '\n' !in LicenseGuidance {}

  /** Cutting the content at line feeds gives back the 24 lines, provided neither the project
      name nor the description line holds a line feed. */
  lemma {:induction false} ContentSplitsIntoLines(projectName: string, description: Option<string>)
    requires '\n' !in projectName && '\n' !in DescriptionLine(description)
    ensures Split(BuildContent(projectName, description), '\n') == ContentLines(projectName, description)
  {
    var lines := ContentLines(projectName, description);
    SectionLayout(projectName, description);
    HeadingsHaveNoLineFeed();
    GuidanceHasNoLineFeed();
    assert '\n' !in "# " + projectName;
    forall i | 0 <= i < |lines| ensures '\n' !in lines[i] {
      if i >= 4 {
        var k := (i - 4) / 4;
        assert lines[i] == Section(Headings[k], Guidance[k])[i - 4 * k - 4] by {
          assert lines[i] == lines[4 * k + 4..4 * k + 8][i - 4 * k - 4];
        }
      } else {
        assert lines[i] == lines[..4][i];
      }
    }
    SplitJoin(lines, '\n');
  }

  lemma JoinFour(a: string, b: string, c: string, d: string, sep: string)
    ensures Join([a, b, c, d], sep) == a + sep + b + sep + c + sep + d
  {
    assert [c, d][1..] == [d];
    assert Join([c, d], sep) == c + sep + d;
    assert [b, c, d][1..] == [c, d];
    assert Join([b, c, d], sep) == b + sep + (c + sep + d);
    assert [a, b, c, d][1..] == [b, c, d];
  }

  /** Lines that start with a title block join into a string that starts with it. */
  lemma {:induction false} OpeningOf(title: string, desc: string, heading: string, rest: seq<string>)
    requires |rest| > 0
    ensures StartsWith(Join([title, "", desc, ""] + ([heading] + rest), "\n"),
                       title + "\n\n" + desc + "\n\n" + heading + "\n")
  {
    JoinAppend([title, "", desc, ""], [heading] + rest, "\n");
    JoinFour(title, "", desc, "", "\n");
    assert ([heading] + rest)[1..] == rest;
    var tail := Join(rest, "\n");
    var opening := title + "\n\n" + desc + "\n\n" + heading + "\n";
    assert Join([title, "", desc, ""] + ([heading] + rest), "\n") == opening + tail;
    StartsWithAppend(opening, tail);
  }

  /** Lines that end with a section join into a string that ends with it and one line feed. */
  lemma {:induction false} ClosingOf(front: seq<string>, heading: string, guidance: string)
    requires |front| > 0
    ensures EndsWith(Join(front + Section(heading, guidance), "\n"), "\n" + heading + "\n\n" + guidance + "\n")
  {
    JoinAppend(front, Section(heading, guidance), "\n");
    JoinFour(heading, "", guidance, "", "\n");
    var closing := "\n" + heading + "\n\n" + guidance + "\n";
    assert Join(front + Section(heading, guidance), "\n") == Join(front, "\n") + closing;
    EndsWithAppend(Join(front, "\n"), closing);
  }

  /** The README opens with the title line, a blank line, the description line and a blank line,
      then the Overview heading on its own line. */
  lemma {:induction false} ContentOpening(projectName: string, description: Option<string>)
    ensures StartsWith(BuildContent(projectName, description),
      "# " + projectName + "\n\n" + DescriptionLine(description) + "\n\n" + OverviewHeading + "\n")
  {
    var rest := [""] + [OverviewGuidance, ""]
      + Section(InstallationHeading, InstallationGuidance)
      + Section(UsageHeading, UsageGuidance)
      + Section(DevelopmentHeading, DevelopmentGuidance)
      + Section(LicenseHeading, LicenseGuidance);
    assert ContentLines(projectName, description)
        == ["# " + projectName, "", DescriptionLine(description), ""] + ([OverviewHeading] + rest);
    OpeningOf("# " + projectName, DescriptionLine(description), OverviewHeading, rest);
  }

  /** The README closes with the License heading, a blank line, its guidance sentence and a single
      line feed. */
  lemma {:induction false} ContentClosing(projectName: string, description: Option<string>)
    ensures EndsWith(BuildContent(projectName, description),
      "\n" + LicenseHeading + "\n\n" + LicenseGuidance + "\n")
  {
    var front := TitleBlock(projectName, description)
      + Section(OverviewHeading, OverviewGuidance)
      + Section(InstallationHeading, InstallationGuidance)
      + Section(UsageHeading, UsageGuidance)
      + Section(DevelopmentHeading, DevelopmentGuidance);
    ClosingOf(front, LicenseHeading, LicenseGuidance);
  }

  // ---------------------------------------------------------------------------
  // run
  // ---------------------------------------------------------------------------

  /** `ReadmeExistsError` */
  datatype ReadmeError = ReadmeExistsError(message: string)

  function ReadmePath(dir: Path): (p: Path)
    ensures |p| == |dir| + 1 && p[|dir|] == "README.md"
    ensures Dirname(p) == dir
  {
    dir + ["README.md"]
  }

  function ReadmeExistsMessage(path: Path): string
  {
    "README.md already exists at '" + PathString(path) + "'. Use --force to overwrite."
  }

  /** `run` on the file system `s`, writing `content`: `mkdir_p` the directory, refuse if README.md
      exists (as a file or a directory) unless forced, otherwise write. */
  function GenerateReadme(s: Snapshot, dir: Path, content: string, force: bool): (Outcome<ReadmeError>, Snapshot)
  {
    var made := AfterMkdirP(s, dir);
    var path := ReadmePath(dir);
    if (path in made.dirs || path in made.files) && !force then
      (Fail(ReadmeExistsError(ReadmeExistsMessage(path))), made)
    else
      (Pass, AfterWrite(made, path, content))
  }

  /** The directory and its ancestors exist afterwards, on the error path too, and no other
      directory is created. */
  lemma ReadmeDirectoryCreated(s: Snapshot, dir: Path, content: string, force: bool)
    ensures GenerateReadme(s, dir, content, force).1.dirs == s.dirs + Prefixes(dir)
    ensures dir in GenerateReadme(s, dir, content, force).1.dirs
  {
  }

  /** Without `force`, an existing README.md makes the run fail with a message naming its path, and
      no file changes; every other run succeeds. */
  lemma ReadmeRefusal(s: Snapshot, dir: Path, content: string, force: bool)
    ensures var path := ReadmePath(dir);
      (GenerateReadme(s, dir, content, force).0.Fail? <==> (path in s.dirs || path in s.files) && !force)
    ensures GenerateReadme(s, dir, content, force).0.Fail? ==>
      && GenerateReadme(s, dir, content, force).0.error == ReadmeExistsError(ReadmeExistsMessage(ReadmePath(dir)))
      && GenerateReadme(s, dir, content, force).1.files == s.files
  {
    var path := ReadmePath(dir);
    assert path !in Prefixes(dir);
  }

  /** A successful run leaves README.md holding exactly the content, whatever was there before,
      and every other file as it was. */
  lemma ReadmeWritten(s: Snapshot, dir: Path, content: string, force: bool)
    requires GenerateReadme(s, dir, content, force).0.Pass?
    ensures var files := GenerateReadme(s, dir, content, force).1.files;
      && ReadmePath(dir) in files
      && files[ReadmePath(dir)] == content
      && forall q :: q != ReadmePath(dir) ==> (q in files <==> q in s.files) && (q in s.files ==> files[q] == s.files[q])
  {
  }

  /** After a successful run, running again with `force` and the same content succeeds and changes
      nothing. */
  lemma ForcedReadmeRerunIsStable(s: Snapshot, dir: Path, content: string, force: bool)
    requires GenerateReadme(s, dir, content, force).0.Pass?
    ensures var after := GenerateReadme(s, dir, content, force).1;
      GenerateReadme(after, dir, content, true) == (Pass, after)
  {
    var after := GenerateReadme(s, dir, content, force).1;
    assert AfterMkdirP(after, dir) == after;
    assert after.files[ReadmePath(dir) := content] == after.files;
  }

  /** A run keeps a well-formed file system well-formed. */
  lemma ReadmeWellFormed(s: Snapshot, dir: Path, content: string, force: bool)
    requires WellFormed(s)
    ensures WellFormed(GenerateReadme(s, dir, content, force).1)
  {
    MkdirPWellFormed(s, dir);
    WriteWellFormed(AfterMkdirP(s, dir), ReadmePath(dir), content);
  }

  // ---------------------------------------------------------------------------
  // The generator
  // ---------------------------------------------------------------------------

  class ReadmeGenerator {
    const projectName: string
    /** `target_dir`: the absolute path of the directory to write into. */
    const targetDir: Path
    const description: Option<string>
    const force: bool

    constructor (projectName: string, targetDir: Path, description: Option<string> := None, force: bool := false)
      ensures this.projectName == projectName && this.targetDir == targetDir
      ensures this.description == description && this.force == force
    {
      this.projectName := projectName;
      this.targetDir := targetDir;
      this.description := description;
      this.force := force;
    }

    /** `run` */
    method Run(fs: FileSystem) returns (r: Outcome<ReadmeError>)
      requires fs.Valid()
      modifies fs
      ensures fs.Valid()
      ensures (r, fs.State()) == GenerateReadme(old(fs.State()), targetDir, BuildContent(projectName, description), force)
      ensures fs.commands == old(fs.commands)
    {
      fs.MkdirP(targetDir);
      var path := ReadmePath(targetDir);
      if fs.Exists(path) && !force {
        return Fail(ReadmeExistsError(ReadmeExistsMessage(path)));
      }
      fs.Write(path, BuildContent(projectName, description));
      r := Pass;
    }
  }
}
