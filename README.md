# A verified model of the `proj` project scaffolder

`proj` is a small Ruby command-line tool. It creates a project skeleton from a named template, and
it can write a README skeleton. This Dafny project models the four pieces that do the work, and it
proves what they promise:

- **`Proj::Template`** (`template.dfy`, module `Templates`) is an immutable record. It holds a name,
  a description, an ordered list of directories, a map from relative file path to content, and an
  unused list of post-init commands.
- **`Proj::TemplateStore`** (`template_store.dfy`, module `TemplateStores`) is the registry, keyed
  by name. A Ruby Hash remembers insertion order, so the class `TemplateStore` keeps the key order
  in a `seq` (`keys`) next to a `map` (`templates`). Its constructor is the insertion loop of
  `initialize`. `All` and `Fetch` are read-only functions. The built-in catalogue of ten templates
  is written out in full.
- **`Proj::ProjectGenerator`** (`project_generator.dfy`, module `ProjectGenerators`) writes a
  template under a target directory. The class `ProjectGenerator` has one method per step: validate,
  create the directories, create the files, and optionally `git init`. Each method changes a
  `FileSys.FileSystem` object. `Run` is proved equal to the function `Generate` on file-system
  snapshots, and the properties are proved as lemmas about `Generate` and `Materialize`.
- **`Proj::ReadmeGenerator`** (`readme_generator.dfy`, module `ReadmeGenerators`) builds the README
  text with the pure function `BuildContent`. The method `ReadmeGenerator.Run` is proved equal to
  `GenerateReadme`: `mkdir_p`, then the existence gate, then one write.

Supporting modules:

- **`FileSys`** (`filesystem.dfy`) models the file system as a set of directory paths and a map from
  file path to content.
  - A path is a list of segments, and the root is `[]`. So `File.join` is concatenation, and
    `File.dirname` drops the last segment.
  - `FileUtils.mkdir_p` adds every prefix of its path. `Dir.exist?` is membership in the
    directories. `File.exist?` is membership in either table.
  - `system` is only recorded, in the `commands` list.
  - `WellFormed` is what every real file system satisfies: the root exists, directories are closed
    under ancestors, and each file sits in a directory. Every operation keeps it.
- **`Strings`** (`strings.dfy`) models `Array#join` and its inverse, and `Array#sort` on strings
  as an insertion sort. It proves Ruby's byte order on strings to be a total order. It also models
  `String#strip`.
- **`Wrappers`** (`wrappers.dfy`) holds `Option`, `Result` and `Outcome`. An exception that Ruby
  raises becomes a `Failure` or `Fail` value that carries the exception's message.

Behaviour of the code worth noting:

- `fetch` raises `ArgumentError`.
- The README gate uses `File.exist?`. It refuses when `README.md` exists as a file or as a
  directory.
- The README has five `##` headings, and a blank line sits on each side of every guidance sentence.
- A Hash lets a later template with a repeated name replace an earlier one. The model shows that
  the name keeps its first position.

## Model

| member | source | states |
|---|---|---|
| Templates.NewTemplate | lib/proj/template.rb:7-13 | every reader returns exactly the argument given for it |
| Templates.NoPostInitCommandsByDefault | lib/proj/template.rb:7 | leaving out `post_init_commands` gives the empty list |
| TemplateStores.TemplateStore.constructor | lib/proj/template_store.rb:271-276 | inserting the templates in turn yields the key order `NameOrder(ts)` and the table `Table(ts)`, and the store invariant holds |
| TemplateStores.KeysAndTable | lib/proj/template_store.rb:271-276 | the keys are distinct; a name is a key iff it is in the table iff some template carries it; each entry is stored under its own name |
| TemplateStores.TableLastWins | lib/proj/template_store.rb:273-275 | a template that no later template shares a name with is the one stored under that name |
| TemplateStores.NameOrderByFirstAppearance | lib/proj/template_store.rb:272-275 | keys are ordered by the position where each name first appears in the input |
| TemplateStores.DistinctNamesKeepEverything | lib/proj/template_store.rb:271-276 | with no repeated name, the keys are the names in input order and every template is kept |
| TemplateStores.TemplateStore.All | lib/proj/template_store.rb:278-280 | one template per key, in key order, each the one stored under that key |
| TemplateStores.AllNamesEachOnce | lib/proj/template_store.rb:272-280 | `all` names every template name of the input, each exactly once |
| TemplateStores.AllByFirstAppearance | lib/proj/template_store.rb:272-280 | an earlier entry of `all` has a name that first appears earlier in the input |
| TemplateStores.AllHoldsLastTemplates | lib/proj/template_store.rb:273-280 | each entry of `all` is the last input template with its name |
| TemplateStores.TemplateStore.Fetch | lib/proj/template_store.rb:282-288 | succeeds iff the name is registered, returning that template, whose name is the one asked for; otherwise fails with `ArgumentError` whose message lists a sorted permutation of the keys |
| TemplateStores.StoreFromList | lib/proj/template_store.rb:271-284 | for a store built from a list, `fetch` succeeds iff some template has the name, and returns the last such template |
| TemplateStores.LastNamed | lib/proj/template_store.rb:273-275 | any name that occurs in the list has a last occurrence |
| TemplateStores.TemplateStore.Default | lib/proj/template_store.rb:5-7 | `default` is the store built from the built-in list |
| TemplateStores.DefaultCatalogue | lib/proj/template_store.rb:13-265 | the built-in keys are ruby, python, esp32, generic, node, python-docker, web-frontend, rust, go, cpp in that order; they are distinct, there are ten, and each maps to its template |
| TemplateStores.DefaultRubyTemplate | lib/proj/template_store.rb:18-39 | "ruby" maps to the ruby template, which declares lib, spec and bin and whose Gemfile has the line `gem "rspec"` |
| TemplateStores.RubyGemfileRequiresRspec | lib/proj/template_store.rb:23-27 | cutting the ruby Gemfile at line feeds gives a line `gem "rspec"` |
| TemplateStores.SortedDefaultNamesAscending | lib/proj/template_store.rb:286 | the listed order cpp, esp32, ..., web-frontend is ascending in Ruby's string order |
| TemplateStores.SortedDefaultNamesPermutation | lib/proj/template_store.rb:286 | that list holds exactly the built-in names |
| TemplateStores.DefaultFetch | lib/proj/template_store.rb:282-288 | on the default store, each built-in name fetches a template of that name; any other name fails with the message that lists the ten names in ascending order |
| TemplateStores.DefaultFetchUnknown | lib/proj/template_store.rb:286-287 | the unknown-name message of the default store is exactly the one built from the ascending ten names |
| Strings.Sort | lib/proj/template_store.rb:286 | `keys.sort` is ascending and a permutation of the keys |
| Strings.Insert | lib/proj/template_store.rb:286 | inserting into a sorted list keeps it sorted and adds exactly the one element |
| Strings.SortedUnique | lib/proj/template_store.rb:286 | two ascending permutations of the same strings are equal, so the sorted key list in the message is determined |
| Strings.LeTotal | lib/proj/template_store.rb:286 | any two strings are comparable in Ruby's string order |
| Strings.LeTransitive | lib/proj/template_store.rb:286 | Ruby's string order is transitive |
| Strings.LeAntisymmetric | lib/proj/template_store.rb:286 | strings that are each at most the other are equal |
| Strings.SplitJoin | lib/proj/readme_generator.rb:57 | joining lines that hold no line feed with a line feed is undone by cutting at line feeds |
| Strings.JoinAppend | lib/proj/readme_generator.rb:57 | joining two non-empty lists is joining each, with one separator between |
| Strings.Strip | lib/proj/readme_generator.rb:35 | `strip` returns the middle of the string with only whitespace cut off both ends; the result neither starts nor ends with whitespace; it is empty iff the string is all whitespace |
| FileSys.Dirname | lib/proj/project_generator.rb:49 | the parent of a path is the path without its last segment; the root is its own parent |
| FileSys.Prefixes | lib/proj/project_generator.rb:38 | the directories `mkdir_p` creates for a path: exactly the path and all its ancestors |
| FileSys.MkdirPWellFormed | lib/proj/project_generator.rb:38 | `mkdir_p` keeps a well-formed file system well-formed |
| FileSys.WriteWellFormed | lib/proj/project_generator.rb:51 | writing a file into an existing directory keeps the file system well-formed |
| FileSys.FileSystem.MkdirP | lib/proj/project_generator.rb:38 | adds the path and each missing ancestor and changes nothing else |
| FileSys.FileSystem.Write | lib/proj/project_generator.rb:51 | creates or replaces exactly the one file |
| FileSys.FileSystem.System | lib/proj/project_generator.rb:57 | records the command and its working directory and leaves the file system as it was |
| ProjectGenerators.ProjectGenerator.constructor | lib/proj/project_generator.rb:11-16 | stores the template, the target and the flags, with `git` and `force` false by default |
| ProjectGenerators.ProjectGenerator.Run | lib/proj/project_generator.rb:18-23 | the outcome and new file system are `Generate` of the old one; `git init` is recorded, in the target, only when the run succeeds and `git` is set |
| ProjectGenerators.ProjectGenerator.ValidateTargetDirectory | lib/proj/project_generator.rb:31-35 | fails iff the target is an existing directory and `force` is off, with the message naming the target |
| ProjectGenerators.ProjectGenerator.CreateDirectories | lib/proj/project_generator.rb:37-44 | adds exactly the target, each declared directory under it, and their ancestors |
| ProjectGenerators.ProjectGenerator.CreateFiles | lib/proj/project_generator.rb:46-53 | adds exactly the parents of the template's files, with their ancestors, and writes every file under the target |
| ProjectGenerators.ProjectGenerator.CreateFile | lib/proj/project_generator.rb:48-51 | one file: `mkdir_p` of its parent, then the write |
| ProjectGenerators.ProjectGenerator.InitializeGit | lib/proj/project_generator.rb:55-59 | records `git init > /dev/null 2>&1` run in the target; the file system is as before |
| ProjectGenerators.GenerateGate | lib/proj/project_generator.rb:31-35 | a run fails iff the target directory exists and `force` is off; then the error names the target and the file system is unchanged |
| ProjectGenerators.MaterializeCreates | lib/proj/project_generator.rb:37-53 | after a run the target and its ancestors, every declared directory, and every file's parent are directories, and each file holds exactly its template content |
| ProjectGenerators.CreatesDirectories | lib/proj/project_generator.rb:37-50 | the directory part of the previous row, including parents that no declared directory names |
| ProjectGenerators.CreatesFiles | lib/proj/project_generator.rb:46-52 | the file part of the previous row: content written verbatim, replacing whatever was there |
| ProjectGenerators.MaterializeFrame | lib/proj/project_generator.rb:37-53 | a path the template does not name keeps its old file content or absence, and the only new directories are those the run creates |
| ProjectGenerators.MaterializeIdempotent | lib/proj/project_generator.rb:38-51 | materializing twice leaves the same file system as materializing once |
| ProjectGenerators.ForcedRerunIsStable | lib/proj/project_generator.rb:32-51 | after a successful run, a second run with `force` succeeds and leaves the same file system |
| ProjectGenerators.MaterializeWellFormed | lib/proj/project_generator.rb:37-53 | a run keeps a well-formed file system well-formed |
| ProjectGenerators.FreshTargetGetsExactlyTheTemplate | lib/proj/project_generator.rb:37-53 | in a target that did not exist, the files are exactly the template's and the directories exactly those the run creates |
| ProjectGenerators.PostInitCommandsAreInert | lib/proj/project_generator.rb:18-23 | a run does not depend on `post_init_commands` |
| ProjectGenerators.DeclaredRootsUnder | lib/proj/project_generator.rb:38-43 | the paths `create_directories` passes to `mkdir_p` are the target and each declared directory joined onto it |
| ProjectGenerators.JoinInjective | lib/proj/project_generator.rb:48 | distinct relative paths give distinct paths under the target |
| ReadmeGenerators.DescriptionLineChoice | lib/proj/readme_generator.rb:35 | no description, or a blank one, gives the placeholder; any other gives the stripped description, which is never blank |
| ReadmeGenerators.TrimmedDescriptionVerbatim | lib/proj/readme_generator.rb:35 | a non-empty description without surrounding whitespace is the third line verbatim |
| ReadmeGenerators.SectionLayout | lib/proj/readme_generator.rb:32-56 | 24 lines: the title block, then Overview, Installation, Usage, Development and License in that order, each as heading, blank line, guidance sentence, blank line |
| ReadmeGenerators.ContentSplitsIntoLines | lib/proj/readme_generator.rb:32-57 | cutting the content at line feeds gives back the 24 lines, when neither the name nor the description line holds a line feed |
| ReadmeGenerators.ContentOpening | lib/proj/readme_generator.rb:33-37 | the content starts with `# <name>`, a blank line, the description line, a blank line and `## Overview` |
| ReadmeGenerators.ContentClosing | lib/proj/readme_generator.rb:53-57 | the content ends with the License heading, a blank line, the license sentence and one line feed |
| ReadmeGenerators.ReadmePath | lib/proj/readme_generator.rb:20 | the path is the target directory followed by the one segment `README.md`, so README.md lies directly in it |
| ReadmeGenerators.ReadmeDirectoryCreated | lib/proj/readme_generator.rb:19 | the target directory and its ancestors exist afterwards, also when the run fails, and no other directory is created |
| ReadmeGenerators.ReadmeRefusal | lib/proj/readme_generator.rb:22-24 | a run fails iff README.md exists and `force` is off; then the message names the path and no file changes |
| ReadmeGenerators.ReadmeWritten | lib/proj/readme_generator.rb:26 | a successful run leaves README.md holding exactly the content, whatever was there, and every other file as it was |
| ReadmeGenerators.ForcedReadmeRerunIsStable | lib/proj/readme_generator.rb:26 | after a successful run, running again with `force` succeeds and changes nothing |
| ReadmeGenerators.ReadmeWellFormed | lib/proj/readme_generator.rb:19-26 | a run keeps a well-formed file system well-formed |
| ReadmeGenerators.ReadmeGenerator.constructor | lib/proj/readme_generator.rb:11-16 | stores the name, directory, description and flag, with no description and `force` off by default |
| ReadmeGenerators.ReadmeGenerator.Run | lib/proj/readme_generator.rb:18-27 | the outcome and new file system are `GenerateReadme` of the old one with the content `build_content` gives; no command is run |

## Left out

- `lib/proj/cli.rb` (option parsing, console output, exit codes) and `lib/proj.rb` (only `require_relative` lines) are not part of this model.
- `File.expand_path` depends on the current and home directories. The target is taken as an already-absolute list of path segments.
- Template directories and file keys are written as segment lists (`"assets/css"` is `["assets", "css"]`). Paths with `..`, `.` or empty segments are not normalised.
- What `git init` does, the `Dir.chdir` around it and its exit status are not modelled. The call is recorded as an opaque `Command` in the target directory.
- I/O failures (permissions, a full disk, a file where a directory is needed, writing over a directory) and the lack of rollback are not modelled. In the model every `mkdir_p` and write succeeds.
- ProjectGenerators.FreshTargetGetsExactlyTheTemplate: also requires that no file sits at the target path, because `mkdir_p` would fail there in Ruby and the model has no failing `mkdir_p`.
- `create_files` visits the Hash in insertion order. The model picks the files in any order, which gives the same result because the writes go to distinct paths.
- `String#strip` uses the whitespace set NUL, tab, line feed, vertical tab, form feed, carriage return and space. Version-specific Ruby differences are not followed.
- Strings.Split: cuts at every separator and keeps empty pieces. It is the inverse of `Join` used to state properties, not a model of Ruby's `String#split`, which drops trailing empty pieces.
- TemplateStores.DefaultFetch: states the unknown-name message as `UnknownTemplateMessage(n, SortedDefaultNames)`, that is, the fixed prefix followed by the ascending names joined with `", "`. It does not spell out the fully concatenated string literal.
- ReadmeGenerators.ContentSplitsIntoLines: requires that the project name and the description line have no line feed. With a line feed inside, the README still holds the same text, but it has more than 24 lines.
- The five guidance sentences are written as concatenations of short literals, because the verifier reasons about one long literal far more slowly. Each concatenation equals the sentence that `build_content` emits. The headings and the placeholder are single literals.
- The method contracts need a well-formed file system (`FileSystem.Valid`). This is an invariant of every real file system, not a demand the Ruby code makes.
