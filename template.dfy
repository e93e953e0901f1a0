/** `Proj::Template`: an immutable description of a project skeleton. */
module Templates {
  import opened FileSys

  /**
   * A template. `directories` and `files` hold paths relative to the project root;
   * `files` is a Hash in Ruby, so each relative path has one content. Being a value,
   * a template cannot be changed once built, which is what `freeze` gives the source.
   * `postInitCommands` is stored and never used by any operation.
   */
  datatype Template = Template(
    name: string,
    description: string,
    directories: seq<Path>,
    files: map<Path, string>,
    postInitCommands: seq<string>)

  /** `Template.new(name:, description:, directories:, files:, post_init_commands: [])` */
  function NewTemplate(name: string, description: string, directories: seq<Path>,
                       files: map<Path, string>, postInitCommands: seq<string> := []): (t: Template)
    ensures t.name == name && t.description == description
    ensures t.directories == directories && t.files == files
    ensures t.postInitCommands == postInitCommands
  {
    Template(name, description, directories, files, postInitCommands)
  }

  /** Omitting `post_init_commands` gives the empty list. */
  lemma NoPostInitCommandsByDefault(name: string, description: string, directories: seq<Path>,
                                    files: map<Path, string>)
    ensures NewTemplate(name, description, directories, files).postInitCommands == []
  {
  }
}
