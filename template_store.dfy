/**
 * `Proj::TemplateStore`: the registry of templates, keyed by name. Ruby's Hash keeps its
 * keys in insertion order, and re-assigning a key keeps its place; the store is therefore
 * the key order (`keys`) beside the key-to-template table (`templates`).
 */
module TemplateStores {
  import opened Wrappers
  import opened Strings
  import opened FileSys
  import opened Templates

  // ---------------------------------------------------------------------------
  // What building the Hash from a list of templates yields
  // ---------------------------------------------------------------------------

  /** The distinct names of `ts`, each where it first appears: the Hash's key order. */
  function NameOrder(ts: seq<Template>): seq<string>
  {
    if |ts| == 0 then []
    else
      var ks := NameOrder(ts[..|ts| - 1]);
      var n := ts[|ts| - 1].name;
      if n in ks then ks else ks + [n]
  }

  /** Name to template, a later template replacing an earlier one of the same name. */
  function Table(ts: seq<Template>): map<string, Template>
  {
    if |ts| == 0 then map[]
    else Table(ts[..|ts| - 1])[ts[|ts| - 1].name := ts[|ts| - 1]]
  }

  /** Some template of `ts` is called `n`. */
  ghost predicate Named(ts: seq<Template>, n: string)
  {
    exists i :: 0 <= i < |ts| && ts[i].name == n
  }

  /** The position of the first template of `ts` called `n`. */
  ghost function FirstIndex(ts: seq<Template>, n: string): (i: nat)
    requires Named(ts, n)
    ensures i < |ts| && ts[i].name == n
    ensures forall j :: 0 <= j < i ==> ts[j].name != n
  {
    if ts[0].name == n then 0
    else
      assert Named(ts[1..], n) by {
        var j :| 0 <= j < |ts| && ts[j].name == n;
        assert ts[1..][j - 1] == ts[j];
      }
      1 + FirstIndex(ts[1..], n)
  }

  /** The keys are distinct, are exactly the names in `ts`, and each one maps to a template of
      that name. */
  lemma {:induction false} KeysAndTable(ts: seq<Template>)
    ensures Distinct(NameOrder(ts))
    ensures forall n :: n in NameOrder(ts) <==> n in Table(ts)
    ensures forall n :: n in Table(ts) <==> Named(ts, n)
    ensures forall n :: n in Table(ts) ==> Table(ts)[n].name == n
  {
    if |ts| > 0 {
      var p, last := ts[..|ts| - 1], ts[|ts| - 1];
      KeysAndTable(p);
      forall n ensures Named(ts, n) <==> (n == last.name || Named(p, n)) {
        if Named(p, n) {
          var j :| 0 <= j < |p| && p[j].name == n;
          assert ts[j] == p[j];
        }
        if Named(ts, n) && n != last.name {
          var j :| 0 <= j < |ts| && ts[j].name == n;
          assert p[j] == ts[j];
        }
      }
    }
  }

  /** No template after position `k` of `ts` has the name of `ts[k]`. */
  ghost predicate LastOfItsName(ts: seq<Template>, k: nat)
    requires k < |ts|
  {
    forall j :: k < j < |ts| ==> ts[j].name != ts[k].name
  }

  /** After construction each name maps to the LAST template carrying it. */
  lemma {:induction false} TableLastWins(ts: seq<Template>, i: nat)
    requires i < |ts| && LastOfItsName(ts, i)
    ensures ts[i].name in Table(ts) && Table(ts)[ts[i].name] == ts[i]
  {
    if i < |ts| - 1 {
      var p := ts[..|ts| - 1];
      assert p[i] == ts[i];
      TableLastWins(p, i);
    }
  }

  /** The first template called `n` is the same in `ts` and in any prefix that has one. */
  lemma FirstIndexInPrefix(ts: seq<Template>, k: nat, n: string)
    requires k <= |ts| && Named(ts[..k], n)
    ensures Named(ts, n) && FirstIndex(ts, n) == FirstIndex(ts[..k], n)
  {
    var i' := FirstIndex(ts[..k], n);
    assert ts[i'] == ts[..k][i'];
  }

  /** Keys are ordered by the position where each name first appears. */
  lemma {:induction false} NameOrderByFirstAppearance(ts: seq<Template>, a: nat, b: nat)
    requires a < b < |NameOrder(ts)|
    ensures Named(ts, NameOrder(ts)[a]) && Named(ts, NameOrder(ts)[b])
    ensures FirstIndex(ts, NameOrder(ts)[a]) < FirstIndex(ts, NameOrder(ts)[b])
  {
    var n := |ts|;
    var p, last := ts[..n - 1], ts[n - 1];
    assert ts[..n - 1] == p;
    KeysAndTable(p);
    var ks, kp := NameOrder(ts), NameOrder(p);
    var x, y := ks[a], ks[b];
    assert Named(p, x) by { assert a < |kp|; assert x == kp[a]; }
    FirstIndexInPrefix(ts, n - 1, x);
    if b < |kp| {
      assert y == kp[b];
      NameOrderByFirstAppearance(p, a, b);
      FirstIndexInPrefix(ts, n - 1, y);
    } else {
      assert y == last.name && y !in kp;
      assert !Named(p, y);
      assert ts[n - 1].name == y;
      assert FirstIndex(ts, y) == n - 1;
      assert FirstIndex(p, x) < n - 1;
    }
  }

  /** When no name repeats, the keys are the names in input order and every template is kept. */
  lemma {:induction false} DistinctNamesKeepEverything(ts: seq<Template>)
    requires forall i, j :: 0 <= i < j < |ts| ==> ts[i].name != ts[j].name
    ensures |NameOrder(ts)| == |ts|
    ensures forall i :: 0 <= i < |ts| ==> NameOrder(ts)[i] == ts[i].name
    ensures forall i :: 0 <= i < |ts| ==> ts[i].name in Table(ts) && Table(ts)[ts[i].name] == ts[i]
  {
    if |ts| > 0 {
      var p := ts[..|ts| - 1];
      DistinctNamesKeepEverything(p);
      KeysAndTable(p);
      assert !Named(p, ts[|ts| - 1].name);
      forall i | 0 <= i < |ts| ensures ts[i].name in Table(ts) && Table(ts)[ts[i].name] == ts[i] {
        TableLastWins(ts, i);
      }
    }
  }

  // ---------------------------------------------------------------------------
  // The store
  // ---------------------------------------------------------------------------

  /** The `ArgumentError` raised by `fetch`. */
  datatype StoreError = ArgumentError(message: string)

  /** The text of the error for an unknown name, given the key list to show. */
  function UnknownTemplateMessage(name: string, available: seq<string>): string
  {
    "Unknown template '" + name + "'. Available templates: " + Join(available, ", ")
  }

  class TemplateStore {
    /** The Hash's keys, in insertion order. */
    var keys: seq<string>
    /** The Hash itself. */
    var templates: map<string, Template>

    ghost predicate Valid()
      reads this
    {
      && Distinct(keys)
      && (forall n :: n in keys <==> n in templates)
      && (forall n :: n in templates ==> templates[n].name == n)
    }

    /** `TemplateStore.new(templates)`: inserts the templates one after another. */
    constructor (ts: seq<Template>)
      ensures Valid()
      ensures keys == NameOrder(ts) && templates == Table(ts)
    {
      new;
      keys, templates := [], map[];
      var i := 0;
      while i < |ts|
        invariant 0 <= i <= |ts|
        invariant keys == NameOrder(ts[..i]) && templates == Table(ts[..i])
      {
        var t := ts[i];
        KeysAndTable(ts[..i]);
        assert ts[..i + 1][..i] == ts[..i];
        if t.name !in templates {
          keys := keys + [t.name];
        }
        templates := templates[t.name := t];
        i := i + 1;
      }
      assert ts[..i] == ts;
      KeysAndTable(ts);
    }

    /** `TemplateStore.default`: the store of the built-in catalogue. */
    static method Default() returns (store: TemplateStore)
      ensures fresh(store) && store.Valid()
      ensures store.keys == NameOrder(DefaultTemplates())
      ensures store.templates == Table(DefaultTemplates())
    {
      store := new TemplateStore(DefaultTemplates());
    }

    /** `all`: one template per key, in key order. */
    function All(): (r: seq<Template>)
      reads this
      requires Valid()
      ensures |r| == |keys|
      ensures forall i :: 0 <= i < |r| ==> r[i].name == keys[i] && r[i] == templates[keys[i]]
    {
      seq(|keys|, i reads this requires 0 <= i < |keys| && keys[i] in templates => templates[keys[i]])
    }

    /** `fetch(name)`: the template registered under `name`, or an `ArgumentError` that lists
        every key in ascending order. */
    function Fetch(name: string): (r: Result<Template, StoreError>)
      reads this
      requires Valid()
      ensures r.Success? <==> name in templates
      ensures r.Success? ==> r.value == templates[name] && r.value.name == name
      ensures r.Failure? ==> exists available ::
        && Sorted(available)
        && multiset(available) == multiset(keys)
        && r.error == ArgumentError(UnknownTemplateMessage(name, available))
    {
      if name in templates then Success(templates[name])
      else Failure(ArgumentError(UnknownTemplateMessage(name, Sort(keys))))
    }
  }

  /** The store built from `ts` lists, once each and by first appearance, every name of `ts`,
      and hands out for each the last template of `ts` with that name. */
  lemma StoreFromList(store: TemplateStore, ts: seq<Template>, n: string)
    requires store.Valid() && store.keys == NameOrder(ts) && store.templates == Table(ts)
    ensures Named(ts, n) <==> store.Fetch(n).Success?
    ensures Named(ts, n) ==> exists i :: (0 <= i < |ts| && store.Fetch(n) == Success(ts[i])
                                          && ts[i].name == n && LastOfItsName(ts, i))
  {
    KeysAndTable(ts);
    if Named(ts, n) {
      var i :| 0 <= i < |ts| && ts[i].name == n && LastOfItsName(ts, i) by {
        LastNamed(ts, n);
      }
      TableLastWins(ts, i);
    }
  }

  /** `all` on the store built from `ts` names every template name of `ts` exactly once. */
  lemma AllNamesEachOnce(store: TemplateStore, ts: seq<Template>)
    requires store.Valid() && store.keys == NameOrder(ts) && store.templates == Table(ts)
    ensures forall n :: Named(ts, n) <==> exists i :: 0 <= i < |store.All()| && store.All()[i].name == n
    ensures forall i, j :: 0 <= i < j < |store.All()| ==> store.All()[i].name != store.All()[j].name
  {
    var all := store.All();
    KeysAndTable(ts);
    forall n | Named(ts, n) ensures exists i :: 0 <= i < |all| && all[i].name == n {
      var i :| 0 <= i < |store.keys| && store.keys[i] == n;
      assert all[i].name == n;
    }
  }

  /** `all` on the store built from `ts` lists the names by the position where each first appears. */
  lemma AllByFirstAppearance(store: TemplateStore, ts: seq<Template>, a: nat, b: nat)
    requires store.Valid() && store.keys == NameOrder(ts) && store.templates == Table(ts)
    requires a < b < |store.All()|
    ensures Named(ts, store.All()[a].name) && Named(ts, store.All()[b].name)
    ensures FirstIndex(ts, store.All()[a].name) < FirstIndex(ts, store.All()[b].name)
  {
    NameOrderByFirstAppearance(ts, a, b);
  }

  /** Each template `all` returns is the last template of `ts` with its name. */
  lemma AllHoldsLastTemplates(store: TemplateStore, ts: seq<Template>)
    requires store.Valid() && store.keys == NameOrder(ts) && store.templates == Table(ts)
    ensures forall i :: 0 <= i < |store.All()| ==>
      exists k :: 0 <= k < |ts| && store.All()[i] == ts[k] && LastOfItsName(ts, k)
  {
    var all := store.All();
    forall i | 0 <= i < |all| ensures exists k :: 0 <= k < |ts| && all[i] == ts[k] && LastOfItsName(ts, k) {
      KeysAndTable(ts);
      StoreFromList(store, ts, all[i].name);
    }
  }

  /** Some template called `n` is not followed by another one called `n`. */
  lemma {:induction false} LastNamed(ts: seq<Template>, n: string)
    requires Named(ts, n)
    ensures exists i :: 0 <= i < |ts| && ts[i].name == n && LastOfItsName(ts, i)
  {
    if ts[|ts| - 1].name != n {
      var p := ts[..|ts| - 1];
      assert Named(p, n) by {
        var j :| 0 <= j < |ts| && ts[j].name == n;
        assert p[j] == ts[j];
      }
      LastNamed(p, n);
      var i :| 0 <= i < |p| && p[i].name == n && LastOfItsName(p, i);
      assert ts[i] == p[i];
      assert LastOfItsName(ts, i) by {
        forall j | i < j < |ts| ensures ts[j].name != n {
          if j < |p| { assert ts[j] == p[j]; }
        }
      }
    }
  }

  // ---------------------------------------------------------------------------
  // The built-in catalogue
  // ---------------------------------------------------------------------------

  const RubyTemplate := NewTemplate(
    "ruby",
    "Basic Ruby project with RSpec and bin/lib/spec structure.",
    [["lib"], ["spec"], ["bin"]],
    map[
      ["Gemfile"] := "source \"https://rubygems.org\"\n\ngem \"rspec\"\n",
      ["README.md"] := "# New Ruby Project\n\nDescribe your Ruby project here.\n",
      [".gitignore"] := "/.bundle\n/vendor/\n*.log\n"])

  const PythonTemplate := NewTemplate(
    "python",
    "Python project with src/tests layout and requirements.txt.",
    [["src"], ["tests"]],
    map[
      ["requirements.txt"] := "",
      ["README.md"] := "# New Python Project\n\nDescribe your Python project here.\n",
      [".gitignore"] := "__pycache__/\n*.pyc\n.env\n"])

  const Esp32Template := NewTemplate(
    "esp32",
    "ESP32 project structure suitable for PlatformIO or similar tools.",
    [["src"], ["include"], ["lib"], ["docs"]],
    map[
      ["README.md"] := "# ESP32 Project\n\nDescribe your ESP32 project setup and hardware here.\n",
      [".gitignore"] := ".pio/\n.vscode/\n*.log\n"])

  const GenericTemplate := NewTemplate(
    "generic",
    "Minimal generic project with src and docs.",
    [["src"], ["docs"]],
    map[
      ["README.md"] := "# New Project\n\nDescribe your project here.\n",
      [".gitignore"] := "*.log\n.DS_Store\n"])

  const NodeTemplate := NewTemplate(
    "node",
    "Node.js project with src/tests, package.json, and eslint config.",
    [["src"], ["tests"]],
    map[
      ["package.json"] :=
        "{\n  \"name\": \"node-project\",\n  \"version\": \"1.0.0\",\n  \"main\": \"src/index.js\",\n"
        + "  \"license\": \"MIT\",\n  \"scripts\": {\n    \"test\": \"echo \\\"No tests configured\\\"\"\n  }\n}\n",
      [".gitignore"] := "node_modules/\n*.log\n",
      ["README.md"] := "# Node.js Project\n\nDescribe your Node.js project here.\n"])

  const PythonDockerTemplate := NewTemplate(
    "python-docker",
    "Python project including Dockerfile and requirements.txt, ready for container deployment.",
    [["src"]],
    map[
      ["Dockerfile"] :=
        "FROM python:3.11-slim\nWORKDIR /app\nCOPY . .\nRUN pip install -r requirements.txt\n"
        + "CMD [\"python3\", \"src/main.py\"]\n",
      ["requirements.txt"] := "",
      ["src", "main.py"] := "# Entry point for the Python application",
      [".gitignore"] := "__pycache__/\n*.pyc\n.env\n",
      ["README.md"] := "# Dockerized Python Project\n\nDescribe your Python project here.\n"])

  const WebFrontendTemplate := NewTemplate(
    "web-frontend",
    "Frontend template with HTML/CSS/JS and basic project structure.",
    [["src"], ["assets", "css"], ["assets", "js"]],
    map[
      ["src", "index.html"] :=
        "<!DOCTYPE html>\n<html lang=\"en\">\n<head>\n  <meta charset=\"UTF-8\" />\n"
        + "  <title>Web Frontend Project</title>\n"
        + "  <link rel=\"stylesheet\" href=\"../assets/css/style.css\" />\n</head>\n<body>\n"
        + "  <h1>Web Frontend Project</h1>\n  <script src=\"../assets/js/app.js\"></script>\n"
        + "</body>\n</html>\n",
      ["assets", "css", "style.css"] := "/* Add your styles here */",
      ["assets", "js", "app.js"] := "// JavaScript entry point",
      ["README.md"] := "# Web Frontend Project\n",
      [".gitignore"] := "node_modules/\n.DS_Store\n"])

  const RustTemplate := NewTemplate(
    "rust",
    "Basic Rust project with Cargo.toml and src/main.rs.",
    [["src"]],
    map[
      ["Cargo.toml"] := "[package]\nname = \"rust_project\"\nversion = \"0.1.0\"\nedition = \"2021\"\n",
      ["src", "main.rs"] := "fn main() {\n    println!(\"Hello from Rust project!\");\n}\n",
      [".gitignore"] := "target/\n",
      ["README.md"] := "# Rust Project\n"])

  const GoTemplate := NewTemplate(
    "go",
    "Simple Go module with main.go and go.mod.",
    [["cmd"], ["src"]],
    map[
      ["go.mod"] := "module go_project\n\ngo 1.21",
      ["cmd", "main.go"] :=
        "package main\n\nimport \"fmt\"\n\nfunc main() {\n    fmt.Println(\"Hello from Go project!\")\n}\n",
      [".gitignore"] := "bin/\n*.log\n",
      ["README.md"] := "# Go Project\n"])

  const CppTemplate := NewTemplate(
    "cpp",
    "C++ project using CMake with src/include layout.",
    [["src"], ["include"]],
    map[
      ["CMakeLists.txt"] :=
        "cmake_minimum_required(VERSION 3.15)\nproject(cpp_project)\nset(CMAKE_CXX_STANDARD 20)\n\n"
        + "add_executable(cpp_project src/main.cpp)\n",
      ["src", "main.cpp"] :=
        "#include <iostream>\n\nint main() {\n    std::cout << \"Hello from C++ project!\" << std::endl;\n"
        + "    return 0;\n}\n",
      [".gitignore"] := "build/\n",
      ["README.md"] := "# C++ Project\n"])

  /** `TemplateStore.default_templates` */
  function DefaultTemplates(): seq<Template>
  {
    [RubyTemplate, PythonTemplate, Esp32Template, GenericTemplate, NodeTemplate,
     PythonDockerTemplate, WebFrontendTemplate, RustTemplate, GoTemplate, CppTemplate]
  }

  /** The built-in names, in catalogue order. */
  const DefaultNames: seq<string> :=
    ["ruby", "python", "esp32", "generic", "node", "python-docker", "web-frontend", "rust", "go", "cpp"]

  /** The built-in names, in ascending order. */
  const SortedDefaultNames: seq<string> :=
    ["cpp", "esp32", "generic", "go", "node", "python", "python-docker", "ruby", "rust", "web-frontend"]

  /** The default store has ten distinct names, in catalogue order, each bound to its template. */
  lemma DefaultCatalogue()
    ensures NameOrder(DefaultTemplates()) == DefaultNames
    ensures |DefaultNames| == 10 && Distinct(DefaultNames)
    ensures forall i :: 0 <= i < 10 ==>
      DefaultNames[i] in Table(DefaultTemplates()) && Table(DefaultTemplates())[DefaultNames[i]] == DefaultTemplates()[i]
  {
    var ts := DefaultTemplates();
    assert forall i :: 0 <= i < |ts| ==> ts[i].name == DefaultNames[i];
    DistinctNamesKeepEverything(ts);
  }

  /** One line of the ruby template's Gemfile is `gem "rspec"`. */
  lemma RubyGemfileRequiresRspec()
    ensures ["Gemfile"] in RubyTemplate.files
    ensures "gem \"rspec\"" in Split(RubyTemplate.files[["Gemfile"]], '\n')
  {
    var lines := ["source \"https://rubygems.org\"", "", "gem \"rspec\"", ""];
    assert Join(lines[3..], "\n") == "";
    assert Join(lines[2..], "\n") == "gem \"rspec\"\n";
    assert Join(lines[1..], "\n") == "\ngem \"rspec\"\n";
    assert Join(lines, "\n") == RubyTemplate.files[["Gemfile"]];
    assert forall i :: 0 <= i < |lines| ==> '\n' !in lines[i];
    SplitJoin(lines, '\n');
  }

  /** The default store's "ruby" template declares lib, spec and bin, and its Gemfile has the
      line `gem "rspec"`. */
  lemma DefaultRubyTemplate()
    ensures "ruby" in Table(DefaultTemplates()) && Table(DefaultTemplates())["ruby"] == RubyTemplate
    ensures RubyTemplate.directories == [["lib"], ["spec"], ["bin"]]
    ensures ["Gemfile"] in RubyTemplate.files
    ensures "gem \"rspec\"" in Split(RubyTemplate.files[["Gemfile"]], '\n')
  {
    DefaultCatalogue();
    assert Table(DefaultTemplates())[DefaultNames[0]] == DefaultTemplates()[0];
    RubyGemfileRequiresRspec();
  }

  /** A sequence whose neighbours are in order is sorted. */
  lemma {:induction false} NeighboursSorted(s: seq<string>)
    requires forall i :: 0 <= i < |s| - 1 ==> Le(s[i], s[i + 1])
    ensures Sorted(s)
  {
    if |s| > 1 {
      NeighboursSorted(s[1..]);
      forall j | 1 < j < |s| ensures Le(s[0], s[j]) {
        assert Le(s[1..][0], s[1..][j - 1]);
        LeTransitive(s[0], s[1], s[j]);
      }
    }
  }

  /** `SortedDefaultNames` is ascending. */
  lemma SortedDefaultNamesAscending()
    ensures Sorted(SortedDefaultNames)
  {
    var s := SortedDefaultNames;
    assert Le(s[0], s[1]);
    assert Le(s[1], s[2]);
    assert Le(s[2], s[3]);
    assert Le(s[3], s[4]);
    assert Le(s[4], s[5]);
    assert Le(s[5], s[6]);
    assert Le(s[6], s[7]);
    assert Le(s[7], s[8]);
    assert Le(s[8], s[9]);
    NeighboursSorted(s);
  }

  /** `SortedDefaultNames` holds exactly the built-in names. */
  lemma SortedDefaultNamesPermutation()
    ensures multiset(SortedDefaultNames) == multiset(DefaultNames)
  {
    assert Distinct(SortedDefaultNames);
    DefaultCatalogue();
    SameElementsPermutation(SortedDefaultNames, DefaultNames);
  }

  /** `fetch` on the default store: every catalogue name gives its template; any other name gives
      the error listing the ten names in ascending order. */
  lemma DefaultFetch(store: TemplateStore, n: string)
    requires store.Valid()
    requires store.keys == NameOrder(DefaultTemplates()) && store.templates == Table(DefaultTemplates())
    ensures n in DefaultNames ==> store.Fetch(n).Success? && store.Fetch(n).value.name == n
    ensures n !in DefaultNames ==>
      store.Fetch(n) == Failure(ArgumentError(UnknownTemplateMessage(n, SortedDefaultNames)))
  {
    DefaultCatalogue();
    if n !in DefaultNames {
      DefaultFetchUnknown(store, n);
    }
  }

  /** The error of `fetch` on a store holding the built-in names lists them in ascending order. */
  lemma DefaultFetchUnknown(store: TemplateStore, n: string)
    requires store.Valid() && store.keys == DefaultNames && n !in DefaultNames
    ensures store.Fetch(n) == Failure(ArgumentError(UnknownTemplateMessage(n, SortedDefaultNames)))
  {
    var r := store.Fetch(n);
    var available :| Sorted(available) && multiset(available) == multiset(store.keys)
      && r.error == ArgumentError(UnknownTemplateMessage(n, available));
    SortedDefaultNamesAscending();
    SortedDefaultNamesPermutation();
    SortedUnique(available, SortedDefaultNames);
  }
}
