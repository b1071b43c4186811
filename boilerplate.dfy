/** The smaller files and commands `dh-make-ruby` produces next to the
    templates: the test-suite declaration (`test_suite`), the FIXME lists
    for docs, examples, data and manpages (`other_files`), and the
    `dpkg-buildpackage` call (`buildpackage`). Which directories exist and
    what the globs return are inputs. */
module Boilerplate {
  import opened Text
  import opened Host
  import opened Variants
  import opened TestRuns

  /** What is written into a file: a YAML dump of a list, or plain text. */
  datatype Content = Yaml(items: seq<string>) | Plain(text: string)

  datatype FileOut = FileOut(path: string, content: Content)

  function Paths(out: seq<FileOut>): (r: seq<string>)
    ensures |r| == |out| && forall k :: 0 <= k < |out| ==> r[k] == out[k].path
  {
    seq(|out|, k requires 0 <= k < |out| => out[k].path)
  }

  // ---------------------------------------------------------------- test_suite

  /** The `debian/ruby-tests.rb` stub written when the source has a test or
      spec directory but the gem declares no test files. */
  const TESTS_RB_STUB: string :=
    "# FIXME\n" +
    "# there's a spec/ or a test/ directory in the upstream source, but\n" +
    "# no test suite was defined in the Gem specification. It would be\n" +
    "# a good idea to define it here so the package gets tested at build time.\n" +
    "# Examples:\n" +
    "# $: << 'lib' << '.'\n" +
    "# Dir['{spec,test}/**/*.rb'].each { |f| require f }\n" +
    "#\n" +
    "# require 'test/ts_foo.rb'\n" +
    "#\n" +
    "# require 'rbconfig'\n" +
    "# ruby = File.join(RbConfig::CONFIG['bindir'], RbConfig::CONFIG['ruby_install_name'])\n" +
    "# exec(\"#{ruby} -I. test/runtests.rb\")\n"

  /** `test_suite`: the gem's declared test files as YAML, else the stub
      when a `test/` or `spec/` directory exists, else nothing. */
  function TestSuite(testFiles: seq<string>, hasTestDir: bool, hasSpecDir: bool): (r: seq<FileOut>)
    ensures |r| <= 1
  {
    if testFiles != [] then [FileOut(TEST_FILES_YAML, Yaml(testFiles))]
    else if hasTestDir || hasSpecDir then [FileOut(TEST_SCRIPT, Plain(Puts(TESTS_RB_STUB)))]
    else []
  }

  /** What `test_suite` writes decides how `dh_ruby` runs the tests later:
      the gem2deb runner for declared test files, the stub script for a
      test or spec directory, and no strategy otherwise. */
  lemma TestSuiteChoosesStrategy(testFiles: seq<string>, hasTestDir: bool, hasSpecDir: bool, w: World, rubyver: string)
    requires PathExists(w, TEST_FILES_YAML) <==> TEST_FILES_YAML in Paths(TestSuite(testFiles, hasTestDir, hasSpecDir))
    requires PathExists(w, TEST_SCRIPT) <==> TEST_SCRIPT in Paths(TestSuite(testFiles, hasTestDir, hasSpecDir))
    ensures TestCommand(w, rubyver) ==
      if testFiles != [] then Some(TestRunner(BinaryText(rubyver)))
      else if hasTestDir || hasSpecDir then Some(TestScript(BinaryText(rubyver)))
      else None
  {
    var r := TestSuite(testFiles, hasTestDir, hasSpecDir);
    assert TEST_FILES_YAML != TEST_SCRIPT by { assert |TEST_FILES_YAML| != |TEST_SCRIPT|; }
    if testFiles != [] {
      assert Paths(r) == [TEST_FILES_YAML];
    } else if hasTestDir || hasSpecDir {
      assert Paths(r) == [TEST_SCRIPT];
    } else {
      assert Paths(r) == [];
    }
  }

  // --------------------------------------------------------------- other_files

  const DOC_NOTE: string :=
    "# FIXME: doc/ dir found in source. Consider installing the docs.\n" +
    "# Examples:\n" +
    "# doc/manual.html\n" +
    "# doc/site/*\n"

  const README_HEADING: string := "# FIXME: READMEs found"

  const EXAMPLE_DIRS: seq<string> := ["examples", "sample"]

  const CONF_NOTE: string :=
    "# FIXME: conf/ dir found in source. Consider installing it somewhere.\n" +
    "# Examples:\n" +
    "# conf/* /etc/\n"

  const MANPAGES_HEADER: string := "# FIXME: man/ dir found in source. Consider installing manpages"

  function ExampleNote(d: string): string {
    "# FIXME: " + d + "/ dir found in source. Consider installing the examples.\n" +
    "# Examples:\n" +
    "# " + d + "/*\n"
  }

  function DataNote(src: string): string {
    "# FIXME: data/ dir found in source. Consider installing it somewhere.\n" +
    "# Examples:\n" +
    "# data/* /usr/share/" + src + "/\n"
  }

  function DocsPath(src: string): string { "debian/" + src + ".docs" }
  function ExamplesPath(src: string): string { "debian/" + src + ".examples" }
  function InstallPath(src: string): string { "debian/" + src + ".install" }
  function ManpagesPath(src: string): string { "debian/" + src + ".manpages" }

  /** One `# <name>` line per entry. */
  function CommentLines(names: seq<string>): (r: seq<string>)
    ensures |r| == |names|
    ensures forall k :: 0 <= k < |r| ==> r[k] == "# " + names[k] + "\n"
  {
    seq(|names|, k requires 0 <= k < |names| => "# " + names[k] + "\n")
  }

  /** The docs list as `other_files` builds it: the READMEs heading is
      added whether or not any README was found. */
  function DocsText(dirs: set<string>, readmes: seq<string>): string {
    (if "doc" in dirs then DOC_NOTE else "") + (README_HEADING + "\n") + Concat(CommentLines(readmes))
  }

  /** The examples notes for the first directories of `ds` that exist. */
  function ExamplesText(dirs: set<string>, ds: seq<string>): string {
    if ds == [] then ""
    else ExamplesText(dirs, ds[..|ds| - 1]) + (if ds[|ds| - 1] in dirs then ExampleNote(ds[|ds| - 1]) else "")
  }

  function InstallsText(src: string, dirs: set<string>): string {
    (if "data" in dirs then DataNote(src) else "") + (if "conf" in dirs then CONF_NOTE else "")
  }

  /** The manpages file: the heading, then one `# <page>` line per page. */
  function ManpagesText(manpages: seq<string>): string {
    Puts(MANPAGES_HEADER) + Concat(PageLines(manpages))
  }

  /** `f.puts "# " + m` for each page. */
  function PageLines(manpages: seq<string>): (r: seq<string>)
    ensures |r| == |manpages| && forall k :: 0 <= k < |r| ==> r[k] == Puts("# " + manpages[k])
  {
    if manpages == [] then []
    else PageLines(manpages[..|manpages| - 1]) + [Puts("# " + manpages[|manpages| - 1])]
  }

  /** A list file opened and filled with `f.puts text` when `text` is not empty. */
  function WriteIfAny(path: string, text: string): seq<FileOut> {
    if text != "" then [FileOut(path, Plain(Puts(text)))] else []
  }

  /** The files `other_files` writes, in order, as the code stands. */
  function OtherFilesAsWritten(src: string, dirs: set<string>, readmes: seq<string>, manpages: seq<string>): seq<FileOut> {
    WriteIfAny(DocsPath(src), DocsText(dirs, readmes)) +
    WriteIfAny(ExamplesPath(src), ExamplesText(dirs, EXAMPLE_DIRS)) +
    WriteIfAny(InstallPath(src), InstallsText(src, dirs)) +
    (if "man" in dirs then [FileOut(ManpagesPath(src), Plain(ManpagesText(manpages)))] else [])
  }

  /** The docs list of `other_files`, the READMEs appended one by one. */
  method DocsList(dirs: set<string>, readmes: seq<string>) returns (docs: string)
    ensures docs == DocsText(dirs, readmes)
  {
    docs := "";
    if "doc" in dirs {
      docs := docs + DOC_NOTE;
    }
    assert docs == (if "doc" in dirs then DOC_NOTE else "");
    docs := docs + (README_HEADING + "\n");
    docs := AppendComments(docs, readmes);
  }

  /** `readmes.each { |r| docs << "# #{r}\n" }`. */
  method AppendComments(docs: string, names: seq<string>) returns (r: string)
    ensures r == docs + Concat(CommentLines(names))
  {
    r := docs;
    assert CommentLines(names[..0]) == [];
    var i := 0;
    while i < |names|
      invariant 0 <= i <= |names|
      invariant r == docs + Concat(CommentLines(names[..i]))
    {
      CommentLinesSnoc(names, i);
      r := r + ("# " + names[i] + "\n");
      i := i + 1;
    }
    assert names[..|names|] == names;
  }

  lemma CommentLinesSnoc(names: seq<string>, i: nat)
    requires i < |names|
    ensures Concat(CommentLines(names[..i + 1])) == Concat(CommentLines(names[..i])) + ("# " + names[i] + "\n")
  {
    assert CommentLines(names[..i + 1]) == CommentLines(names[..i]) + ["# " + names[i] + "\n"];
    ConcatSnoc(CommentLines(names[..i]), "# " + names[i] + "\n");
  }

  /** The examples list of `other_files`, one note per directory found. */
  method ExamplesList(dirs: set<string>) returns (examples: string)
    ensures examples == ExamplesText(dirs, EXAMPLE_DIRS)
  {
    examples := "";
    var j := 0;
    while j < |EXAMPLE_DIRS|
      invariant 0 <= j <= |EXAMPLE_DIRS|
      invariant examples == ExamplesText(dirs, EXAMPLE_DIRS[..j])
    {
      var d := EXAMPLE_DIRS[j];
      assert EXAMPLE_DIRS[..j + 1][..j] == EXAMPLE_DIRS[..j];
      if d in dirs {
        examples := examples + ExampleNote(d);
      }
      j := j + 1;
    }
    assert EXAMPLE_DIRS[..|EXAMPLE_DIRS|] == EXAMPLE_DIRS;
  }

  /** The manpages file, written with one `puts` per line. */
  method ManpagesList(manpages: seq<string>) returns (text: string)
    ensures text == ManpagesText(manpages)
  {
    text := Puts(MANPAGES_HEADER);
    text := AppendPages(text, manpages);
  }

  /** `manpages.each { |m| f.puts "# " + m }`. */
  method AppendPages(text: string, manpages: seq<string>) returns (r: string)
    ensures r == text + Concat(PageLines(manpages))
  {
    r := text;
    assert PageLines(manpages[..0]) == [];
    var k := 0;
    while k < |manpages|
      invariant 0 <= k <= |manpages|
      invariant r == text + Concat(PageLines(manpages[..k]))
    {
      PageLinesSnoc(text, r, manpages, k);
      r := r + Puts("# " + manpages[k]);
      k := k + 1;
    }
    assert manpages[..|manpages|] == manpages;
  }

  lemma PageLinesSnoc(text: string, r: string, ms: seq<string>, k: nat)
    requires k < |ms| && r == text + Concat(PageLines(ms[..k]))
    ensures r + Puts("# " + ms[k]) == text + Concat(PageLines(ms[..k + 1]))
  {
    assert ms[..k + 1][..k] == ms[..k];
    AppendPiece(text, r, PageLines(ms[..k]), Puts("# " + ms[k]));
  }




  /** The data and conf list of `other_files`. */
  method InstallsList(src: string, dirs: set<string>) returns (installs: string)
    ensures installs == InstallsText(src, dirs)
  {
    installs := "";
    if "data" in dirs {
      installs := installs + DataNote(src);
    }
    assert installs == (if "data" in dirs then DataNote(src) else "");
    if "conf" in dirs {
      installs := installs + CONF_NOTE;
    }
  }

  /** `other_files`: each list built, then written when it is not empty. */
  method OtherFiles(src: string, dirs: set<string>, readmes: seq<string>, manpages: seq<string>) returns (out: seq<FileOut>)
    ensures out == OtherFilesAsWritten(src, dirs, readmes, manpages)
  {
    var docs := DocsList(dirs, readmes);
    out := WriteIfAny(DocsPath(src), docs);
    var examples := ExamplesList(dirs);
    out := out + WriteIfAny(ExamplesPath(src), examples);
    var installs := InstallsList(src, dirs);
    out := out + WriteIfAny(InstallPath(src), installs);
    if "man" in dirs {
      var text := ManpagesList(manpages);
      out := out + [FileOut(ManpagesPath(src), Plain(text))];
    }
  }

  /** The list files `other_files` can write, in its order: the docs list
      when `docs` holds, then each other list when a directory it looks for
      exists. */
  function ListFiles(src: string, docs: bool, dirs: set<string>): seq<string> {
    (if docs then [DocsPath(src)] else []) +
    (if "examples" in dirs || "sample" in dirs then [ExamplesPath(src)] else []) +
    (if "data" in dirs || "conf" in dirs then [InstallPath(src)] else []) +
    (if "man" in dirs then [ManpagesPath(src)] else [])
  }

  lemma PathsAppend(a: seq<FileOut>, b: seq<FileOut>)
    ensures Paths(a + b) == Paths(a) + Paths(b)
  {
  }

  lemma ExamplesOfTwo(dirs: set<string>)
    ensures ExamplesText(dirs, EXAMPLE_DIRS) ==
      (if "examples" in dirs then ExampleNote("examples") else "") + (if "sample" in dirs then ExampleNote("sample") else "")
  {
    var one: seq<string> := ["examples"];
    assert EXAMPLE_DIRS[..1] == one && EXAMPLE_DIRS[1] == "sample";
    assert one[..0] == [];
    assert ExamplesText(dirs, one) == (if "examples" in dirs then ExampleNote("examples") else "");
  }

  /** The examples list is written when `examples/` or `sample/` exists. */
  lemma ExamplesWritten(src: string, dirs: set<string>)
    ensures Paths(WriteIfAny(ExamplesPath(src), ExamplesText(dirs, EXAMPLE_DIRS))) ==
      if "examples" in dirs || "sample" in dirs then [ExamplesPath(src)] else []
  {
    ExamplesOfTwo(dirs);
    assert |ExampleNote("examples")| > 0 && |ExampleNote("sample")| > 0;
  }

  /** The install list is written when `data/` or `conf/` exists. */
  lemma InstallsWritten(src: string, dirs: set<string>)
    ensures Paths(WriteIfAny(InstallPath(src), InstallsText(src, dirs))) ==
      if "data" in dirs || "conf" in dirs then [InstallPath(src)] else []
  {
    assert |CONF_NOTE| > 0;
    assert |DataNote(src)| > 0;
  }

  lemma PathsOfFour(src: string, docs: bool, dirs: set<string>, a: seq<FileOut>, b: seq<FileOut>, c: seq<FileOut>, manpages: seq<string>)
    requires Paths(a) == if docs then [DocsPath(src)] else []
    requires Paths(b) == if "examples" in dirs || "sample" in dirs then [ExamplesPath(src)] else []
    requires Paths(c) == if "data" in dirs || "conf" in dirs then [InstallPath(src)] else []
    ensures Paths(a + b + c + (if "man" in dirs then [FileOut(ManpagesPath(src), Plain(ManpagesText(manpages)))] else [])) ==
      ListFiles(src, docs, dirs)
  {
    var d := if "man" in dirs then [FileOut(ManpagesPath(src), Plain(ManpagesText(manpages)))] else [];
    PathsAppend(a, b);
    PathsAppend(a + b, c);
    PathsAppend(a + b + c, d);
  }

  /** As written, the docs list is always written, ahead of the others. */
  lemma OtherFilesAsWrittenPaths(src: string, dirs: set<string>, readmes: seq<string>, manpages: seq<string>)
    ensures Paths(OtherFilesAsWritten(src, dirs, readmes, manpages)) == ListFiles(src, true, dirs)
  {
    assert DocsText(dirs, readmes) != "" by { assert |DocsText(dirs, readmes)| >= |README_HEADING + "\n"|; }
    ExamplesWritten(src, dirs);
    InstallsWritten(src, dirs);
    PathsOfFour(src, true, dirs, WriteIfAny(DocsPath(src), DocsText(dirs, readmes)),
      WriteIfAny(ExamplesPath(src), ExamplesText(dirs, EXAMPLE_DIRS)), WriteIfAny(InstallPath(src), InstallsText(src, dirs)), manpages);
  }

  /** As written, a source with no `doc/` directory and no README still
      gets a docs list, holding the READMEs heading alone. */
  lemma DocsWithoutDocs(src: string, dirs: set<string>, manpages: seq<string>)
    requires "doc" !in dirs
    ensures OtherFilesAsWritten(src, dirs, [], manpages)[0] == FileOut(DocsPath(src), Plain("# FIXME: READMEs found\n"))
  {
    assert Concat(CommentLines([])) == [];
    assert DocsText(dirs, []) == README_HEADING + "\n";
    assert Puts(README_HEADING + "\n") == README_HEADING + "\n" == "# FIXME: READMEs found\n";
  }

  /** The docs list as evidently intended: the READMEs heading only when a
      README was found, so that the `docs != ""` test can fail. */
  function DocsIntended(dirs: set<string>, readmes: seq<string>): string {
    (if "doc" in dirs then DOC_NOTE else "") +
    (if readmes != [] then README_HEADING + "\n" + Concat(CommentLines(readmes)) else "")
  }

  function OtherFilesIntended(src: string, dirs: set<string>, readmes: seq<string>, manpages: seq<string>): seq<FileOut> {
    WriteIfAny(DocsPath(src), DocsIntended(dirs, readmes)) +
    WriteIfAny(ExamplesPath(src), ExamplesText(dirs, EXAMPLE_DIRS)) +
    WriteIfAny(InstallPath(src), InstallsText(src, dirs)) +
    (if "man" in dirs then [FileOut(ManpagesPath(src), Plain(ManpagesText(manpages)))] else [])
  }

  /** With the intended docs list, each list file is written exactly when
      something was found for it. */
  lemma OtherFilesIntendedPaths(src: string, dirs: set<string>, readmes: seq<string>, manpages: seq<string>)
    ensures Paths(OtherFilesIntended(src, dirs, readmes, manpages)) == ListFiles(src, "doc" in dirs || readmes != [], dirs)
  {
    assert |DOC_NOTE| > 0;
    assert readmes != [] ==> |DocsIntended(dirs, readmes)| >= |README_HEADING + "\n"|;
    ExamplesWritten(src, dirs);
    InstallsWritten(src, dirs);
    PathsOfFour(src, "doc" in dirs || readmes != [], dirs, WriteIfAny(DocsPath(src), DocsIntended(dirs, readmes)),
      WriteIfAny(ExamplesPath(src), ExamplesText(dirs, EXAMPLE_DIRS)), WriteIfAny(InstallPath(src), InstallsText(src, dirs)), manpages);
  }

  /** Once a README is found the two readings agree. */
  lemma IntendedAgreesWithReadmes(src: string, dirs: set<string>, readmes: seq<string>, manpages: seq<string>)
    requires readmes != []
    ensures OtherFilesIntended(src, dirs, readmes, manpages) == OtherFilesAsWritten(src, dirs, readmes, manpages)
  {
    var a := if "doc" in dirs then DOC_NOTE else "";
    var b := README_HEADING + "\n";
    var c := Concat(CommentLines(readmes));
    assert a + (b + c) == a + b + c;
  }

  lemma {:induction false} ConcatAppend(a: seq<string>, b: seq<string>)
    ensures Concat(a + b) == Concat(a) + Concat(b)
  {
    if a != [] {
      assert (a + b)[0] == a[0];
      assert (a + b)[1..] == a[1..] + b;
      ConcatAppend(a[1..], b);
    } else {
      assert a + b == b;
    }
  }

  lemma CommentLinesWhole(names: seq<string>)
    requires forall k :: 0 <= k < |names| ==> '\n' !in names[k]
    ensures forall k :: 0 <= k < |names| ==> WholeLine(CommentLines(names)[k])
  {
    forall k | 0 <= k < |names| ensures WholeLine(CommentLines(names)[k]) {
      var t := "# " + names[k];
      assert '\n' !in t by { assert forall c :: c in t ==> c in "# " || c in names[k]; }
      WholeLineOf(t);
    }
  }

  /** The READMEs heading, then one line per README. */
  lemma ReadmeLines(readmes: seq<string>)
    requires forall k :: 0 <= k < |readmes| ==> '\n' !in readmes[k]
    ensures Lines(README_HEADING + "\n" + Concat(CommentLines(readmes))) == [README_HEADING + "\n"] + CommentLines(readmes)
  {
    var heading := README_HEADING + "\n";
    WholeLineOf(README_HEADING);
    assert forall j :: 0 <= j < |heading| - 1 ==> heading[j] == heading[..|heading| - 1][j];
    LinesAppend(heading, Concat(CommentLines(readmes)));
    CommentLinesWhole(readmes);
    LinesOfWholeLines(CommentLines(readmes));
  }

  /** The docs list names every README on a line of its own, after the
      notes, when no README name holds a newline. */
  lemma DocsLines(dirs: set<string>, readmes: seq<string>)
    requires readmes != []
    requires forall k :: 0 <= k < |readmes| ==> '\n' !in readmes[k]
    ensures Lines(DocsIntended(dirs, readmes)) ==
      Lines(if "doc" in dirs then DOC_NOTE else "") + [README_HEADING + "\n"] + CommentLines(readmes)
  {
    var head := if "doc" in dirs then DOC_NOTE else "";
    assert head == [] || head[|head| - 1] == '\n' by {
      assert DOC_NOTE[|DOC_NOTE| - 1] == '\n';
    }
    assert DocsIntended(dirs, readmes) == head + (README_HEADING + "\n" + Concat(CommentLines(readmes)));
    NotesThenReadmes(head, readmes);
  }

  lemma NotesThenReadmes(head: string, readmes: seq<string>)
    requires head == [] || head[|head| - 1] == '\n'
    requires forall k :: 0 <= k < |readmes| ==> '\n' !in readmes[k]
    ensures Lines(head + (README_HEADING + "\n" + Concat(CommentLines(readmes)))) ==
      Lines(head) + [README_HEADING + "\n"] + CommentLines(readmes)
  {
    var rest := README_HEADING + "\n" + Concat(CommentLines(readmes));
    LinesSplit(head, rest);
    ReadmeLines(readmes);
    SeqAssoc(Lines(head), [README_HEADING + "\n"], CommentLines(readmes));
  }

  /** The manpages file lists every page found, one per line, after the heading. */
  lemma ManpagesLines(manpages: seq<string>)
    requires forall k :: 0 <= k < |manpages| ==> '\n' !in manpages[k]
    ensures Lines(ManpagesText(manpages)) == Lines(Puts(MANPAGES_HEADER)) + CommentLines(manpages)
  {
    var pages := PageLines(manpages);
    forall k | 0 <= k < |manpages| ensures pages[k] == "# " + manpages[k] + "\n" {
      var l := "# " + manpages[k];
      assert '\n' !in l by { assert forall c :: c in l ==> c in "# " || c in manpages[k]; }
      assert l[|l| - 1] in l;
    }
    assert pages == CommentLines(manpages);
    LinesSplit(Puts(MANPAGES_HEADER), Concat(pages));
    CommentLinesWhole(manpages);
    LinesOfWholeLines(pages);
  }

  // -------------------------------------------------------------- buildpackage

  /** `buildpackage`: the options passed to `dpkg-buildpackage`. */
  function BuildpackageOptions(sourceOnly: bool, checkBuildDeps: bool): (r: seq<string>)
    ensures "-S" in r <==> sourceOnly
    ensures "-d" in r <==> !checkBuildDeps
    ensures |r| == (if sourceOnly then 1 else 0) + (if checkBuildDeps then 0 else 1)
  {
    (if sourceOnly then ["-S"] else []) + (if checkBuildDeps then [] else ["-d"])
  }

  /** The command `buildpackage` runs inside the source directory. */
  function BuildpackageCommand(sourceOnly: bool, checkBuildDeps: bool): string {
    "dpkg-buildpackage -us -uc " + Join(BuildpackageOptions(sourceOnly, checkBuildDeps), " ")
  }

  /** The four commands: unsigned always, then `-S` for a source-only build
      and `-d` to skip the build-dependency check, in that order. */
  lemma BuildpackageCommands()
    ensures BuildpackageCommand(false, true) == "dpkg-buildpackage -us -uc "
    ensures BuildpackageCommand(true, true) == "dpkg-buildpackage -us -uc -S"
    ensures BuildpackageCommand(false, false) == "dpkg-buildpackage -us -uc -d"
    ensures BuildpackageCommand(true, false) == "dpkg-buildpackage -us -uc -S -d"
  {
    assert BuildpackageOptions(true, false) == ["-S", "-d"];
    assert Join(["-S", "-d"], " ") == "-S" + " " + "-d";
  }
}
