/** `DhRuby#install`: the ordered plan of `dh_ruby --install`. The first
    package listed receives the programs of `bin/` and the libraries of
    `lib/`; then every package in turn builds its extension, runs its tests
    and installs its gem specification, and has the shebang lines of its
    programs rewritten; the rubygems audit comes last. */
module Install {
  import opened Text
  import opened Host
  import opened Variants
  import opened FileFilter
  import opened TestRuns
  import opened Audit
  import opened Shebang

  const BINDIR: string := "/usr/bin"

  const LIBDIR: string := "/usr/lib/ruby/vendor_ruby"

  const ENTERING: string := "Entering dh_ruby --install"

  /** `destdir_for(packages.first)` on an empty package list. */
  const NO_PACKAGE: string := "TypeError: can't convert nil into String"

  /** `@prefix + '/'` before `@prefix` was set. */
  const NIL_PREFIX: string := "NoMethodError: undefined method `+' for nil"

  const METADATA: string := "metadata.yml"

  /** What `YAML.load_file('metadata.yml')` provides: `spec_name` and
      `to_ruby` of the gem specification. */
  datatype GemSpec = GemSpec(specName: string, toRuby: string)

  /** What the build tree and the tools answer during one run: the lines of
      `dh_listpackages`, the exit status of every command, the walks of
      `bin/` and `lib/`, the programs and the library files `Dir.glob` finds
      per package, the overrides list and the gem specification. */
  datatype Build = Build(
    listing: string,
    statusOf: Command -> nat,
    binWalk: seq<string>,
    libWalk: seq<string>,
    programs: string -> seq<string>,
    libraries: string -> seq<string>,
    overrides: seq<string>,
    gemspec: GemSpec)

  /** The command `install_files` starts for one listed entry. */
  function InstallCommand(dirs: set<string>, prefix: string, src: string, dest: string, mode: nat, fname: string): Command {
    if src + "/" + fname in dirs then InstallDir(prefix + "/" + dest + "/" + fname)
    else InstallFile(mode, src + "/" + fname, prefix + "/" + dest + "/" + fname)
  }

  /** The commands for the entries `list`, one after the other; a command
      that fails raises and ends the list. */
  function InstallEach(prefix: string, src: string, list: seq<string>, dest: string, mode: nat,
                       w: World, statusOf: Command -> nat): (Flow, World) {
    if list == [] then (Next, w)
    else
      var (flow, w1) := InstallEach(prefix, src, list[..|list| - 1], dest, mode, w, statusOf);
      if !flow.Next? then (flow, w1)
      else RunChecked(w1, InstallCommand(w1.dirs, prefix, src, dest, mode, list[|list| - 1]), statusOf)
  }

  lemma {:induction false} InstallEachStops(prefix: string, src: string, list: seq<string>, dest: string, mode: nat,
                                            w: World, statusOf: Command -> nat, n: nat)
    requires n <= |list| && !InstallEach(prefix, src, list[..n], dest, mode, w, statusOf).0.Next?
    ensures InstallEach(prefix, src, list, dest, mode, w, statusOf) == InstallEach(prefix, src, list[..n], dest, mode, w, statusOf)
    decreases |list| - n
  {
    if n < |list| {
      assert list[..n + 1][..n] == list[..n];
      InstallEachStops(prefix, src, list, dest, mode, w, statusOf, n + 1);
    } else {
      assert list[..n] == list;
    }
  }

  /** `install_files(src, list, dest, mode)` under the prefix in effect. */
  function InstallFilesSpec(prefix: Option<string>, src: string, list: seq<string>, dest: string, mode: nat,
                            w: World, statusOf: Command -> nat): (Flow, World) {
    match prefix
    case None => (Raise(NIL_PREFIX), w)
    case Some(p) =>
      var (flow, w1) := RunChecked(w, InstallDir(p + "/" + dest), statusOf);
      if !flow.Next? then (flow, w1) else InstallEach(p, src, list, dest, mode, w1, statusOf)
  }

  /** `find_files(src)` followed by `install_files`, when `src` is a
      directory. */
  function InstallTree(prefix: string, src: string, walk: seq<string>, dest: string, mode: nat,
                       w: World, statusOf: Command -> nat): (Flow, World) {
    if src !in w.dirs then (Next, w)
    else
      var (files, warnings) := FindFilesSpec(w, src, walk, None);
      InstallFilesSpec(Some(prefix), src, files, dest, mode, w.(log := w.log + warnings), statusOf)
  }

  /** `File.join(destdir_for(package), DEBIAN_GEMS_DIR, version_number,
      'specifications')`; an empty component adds no separator. */
  function SpecDir(package: string, rubyver: string): string {
    var version := VersionNumber(rubyver);
    if version == [] then DestdirFor(package) + DEBIAN_GEMS_DIR + "/specifications"
    else DestdirFor(package) + DEBIAN_GEMS_DIR + "/" + version + "/specifications"
  }

  function SpecPath(package: string, rubyver: string, spec: GemSpec): string {
    SpecDir(package, rubyver) + "/" + spec.specName
  }

  /** The directories `FileUtils.mkdir_p(d)` makes sure of. */
  function Ancestors(d: string): set<string> {
    {d} + set i | 0 < i < |d| && d[i] == '/' :: d[..i]
  }

  /** `mkdir_p` of the specification directory cannot meet a regular file,
      and the specification path is not a directory. */
  predicate SpecInstallable(w: World, package: string, rubyver: string, spec: GemSpec) {
    Ancestors(SpecDir(package, rubyver)) * w.files.Keys == {} && SpecPath(package, rubyver, spec) !in w.dirs
  }

  /** `install_spec(package, rubyver)`: with `metadata.yml` present, the
      specification is written, `puts spec.to_ruby`, under the package's
      tree for that interpreter. `mkdir_p` raises `EEXIST` when one of the
      directories it makes sure of is a regular file, and `File.open` raises
      `EISDIR` when the specification path is a directory. */
  function InstallSpec(w: World, package: string, rubyver: string, spec: GemSpec): (Flow, World) {
    if !PathExists(w, METADATA) then (Next, w)
    else
      var dir := SpecDir(package, rubyver);
      var path := SpecPath(package, rubyver, spec);
      if Ancestors(dir) * w.files.Keys != {} then (Raise(FILE_EXISTS), w)
      else
        var w1 := w.(dirs := w.dirs + Ancestors(dir));
        if path in w.dirs then (Raise(IS_DIRECTORY), w1)
        else (Next, w1.(files := w1.files[path := Puts(spec.toRuby)], log := w1.log + [Write(path)]))
  }

  /** The extension build of a variant package, when there is an `ext/`
      directory: an unknown interpreter ends the run with status 1, and a
      build that fails raises out of `run`. */
  function ExtensionStep(verbose: bool, package: string, rubyver: string, w: World, statusOf: Command -> nat): (Flow, World) {
    if "ext" !in w.dirs then (Next, w)
    else if rubyver !in SUPPORTED_VERSIONS then (Exit(1), Say(w, "Unknown Ruby version: " + rubyver))
    else
      var w1 := if verbose then Say(w, "Building extension for " + rubyver + " ...") else w;
      RunChecked(w1, BuildExtension(BinaryText(rubyver), package), statusOf)
  }

  /** `run_tests(rubyver)` then `install_spec(package, rubyver)`. */
  function TestAndSpec(env: Env, package: string, rubyver: string, w: World, b: Build): (Flow, World) {
    var (flow, w1) := RunTestsSpec(env, rubyver, w, b.statusOf);
    if flow.Next? then InstallSpec(w1, package, rubyver, b.gemspec) else (flow, w1)
  }

  /** Tests and specification for each interpreter of `versions`, in order. */
  function EachVersion(env: Env, package: string, versions: seq<string>, w: World, b: Build): (Flow, World) {
    if versions == [] then (Next, w)
    else
      var (flow, w1) := EachVersion(env, package, versions[..|versions| - 1], w, b);
      if flow.Next? then TestAndSpec(env, package, versions[|versions| - 1], w1, b) else (flow, w1)
  }

  /** The body of `packages.each` for one package; `count` is the number of
      packages. */
  function PackageStep(verbose: bool, env: Env, count: nat, package: string, w: World, b: Build): (Flow, World) {
    var rubyver := RubyVersionFor(package);
    var (flow, w1) :=
      if rubyver == "ruby" then
        if count == 1 then EachVersion(env, package, SUPPORTED_VERSIONS, w, b) else (Next, w)
      else
        var (fe, we) := ExtensionStep(verbose, package, rubyver, w, b.statusOf);
        if fe.Next? then TestAndSpec(env, package, rubyver, we, b) else (fe, we);
    if flow.Next? then UpdateShebangsSpec(verbose, package, w1, b.programs(package)) else (flow, w1)
  }

  /** `packages.each`, stopping at the first exit or raise. */
  function EachPackage(verbose: bool, env: Env, count: nat, packages: seq<string>, w: World, b: Build): (Flow, World) {
    if packages == [] then (Next, w)
    else
      var (flow, w1) := EachPackage(verbose, env, count, packages[..|packages| - 1], w, b);
      if flow.Next? then PackageStep(verbose, env, count, packages[|packages| - 1], w1, b) else (flow, w1)
  }

  /** The packages loop and the closing audit. */
  function PackagesThenAudit(verbose: bool, env: Env, packages: seq<string>, w: World, b: Build): (Flow, World) {
    var (flow, w1) := EachPackage(verbose, env, |packages|, packages, w, b);
    if !flow.Next? then (flow, w1)
    else CheckRubygemsSpec(env, w1, b.listing, b.libraries, b.overrides, b.statusOf)
  }

  /** Everything `install` does once the packages are known. */
  function InstallPackages(verbose: bool, env: Env, packages: seq<string>, w: World, b: Build): (Flow, World)
    requires packages != []
  {
    var prefix := DestdirFor(packages[0]);
    var (f1, w1) := InstallTree(prefix, "bin", b.binWalk, BINDIR, 755, w, b.statusOf);
    if !f1.Next? then (f1, w1)
    else
      var (f2, w2) := InstallTree(prefix, "lib", b.libWalk, LIBDIR, 644, w1, b.statusOf);
      if !f2.Next? then (f2, w2)
      else PackagesThenAudit(verbose, env, packages, w2, b)
  }

  /** `install(argv)` as a function of the host state. Unless tests are
      switched off, a run that ends normally starts `dh_listpackages` first
      and has the audit's `dh_listpackages` as its last command. */
  function InstallPlan(verbose: bool, env: Env, w: World, b: Build): (r: (Flow, World))
    ensures !NoCheck(env) && r.0.Next? ==> AuditLast(Commands(w.log) + [ListPackages], Commands(r.1.log))
  {
    var w0 := if verbose then Say(w, ENTERING) else w;
    var w1 := RunCommand(w0, ListPackages, b.statusOf);
    var packages := Words(b.listing);
    if packages == [] then (Raise(NO_PACKAGE), w1)
    else
      ListingCommands(verbose, w, b);
      AuditLastUnlessNoCheck(verbose, env, packages, w1, b);
      InstallPackages(verbose, env, packages, w1, b)
  }

  /** `run_tests(rubyver)` then `install_spec(package, rubyver)`. */
  method RunTestsAndInstallSpec(env: Env, package: string, rubyver: string, w: World, b: Build) returns (flow: Flow, w': World)
    ensures (flow, w') == TestAndSpec(env, package, rubyver, w, b)
  {
    flow, w' := RunTests(env, rubyver, w, b.statusOf);
    if flow.Next? {
      var installed := InstallSpec(w', package, rubyver, b.gemspec);
      flow, w' := installed.0, installed.1;
    }
  }

  /** `SUPPORTED_RUBY_VERSIONS.keys.each` for a pure-Ruby package. */
  method EachSupportedVersion(env: Env, package: string, w: World, b: Build) returns (flow: Flow, w': World)
    ensures (flow, w') == EachVersion(env, package, SUPPORTED_VERSIONS, w, b)
  {
    flow, w' := EachVersionLoop(env, package, SUPPORTED_VERSIONS, w, b);
  }

  /** The loop of `EachSupportedVersion` over a list of interpreters. */
  method EachVersionLoop(env: Env, package: string, versions: seq<string>, w: World, b: Build) returns (flow: Flow, w': World)
    ensures (flow, w') == EachVersion(env, package, versions, w, b)
  {
    flow, w' := Next, w;
    for i := 0 to |versions|
      invariant (flow, w') == EachVersion(env, package, versions[..i], w, b) && flow.Next?
    {
      assert versions[..i + 1][..i] == versions[..i];
      flow, w' := RunTestsAndInstallSpec(env, package, versions[i], w', b);
      if !flow.Next? {
        EachVersionStops(env, package, versions, w, b, i + 1);
        return;
      }
    }
    assert versions[..|versions|] == versions;
  }

  lemma {:induction false} EachVersionStops(env: Env, package: string, versions: seq<string>, w: World, b: Build, n: nat)
    requires n <= |versions| && !EachVersion(env, package, versions[..n], w, b).0.Next?
    ensures EachVersion(env, package, versions, w, b) == EachVersion(env, package, versions[..n], w, b)
    decreases |versions| - n
  {
    if n < |versions| {
      assert versions[..n + 1][..n] == versions[..n];
      EachVersionStops(env, package, versions, w, b, n + 1);
    } else {
      assert versions[..n] == versions;
    }
  }

  lemma {:induction false} EachPackageStops(verbose: bool, env: Env, count: nat, packages: seq<string>, w: World, b: Build, n: nat)
    requires n <= |packages| && !EachPackage(verbose, env, count, packages[..n], w, b).0.Next?
    ensures EachPackage(verbose, env, count, packages, w, b) == EachPackage(verbose, env, count, packages[..n], w, b)
    decreases |packages| - n
  {
    if n < |packages| {
      assert packages[..n + 1][..n] == packages[..n];
      EachPackageStops(verbose, env, count, packages, w, b, n + 1);
    } else {
      assert packages[..n] == packages;
    }
  }

  /** A command `dh_ruby --install` may start into the tree `root` of the
      first package: it installs nothing outside `root`, and under `nocheck`
      it is no test suite. */
  predicate Allowed(c: Command, root: string, nocheck: bool) {
    && (nocheck ==> !c.TestRunner? && !c.TestScript?)
    && (c.InstallDir? ==> StartsWith(c.path, root))
    && (c.InstallFile? ==> StartsWith(c.dst, root))
  }

  /** `w'` keeps the commands of `w` in order and adds only allowed ones. */
  predicate Adds(w: World, w': World, root: string, nocheck: bool) {
    var before := Commands(w.log);
    var after := Commands(w'.log);
    && |before| <= |after| && after[..|before|] == before
    && forall k :: |before| <= k < |after| ==> Allowed(after[k], root, nocheck)
  }

  lemma AddsTrans(w1: World, w2: World, w3: World, root: string, nocheck: bool)
    requires Adds(w1, w2, root, nocheck) && Adds(w2, w3, root, nocheck)
    ensures Adds(w1, w3, root, nocheck)
  {
    var b1, b2, b3 := Commands(w1.log), Commands(w2.log), Commands(w3.log);
    assert b3[..|b1|] == b3[..|b2|][..|b1|];
    forall k | |b1| <= k < |b3|
      ensures Allowed(b3[k], root, nocheck)
    {
      if k < |b2| {
        assert b3[k] == b3[..|b2|][k];
      }
    }
  }

  lemma AddsCommands(w: World, w': World, cs: seq<Command>, root: string, nocheck: bool)
    requires Commands(w'.log) == Commands(w.log) + cs
    requires forall c :: c in cs ==> Allowed(c, root, nocheck)
    ensures Adds(w, w', root, nocheck)
  {
    var before := Commands(w.log);
    assert Commands(w'.log)[..|before|] == before;
    forall k | |before| <= k < |Commands(w'.log)|
      ensures Allowed(Commands(w'.log)[k], root, nocheck)
    {
      assert Commands(w'.log)[k] == cs[k - |before|];
    }
  }

  /** Logging output or a written file starts no command. */
  lemma AddsNoRun(w: World, w': World, events: seq<Event>, root: string, nocheck: bool)
    requires w'.log == w.log + events
    requires forall e :: e in events ==> !e.Run?
    ensures Adds(w, w', root, nocheck) && Commands(w'.log) == Commands(w.log)
  {
    CommandsAppend(w.log, events);
    NoRunNoCommands(events);
    AddsCommands(w, w', [], root, nocheck);
  }

  lemma {:induction false} NoRunNoCommands(events: seq<Event>)
    requires forall e :: e in events ==> !e.Run?
    ensures Commands(events) == []
    decreases |events|
  {
    if events != [] {
      assert events[|events| - 1] in events;
      NoRunNoCommands(events[..|events| - 1]);
    }
  }

  /** Running one allowed command. */
  lemma AddsRun(w: World, c: Command, statusOf: Command -> nat, root: string, nocheck: bool)
    requires Allowed(c, root, nocheck)
    ensures Adds(w, RunCommand(w, c, statusOf), root, nocheck)
    ensures Commands(RunCommand(w, c, statusOf).log) == Commands(w.log) + [c]
  {
    CommandsAppend(w.log, [Run(c)]);
    assert Commands([Run(c)]) == [c];
    AddsCommands(w, RunCommand(w, c, statusOf), [c], root, nocheck);
  }

  lemma PrefixStartsWith(root: string, rest: string)
    ensures StartsWith(root + rest, root)
  {
    assert (root + rest)[..|root|] == root;
  }

  /** Every entry of `install_files` is installed below `prefix + '/'`. */
  lemma {:induction false} InstallEachAdds(prefix: string, src: string, list: seq<string>, dest: string, mode: nat,
                                           w: World, statusOf: Command -> nat, nocheck: bool)
    ensures var (flow, w') := InstallEach(prefix, src, list, dest, mode, w, statusOf);
      && Adds(w, w', prefix + "/", nocheck) && w'.files == w.files && w'.dirs == w.dirs
      && (flow.Next? || flow == Raise(COMMAND_FAILED))
    decreases |list|
  {
    if list != [] {
      var (flow1, w1) := InstallEach(prefix, src, list[..|list| - 1], dest, mode, w, statusOf);
      InstallEachAdds(prefix, src, list[..|list| - 1], dest, mode, w, statusOf, nocheck);
      if flow1.Next? {
        var fname := list[|list| - 1];
        PrefixStartsWith(prefix + "/", dest + "/" + fname);
        assert prefix + "/" + dest + "/" + fname == (prefix + "/") + (dest + "/" + fname);
        var c := InstallCommand(w1.dirs, prefix, src, dest, mode, fname);
        AddsRun(w1, c, statusOf, prefix + "/", nocheck);
        AddsTrans(w, w1, RunCommand(w1, c, statusOf), prefix + "/", nocheck);
      }
    }
  }

  /** `find_files` and `install_files` for one source directory: whatever
      the walk holds, nothing is installed outside the prefix, and the flow
      goes on unless an `install` command fails. */
  lemma InstallTreeAdds(prefix: string, src: string, walk: seq<string>, dest: string, mode: nat,
                        w: World, statusOf: Command -> nat, nocheck: bool)
    ensures var (flow, w') := InstallTree(prefix, src, walk, dest, mode, w, statusOf);
      && (flow.Next? || flow == Raise(COMMAND_FAILED))
      && Adds(w, w', prefix + "/", nocheck) && w'.files == w.files && w'.dirs == w.dirs
  {
    if src in w.dirs {
      var (files, warnings) := FindFilesSpec(w, src, walk, None);
      var w1 := w.(log := w.log + warnings);
      WarningsAreOutput(Dropped(Keeper(w, src, None), Entries(walk)));
      AddsNoRun(w, w1, warnings, prefix + "/", nocheck);
      PrefixStartsWith(prefix + "/", dest);
      var w2 := RunCommand(w1, InstallDir(prefix + "/" + dest), statusOf);
      AddsRun(w1, InstallDir(prefix + "/" + dest), statusOf, prefix + "/", nocheck);
      AddsTrans(w, w1, w2, prefix + "/", nocheck);
      if statusOf(InstallDir(prefix + "/" + dest)) == 0 {
        InstallEachAdds(prefix, src, files, dest, mode, w2, statusOf, nocheck);
        AddsTrans(w, w2, InstallEach(prefix, src, files, dest, mode, w2, statusOf).1, prefix + "/", nocheck);
      }
    }
  }

  /** `run_tests` installs nothing, and starts no test suite under
      `nocheck`. */
  lemma RunTestsAdds(env: Env, rubyver: string, w: World, statusOf: Command -> nat, root: string)
    ensures Adds(w, RunTestsSpec(env, rubyver, w, statusOf).1, root, NoCheck(env))
  {
    var w1 := RunTestsSpec(env, rubyver, w, statusOf).1;
    if NoCheck(env) {
      NoCheckSkipsTests(env, rubyver, w, statusOf);
      AddsCommands(w, w1, [], root, NoCheck(env));
    } else {
      var cs := if PathExists(w, TEST_FILES_YAML) then [TestRunner(BinaryText(rubyver))]
                else if PathExists(w, TEST_SCRIPT) then [TestScript(BinaryText(rubyver))]
                else [];
      assert Commands(w1.log) == Commands(w.log) + cs by {
        StrategyPrecedence(env, rubyver, w, statusOf);
      }
      StrategyAdds(w, w1, cs, rubyver, root);
    }
  }

  /** Starting the chosen test command, if any, is allowed when tests run. */
  lemma StrategyAdds(w: World, w1: World, cs: seq<Command>, rubyver: string, root: string)
    requires cs == [TestRunner(BinaryText(rubyver))] || cs == [TestScript(BinaryText(rubyver))] || cs == []
    requires Commands(w1.log) == Commands(w.log) + cs
    ensures Adds(w, w1, root, false)
  {
    assert forall c :: c in cs ==> Allowed(c, root, false);
    AddsCommands(w, w1, cs, root, false);
  }

  /** `install_spec` starts no command. */
  lemma InstallSpecAdds(w: World, package: string, rubyver: string, spec: GemSpec, root: string, nocheck: bool)
    ensures Adds(w, InstallSpec(w, package, rubyver, spec).1, root, nocheck)
  {
    var w' := InstallSpec(w, package, rubyver, spec).1;
    if w'.log == w.log {
      AddsCommands(w, w', [], root, nocheck);
    } else {
      AddsNoRun(w, w', [Write(SpecPath(package, rubyver, spec))], root, nocheck);
    }
  }

  /** Tests and specification of one interpreter install nothing, and start
      no test suite under `nocheck`. */
  lemma TestAndSpecAdds(env: Env, package: string, rubyver: string, w: World, b: Build, root: string)
    ensures Adds(w, TestAndSpec(env, package, rubyver, w, b).1, root, NoCheck(env))
  {
    var (flow, w1) := RunTestsSpec(env, rubyver, w, b.statusOf);
    RunTestsAdds(env, rubyver, w, b.statusOf, root);
    if flow.Next? {
      InstallSpecAdds(w1, package, rubyver, b.gemspec, root, NoCheck(env));
      AddsTrans(w, w1, InstallSpec(w1, package, rubyver, b.gemspec).1, root, NoCheck(env));
    }
  }

  lemma {:induction false} EachVersionAdds(env: Env, package: string, versions: seq<string>, w: World, b: Build, root: string)
    ensures Adds(w, EachVersion(env, package, versions, w, b).1, root, NoCheck(env))
    decreases |versions|
  {
    if versions == [] {
      AddsCommands(w, w, [], root, NoCheck(env));
    } else {
      var (flow, w1) := EachVersion(env, package, versions[..|versions| - 1], w, b);
      EachVersionAdds(env, package, versions[..|versions| - 1], w, b, root);
      if flow.Next? {
        TestAndSpecAdds(env, package, versions[|versions| - 1], w1, b, root);
        AddsTrans(w, w1, TestAndSpec(env, package, versions[|versions| - 1], w1, b).1, root, NoCheck(env));
      }
    }
  }

  lemma ExtensionStepAdds(verbose: bool, package: string, rubyver: string, w: World, statusOf: Command -> nat,
                          root: string, nocheck: bool)
    ensures Adds(w, ExtensionStep(verbose, package, rubyver, w, statusOf).1, root, nocheck)
  {
    if "ext" !in w.dirs {
      AddsCommands(w, w, [], root, nocheck);
    } else if rubyver !in SUPPORTED_VERSIONS {
      AddsNoRun(w, Say(w, "Unknown Ruby version: " + rubyver), [Out(Puts("Unknown Ruby version: " + rubyver))], root, nocheck);
    } else {
      var w1 := if verbose then Say(w, "Building extension for " + rubyver + " ...") else w;
      if verbose {
        AddsNoRun(w, w1, [Out(Puts("Building extension for " + rubyver + " ..."))], root, nocheck);
      } else {
        AddsCommands(w, w1, [], root, nocheck);
      }
      AddsRun(w1, BuildExtension(BinaryText(rubyver), package), statusOf, root, nocheck);
      AddsTrans(w, w1, RunCommand(w1, BuildExtension(BinaryText(rubyver), package), statusOf), root, nocheck);
    }
  }

  lemma PackageStepAdds(verbose: bool, env: Env, count: nat, package: string, w: World, b: Build, root: string)
    ensures Adds(w, PackageStep(verbose, env, count, package, w, b).1, root, NoCheck(env))
  {
    var rubyver := RubyVersionFor(package);
    var (flow, w1) :=
      if rubyver == "ruby" then
        if count == 1 then EachVersion(env, package, SUPPORTED_VERSIONS, w, b) else (Next, w)
      else
        var (fe, we) := ExtensionStep(verbose, package, rubyver, w, b.statusOf);
        if fe.Next? then TestAndSpec(env, package, rubyver, we, b) else (fe, we);
    if rubyver == "ruby" {
      if count == 1 {
        EachVersionAdds(env, package, SUPPORTED_VERSIONS, w, b, root);
      } else {
        AddsCommands(w, w, [], root, NoCheck(env));
      }
    } else {
      var (fe, we) := ExtensionStep(verbose, package, rubyver, w, b.statusOf);
      ExtensionStepAdds(verbose, package, rubyver, w, b.statusOf, root, NoCheck(env));
      if fe.Next? {
        TestAndSpecAdds(env, package, rubyver, we, b, root);
        AddsTrans(w, we, w1, root, NoCheck(env));
      }
    }
    if flow.Next? {
      var w2 := UpdateShebangsSpec(verbose, package, w1, b.programs(package)).1;
      UpdateShebangsRunsNothing(verbose, package, w1, b.programs(package));
      AddsCommands(w1, w2, [], root, NoCheck(env));
      AddsTrans(w, w1, w2, root, NoCheck(env));
    }
  }

  lemma {:induction false} EachPackageAdds(verbose: bool, env: Env, count: nat, packages: seq<string>, w: World, b: Build, root: string)
    ensures Adds(w, EachPackage(verbose, env, count, packages, w, b).1, root, NoCheck(env))
    decreases |packages|
  {
    if packages == [] {
      AddsCommands(w, w, [], root, NoCheck(env));
    } else {
      var (flow, w1) := EachPackage(verbose, env, count, packages[..|packages| - 1], w, b);
      EachPackageAdds(verbose, env, count, packages[..|packages| - 1], w, b, root);
      if flow.Next? {
        PackageStepAdds(verbose, env, count, packages[|packages| - 1], w1, b, root);
        AddsTrans(w, w1, PackageStep(verbose, env, count, packages[|packages| - 1], w1, b).1, root, NoCheck(env));
      }
    }
  }

  lemma PackagesThenAuditAdds(verbose: bool, env: Env, packages: seq<string>, w: World, b: Build, root: string)
    ensures Adds(w, PackagesThenAudit(verbose, env, packages, w, b).1, root, NoCheck(env))
  {
    var (flow, w1) := EachPackage(verbose, env, |packages|, packages, w, b);
    EachPackageAdds(verbose, env, |packages|, packages, w, b, root);
    if flow.Next? {
      var w2 := CheckRubygemsSpec(env, w1, b.listing, b.libraries, b.overrides, b.statusOf).1;
      AuditCommands(env, w1, b.listing, b.libraries, b.overrides, b.statusOf);
      AddsCommands(w1, w2, if NoCheck(env) then [] else [ListPackages], root, NoCheck(env));
      AddsTrans(w, w1, w2, root, NoCheck(env));
    }
  }

  lemma InstallPackagesAdds(verbose: bool, env: Env, packages: seq<string>, w: World, b: Build)
    requires packages != []
    ensures Adds(w, InstallPackages(verbose, env, packages, w, b).1, DestdirFor(packages[0]) + "/", NoCheck(env))
  {
    var root := DestdirFor(packages[0]) + "/";
    var nocheck := NoCheck(env);
    var prefix := DestdirFor(packages[0]);
    var (f2, w2) := InstallTree(prefix, "bin", b.binWalk, BINDIR, 755, w, b.statusOf);
    InstallTreeAdds(prefix, "bin", b.binWalk, BINDIR, 755, w, b.statusOf, nocheck);
    var (f3, w3) := InstallTree(prefix, "lib", b.libWalk, LIBDIR, 644, w2, b.statusOf);
    InstallTreeAdds(prefix, "lib", b.libWalk, LIBDIR, 644, w2, b.statusOf, nocheck);
    AddsTrans(w, w2, w3, root, nocheck);
    PackagesThenAuditAdds(verbose, env, packages, w3, b, root);
    AddsTrans(w, w3, PackagesThenAudit(verbose, env, packages, w3, b).1, root, nocheck);
  }

  /** `install` starts `dh_listpackages` first; with at least one package
      listed, every `install` command it starts afterwards targets the tree
      of the FIRST package, `debian/<first>/`, and under `nocheck` no test
      suite is started for any package or interpreter. */
  lemma InstallPlanPromise(verbose: bool, env: Env, w: World, b: Build)
    requires Words(b.listing) != []
    ensures var (flow, w') := InstallPlan(verbose, env, w, b);
      var n := |Commands(w.log)|;
      && n < |Commands(w'.log)| && Commands(w'.log)[..n] == Commands(w.log)
      && Commands(w'.log)[n] == ListPackages
      && forall k :: n < k < |Commands(w'.log)| ==>
           Allowed(Commands(w'.log)[k], DestdirFor(Words(b.listing)[0]) + "/", NoCheck(env))
  {
    var packages := Words(b.listing);
    var root := DestdirFor(packages[0]) + "/";
    var nocheck := NoCheck(env);
    var w0 := if verbose then Say(w, ENTERING) else w;
    var w1 := RunCommand(w0, ListPackages, b.statusOf);
    var w4 := InstallPackages(verbose, env, packages, w1, b).1;
    assert InstallPlan(verbose, env, w, b).1 == w4;
    assert Commands(w1.log) == Commands(w.log) + [ListPackages] by {
      if verbose {
        AddsNoRun(w, w0, [Out(Puts(ENTERING))], root, nocheck);
      }
      AddsRun(w0, ListPackages, b.statusOf, root, nocheck);
    }
    assert Adds(w1, w4, root, nocheck) by {
      InstallPackagesAdds(verbose, env, packages, w1, b);
    }
    StartsWithCommand(w, w1, w4, ListPackages, root, nocheck);
  }

  /** A run whose first new command is `c` and whose later commands are
      allowed. */
  lemma StartsWithCommand(w: World, w1: World, w4: World, c: Command, root: string, nocheck: bool)
    requires Commands(w1.log) == Commands(w.log) + [c]
    requires Adds(w1, w4, root, nocheck)
    ensures var n := |Commands(w.log)|;
      && n < |Commands(w4.log)| && Commands(w4.log)[..n] == Commands(w.log)
      && Commands(w4.log)[n] == c
      && forall k :: n < k < |Commands(w4.log)| ==> Allowed(Commands(w4.log)[k], root, nocheck)
  {
    var before := Commands(w1.log);
    var after := Commands(w4.log);
    var n := |Commands(w.log)|;
    assert after[..n + 1] == before;
    assert after[..n] == before[..n];
    assert after[n] == before[n];
  }

  /** With no package listed, `install` stops at `destdir_for(nil)` after
      `dh_listpackages`, before anything is installed. */
  lemma NoPackagesRaises(verbose: bool, env: Env, w: World, b: Build)
    requires Words(b.listing) == []
    ensures var (flow, w') := InstallPlan(verbose, env, w, b);
      && flow == Raise(NO_PACKAGE)
      && Commands(w'.log) == Commands(w.log) + [ListPackages]
      && w'.files == w.files && w'.dirs == w.dirs
  {
    var w0 := if verbose then Say(w, ENTERING) else w;
    if verbose {
      AddsNoRun(w, w0, [Out(Puts(ENTERING))], "", false);
    }
    AddsRun(w0, ListPackages, b.statusOf, "", false);
  }

  /** Where `install_spec` writes: inside `debian/<package>/`, one
      directory per interpreter. */
  lemma SpecPathShape(package: string, rubyver: string, spec: GemSpec)
    requires rubyver in SUPPORTED_VERSIONS
    ensures var path := SpecPath(package, rubyver, spec);
      && StartsWith(path, DestdirFor(package) + "/")
      && path[..7] == "debian/" && path[7..7 + |package|] == package
      && path[7 + |package|..] == DEBIAN_GEMS_DIR + "/" + VersionNumber(rubyver) + "/specifications" + "/" + spec.specName
  {
    assert VersionNumber(rubyver) != [] by {
      VersionNumberOfSupported(rubyver);
    }
    JoinedPathShape("debian/", package, DEBIAN_GEMS_DIR, VersionNumber(rubyver), "/specifications", spec.specName);
  }

  /** The pieces of a path `d + p + g + "/" + v + s + "/" + n` with `|d| == 7`
      and `g` starting with `/`. */
  lemma JoinedPathShape(d: string, p: string, g: string, v: string, s: string, n: string)
    requires |d| == 7 && g != [] && g[0] == '/'
    ensures var path := d + p + g + "/" + v + s + "/" + n;
      && StartsWith(path, d + p + "/")
      && path[..7] == d && path[7..7 + |p|] == p
      && path[7 + |p|..] == g + "/" + v + s + "/" + n
  {
    var tail := g + "/" + v + s + "/" + n;
    var path := d + p + g + "/" + v + s + "/" + n;
    assert path == d + p + tail;
    assert path[..7] == d;
    assert path[7..7 + |p|] == p;
    assert path[7 + |p|..] == tail;
    assert path == (d + p + "/") + tail[1..];
    PrefixStartsWith(d + p + "/", tail[1..]);
  }

  /** When a shorter package name followed by `/` is the head of a longer
      name, the longer name contains a `/`. */
  lemma SlashInside(path: string, short: string, long: string, tail: string)
    requires |short| < |long|
    requires 7 + |long| <= |path| && path[7..7 + |long|] == long
    requires path[7 + |short|..] == tail && tail != [] && tail[0] == '/'
    ensures '/' in long
  {
    assert path[7 + |short|] == tail[0];
    assert path[7 + |short|] == path[7..7 + |long|][|short|];
    assert long[|short|] in long;
  }

  /** Two `install_spec` calls for packages without `/` in their names and
      supported interpreters write the same file only when they are for the
      same package and interpreter: the specifications of `ruby1.8` and
      `ruby1.9.1` never overwrite each other. */
  lemma SpecPathsDistinct(p1: string, p2: string, rv1: string, rv2: string, spec: GemSpec)
    requires '/' !in p1 && '/' !in p2
    requires rv1 in SUPPORTED_VERSIONS && rv2 in SUPPORTED_VERSIONS
    requires SpecPath(p1, rv1, spec) == SpecPath(p2, rv2, spec)
    ensures p1 == p2 && rv1 == rv2
  {
    var path := SpecPath(p1, rv1, spec);
    SpecPathShape(p1, rv1, spec);
    SpecPathShape(p2, rv2, spec);
    var t1 := DEBIAN_GEMS_DIR + "/" + VersionNumber(rv1) + "/specifications" + "/" + spec.specName;
    var t2 := DEBIAN_GEMS_DIR + "/" + VersionNumber(rv2) + "/specifications" + "/" + spec.specName;
    if |p1| < |p2| {
      SlashInside(path, p1, p2, t1);
    } else if |p2| < |p1| {
      SlashInside(path, p2, p1, t2);
    }
    assert p1 == path[7..7 + |p1|] == p2;
    assert t1 == t2;
    var k := |DEBIAN_GEMS_DIR| + 3;
    assert t1[k] == (if rv1 == "ruby1.8" then '8' else '9');
    assert t2[k] == (if rv2 == "ruby1.8" then '8' else '9');
  }

  /** `install_spec` with `metadata.yml` present writes `puts spec.to_ruby`
      to the specification file under the package's tree, creates its
      directory and changes no other file; without it nothing happens. */
  lemma InstallSpecWrites(w: World, package: string, rubyver: string, spec: GemSpec)
    requires rubyver in SUPPORTED_VERSIONS
    ensures var r := InstallSpec(w, package, rubyver, spec);
      var w' := r.1;
      var path := SpecPath(package, rubyver, spec);
      var blocked := Ancestors(SpecDir(package, rubyver)) * w.files.Keys != {};
      && (PathExists(w, METADATA) && blocked ==> r == (Raise(FILE_EXISTS), w))
      && (PathExists(w, METADATA) && !blocked && path in w.dirs ==>
            && r.0 == Raise(IS_DIRECTORY) && w'.files == w.files && w'.log == w.log)
      && (PathExists(w, METADATA) && SpecInstallable(w, package, rubyver, spec) ==>
            && r.0 == Next
            && w'.files[path] == Puts(spec.toRuby) && EndsWith(w'.files[path], "\n")
            && StartsWith(path, DestdirFor(package) + "/")
            && SpecDir(package, rubyver) in w'.dirs && w.dirs <= w'.dirs
            && (forall f :: f in w.files && f != path ==> f in w'.files && w'.files[f] == w.files[f])
            && w'.files.Keys == w.files.Keys + {path})
      && (!PathExists(w, METADATA) ==> r == (Next, w))
  {
    SpecPathShape(package, rubyver, spec);
  }

  /** A variant package with an `ext/` directory for an interpreter that is
      not supported ends the build with status 1 after one line of output,
      having started nothing. */
  lemma UnknownVariantExits(verbose: bool, env: Env, count: nat, package: string, w: World, b: Build)
    requires RubyVersionFor(package) != "ruby" && RubyVersionFor(package) !in SUPPORTED_VERSIONS
    requires "ext" in w.dirs
    ensures var (flow, w') := PackageStep(verbose, env, count, package, w, b);
      && flow == Exit(1)
      && Commands(w'.log) == Commands(w.log) && w'.files == w.files
      && w'.log[|w'.log| - 1] == Out(Puts("Unknown Ruby version: " + RubyVersionFor(package)))
  {
    var rubyver := RubyVersionFor(package);
    AddsNoRun(w, Say(w, "Unknown Ruby version: " + rubyver), [Out(Puts("Unknown Ruby version: " + rubyver))], "", false);
  }

  /** The world right after the extension build of a variant package. */
  function Built(verbose: bool, package: string, w: World, statusOf: Command -> nat): World {
    var rubyver := RubyVersionFor(package);
    var w1 := if verbose then Say(w, "Building extension for " + rubyver + " ...") else w;
    RunCommand(w1, BuildExtension(BinaryText(rubyver), package), statusOf)
  }

  lemma BuildStarts(verbose: bool, package: string, w: World, statusOf: Command -> nat)
    ensures Commands(Built(verbose, package, w, statusOf).log) ==
            Commands(w.log) + [BuildExtension(BinaryText(RubyVersionFor(package)), package)]
  {
    var rubyver := RubyVersionFor(package);
    var c := BuildExtension(BinaryText(rubyver), package);
    var w1 := if verbose then Say(w, "Building extension for " + rubyver + " ...") else w;
    if verbose {
      AddsNoRun(w, w1, [Out(Puts("Building extension for " + rubyver + " ..."))], "", false);
    }
    AddsRun(w1, c, statusOf, "", false);
  }

  lemma AfterBuildAdds(verbose: bool, env: Env, count: nat, package: string, w: World, b: Build)
    requires RubyVersionFor(package) in SUPPORTED_VERSIONS
    requires "ext" in w.dirs
    ensures Adds(Built(verbose, package, w, b.statusOf), PackageStep(verbose, env, count, package, w, b).1, "", NoCheck(env))
  {
    var rubyver := RubyVersionFor(package);
    var we := Built(verbose, package, w, b.statusOf);
    if b.statusOf(BuildExtension(BinaryText(rubyver), package)) == 0 {
      assert ExtensionStep(verbose, package, rubyver, w, b.statusOf) == (Next, we);
      var w2 := TestAndSpec(env, package, rubyver, we, b);
      var wf := if w2.0.Next? then UpdateShebangsSpec(verbose, package, w2.1, b.programs(package)).1 else w2.1;
      assert PackageStep(verbose, env, count, package, w, b).1 == wf;
      TestsThenShebangsAdds(verbose, env, package, rubyver, we, b);
    } else {
      FailedBuildIsFatal(verbose, env, count, package, w, b);
      AddsCommands(we, we, [], "", NoCheck(env));
    }
  }

  /** A failed extension build raises out of `run`: the package step ends
      right after the build command, so the failure never reaches
      `handle_test_failure`, no `DH_RUBY_IGNORE_TESTS` setting or answer
      can wave it through, and neither tests nor specification follow. */
  lemma FailedBuildIsFatal(verbose: bool, env: Env, count: nat, package: string, w: World, b: Build)
    requires RubyVersionFor(package) in SUPPORTED_VERSIONS
    requires "ext" in w.dirs
    requires b.statusOf(BuildExtension(BinaryText(RubyVersionFor(package)), package)) != 0
    ensures var (flow, w') := PackageStep(verbose, env, count, package, w, b);
      && flow == Raise(COMMAND_FAILED)
      && w' == Built(verbose, package, w, b.statusOf)
      && w'.log[|w'.log| - 1] == Run(BuildExtension(BinaryText(RubyVersionFor(package)), package))
      && w'.files == w.files && w'.stdin == w.stdin
  {
    var rubyver := RubyVersionFor(package);
    assert ExtensionStep(verbose, package, rubyver, w, b.statusOf) == (Raise(COMMAND_FAILED), Built(verbose, package, w, b.statusOf));
  }

  /** Tests, specification and shebangs add only what `Allowed` admits. */
  lemma TestsThenShebangsAdds(verbose: bool, env: Env, package: string, rubyver: string, we: World, b: Build)
    ensures var w2 := TestAndSpec(env, package, rubyver, we, b);
      Adds(we, if w2.0.Next? then UpdateShebangsSpec(verbose, package, w2.1, b.programs(package)).1 else w2.1,
           "", NoCheck(env))
  {
    var nocheck := NoCheck(env);
    var w2 := TestAndSpec(env, package, rubyver, we, b);
    assert Adds(we, w2.1, "", nocheck) by {
      TestAndSpecAdds(env, package, rubyver, we, b, "");
    }
    if w2.0.Next? {
      var w' := UpdateShebangsSpec(verbose, package, w2.1, b.programs(package)).1;
      assert Adds(w2.1, w', "", nocheck) by {
        UpdateShebangsRunsNothing(verbose, package, w2.1, b.programs(package));
        AddsCommands(w2.1, w', [], "", nocheck);
      }
      AddsTrans(we, w2.1, w', "", nocheck);
    }
  }

  /** A variant package with an `ext/` directory for a supported
      interpreter builds its extension with that interpreter's binary before
      anything else it starts. */
  lemma ExtensionBuiltFirst(verbose: bool, env: Env, count: nat, package: string, w: World, b: Build)
    requires RubyVersionFor(package) in SUPPORTED_VERSIONS
    requires "ext" in w.dirs
    ensures var w' := PackageStep(verbose, env, count, package, w, b).1;
      var n := |Commands(w.log)|;
      n < |Commands(w'.log)| && Commands(w'.log)[..n] == Commands(w.log) &&
      Commands(w'.log)[n] == BuildExtension(BinaryFor(RubyVersionFor(package)).value, package)
  {
    var c := BuildExtension(BinaryText(RubyVersionFor(package)), package);
    var we := Built(verbose, package, w, b.statusOf);
    var w' := PackageStep(verbose, env, count, package, w, b).1;
    assert Commands(we.log) == Commands(w.log) + [c] by {
      BuildStarts(verbose, package, w, b.statusOf);
    }
    assert Adds(we, w', "", NoCheck(env)) by {
      AfterBuildAdds(verbose, env, count, package, w, b);
    }
    StartsWithCommand(w, we, w', c, "", NoCheck(env));
  }

  /** A pure-Ruby package among several runs no tests and installs no
      specification: only its programs' shebang lines are rewritten. */
  lemma PureAmongSeveralOnlyShebangs(verbose: bool, env: Env, count: nat, package: string, w: World, b: Build)
    requires RubyVersionFor(package) == "ruby" && count != 1
    ensures var (flow, w') := PackageStep(verbose, env, count, package, w, b);
      && (flow, w') == UpdateShebangsSpec(verbose, package, w, b.programs(package))
      && Commands(w'.log) == Commands(w.log) && w'.status == w.status
  {
    UpdateShebangsRunsNothing(verbose, package, w, b.programs(package));
  }

  /** The events of the extension build of a variant package: the
      announcement when verbose and the build command, when there is an
      `ext/` directory. */
  function BuildEvents(verbose: bool, package: string, w: World): seq<Event> {
    if "ext" !in w.dirs then []
    else
      var rubyver := RubyVersionFor(package);
      (if verbose then [Out(Puts("Building extension for " + rubyver + " ..."))] else [])
        + [Run(BuildExtension(BinaryText(rubyver), package))]
  }

  /** The extension build goes on when there is nothing to build or the
      build succeeds, and leaves the files alone. */
  lemma BuildSucceeds(verbose: bool, package: string, w: World, statusOf: Command -> nat)
    requires RubyVersionFor(package) in SUPPORTED_VERSIONS
    requires "ext" in w.dirs ==> statusOf(BuildExtension(BinaryText(RubyVersionFor(package)), package)) == 0
    ensures var r := ExtensionStep(verbose, package, RubyVersionFor(package), w, statusOf);
      && r.0 == Next && r.1.log == w.log + BuildEvents(verbose, package, w)
      && r.1.files == w.files && r.1.dirs == w.dirs
  {
  }

  /** A passing run of the gem2deb test runner: announced, started, and the
      build goes on without consulting the failure policy. */
  lemma TestRunnerPasses(env: Env, rubyver: string, w: World, statusOf: Command -> nat)
    requires !NoCheck(env) && PathExists(w, TEST_FILES_YAML)
    requires !Failed(Some(statusOf(TestRunner(BinaryText(rubyver)))))
    ensures var r := RunTestsSpec(env, rubyver, w, statusOf);
      && r.0 == Next
      && r.1.log == w.log + [Out(Puts(Announcement(w, rubyver))), Run(TestRunner(BinaryText(rubyver)))]
      && r.1.files == w.files && r.1.dirs == w.dirs
  {
    var w1 := Say(w, Announcement(w, rubyver));
    assert TestsRun(w, rubyver, statusOf) == RunCommand(w1, TestRunner(BinaryText(rubyver)), statusOf);
  }

  /** The world once a variant package's extension build, tests and gem
      specification are done, before its programs are rewritten. */
  function SpecWorld(verbose: bool, env: Env, package: string, w: World, b: Build): World {
    var rubyver := RubyVersionFor(package);
    var we := ExtensionStep(verbose, package, rubyver, w, b.statusOf).1;
    InstallSpec(RunTestsSpec(env, rubyver, we, b.statusOf).1, package, rubyver, b.gemspec).1
  }

  /** When the build and the gem2deb test runner pass, a variant package goes
      on to rewrite its programs from `SpecWorld`. */
  lemma VariantReachesShebangs(verbose: bool, env: Env, count: nat, package: string, w: World, b: Build)
    requires RubyVersionFor(package) in SUPPORTED_VERSIONS
    requires "ext" in w.dirs ==> b.statusOf(BuildExtension(BinaryText(RubyVersionFor(package)), package)) == 0
    requires !NoCheck(env) && PathExists(w, TEST_FILES_YAML)
    requires PathExists(w, METADATA) ==> SpecInstallable(w, package, RubyVersionFor(package), b.gemspec)
    requires !Failed(Some(b.statusOf(TestRunner(BinaryText(RubyVersionFor(package))))))
    ensures PackageStep(verbose, env, count, package, w, b)
      == UpdateShebangsSpec(verbose, package, SpecWorld(verbose, env, package, w, b), b.programs(package))
  {
    var rubyver := RubyVersionFor(package);
    assert rubyver != "ruby";
    var we := ExtensionStep(verbose, package, rubyver, w, b.statusOf).1;
    BuildSucceeds(verbose, package, w, b.statusOf);
    TestRunnerPasses(env, rubyver, we, b.statusOf);
    assert TestAndSpec(env, package, rubyver, we, b) == (Next, SpecWorld(verbose, env, package, w, b));
  }

  /** The plan of `SpecWorld` is the build, the announced test run and the
      specification, and it has every file the package started with and the
      specification. */
  lemma SpecWorldShape(verbose: bool, env: Env, package: string, w: World, b: Build)
    requires RubyVersionFor(package) in SUPPORTED_VERSIONS
    requires "ext" in w.dirs ==> b.statusOf(BuildExtension(BinaryText(RubyVersionFor(package)), package)) == 0
    requires !NoCheck(env) && PathExists(w, TEST_FILES_YAML) && PathExists(w, METADATA)
    requires SpecInstallable(w, package, RubyVersionFor(package), b.gemspec)
    requires !Failed(Some(b.statusOf(TestRunner(BinaryText(RubyVersionFor(package))))))
    ensures var rubyver := RubyVersionFor(package);
      var ws := SpecWorld(verbose, env, package, w, b);
      && ws.log == w.log + BuildEvents(verbose, package, w)
           + [Out(Puts(Announcement(w, rubyver))), Run(TestRunner(BinaryText(rubyver))),
              Write(SpecPath(package, rubyver, b.gemspec))]
      && ws.files == w.files[SpecPath(package, rubyver, b.gemspec) := Puts(b.gemspec.toRuby)]
      && ws.dirs == w.dirs + Ancestors(SpecDir(package, rubyver))
  {
    var rubyver := RubyVersionFor(package);
    var we := ExtensionStep(verbose, package, rubyver, w, b.statusOf).1;
    BuildSucceeds(verbose, package, w, b.statusOf);
    TestRunnerPasses(env, rubyver, we, b.statusOf);
    var wt := RunTestsSpec(env, rubyver, we, b.statusOf).1;
    assert Announcement(we, rubyver) == Announcement(w, rubyver);
    SpecAfterTests(w, wt, package, rubyver, b.gemspec, w.log + BuildEvents(verbose, package, w),
                   Out(Puts(Announcement(w, rubyver))), Run(TestRunner(BinaryText(rubyver))));
  }

  /** `install_spec` after two more events on a world with the same files
      and directories. */
  lemma SpecAfterTests(w: World, wt: World, package: string, rubyver: string, spec: GemSpec,
                       before: seq<Event>, e0: Event, e1: Event)
    requires wt.files == w.files && wt.dirs == w.dirs && wt.log == before + [e0, e1]
    requires PathExists(w, METADATA) && SpecInstallable(w, package, rubyver, spec)
    ensures var path := SpecPath(package, rubyver, spec);
      var r := InstallSpec(wt, package, rubyver, spec).1;
      && r.log == before + [e0, e1, Write(path)]
      && r.files == w.files[path := Puts(spec.toRuby)]
      && r.dirs == w.dirs + Ancestors(SpecDir(package, rubyver))
  {
    SpecInstallableFrame(w, wt, package, rubyver, spec);
    SpecInstalled(wt, package, rubyver, spec);
    SeqAssoc(before, [e0, e1], [Write(SpecPath(package, rubyver, spec))]);
  }

  lemma SpecInstallableFrame(w: World, w': World, package: string, rubyver: string, spec: GemSpec)
    requires w'.files == w.files && w'.dirs == w.dirs
    requires PathExists(w, METADATA) && SpecInstallable(w, package, rubyver, spec)
    ensures PathExists(w', METADATA) && SpecInstallable(w', package, rubyver, spec)
  {
  }

  /** `install_spec` when the gem has metadata: the specification is written
      and its directory created. */
  lemma SpecInstalled(w: World, package: string, rubyver: string, spec: GemSpec)
    requires PathExists(w, METADATA) && SpecInstallable(w, package, rubyver, spec)
    ensures var path := SpecPath(package, rubyver, spec);
      var r := InstallSpec(w, package, rubyver, spec);
      && r.0 == Next
      && r.1.log == w.log + [Write(path)]
      && r.1.files == w.files[path := Puts(spec.toRuby)]
      && r.1.dirs == w.dirs + Ancestors(SpecDir(package, rubyver))
  {
  }

  /** The order of one variant package's step when everything succeeds:
      with `debian/ruby-test-files.yaml` and `metadata.yml` present and no
      `nocheck`, the extension build if any, then the test runner, then the
      gem specification, then the shebang rewrites of the package's
      programs, one after the other, and nothing else. */
  lemma VariantStepOrder(verbose: bool, env: Env, count: nat, package: string, w: World, b: Build)
    requires RubyVersionFor(package) in SUPPORTED_VERSIONS
    requires "ext" in w.dirs ==> b.statusOf(BuildExtension(BinaryText(RubyVersionFor(package)), package)) == 0
    requires !NoCheck(env) && PathExists(w, TEST_FILES_YAML) && PathExists(w, METADATA)
    requires SpecInstallable(w, package, RubyVersionFor(package), b.gemspec)
    requires !Failed(Some(b.statusOf(TestRunner(BinaryText(RubyVersionFor(package))))))
    requires Rewritable(w, b.programs(package))
    requires forall p :: p in b.programs(package) ==> TmpFile(p) !in Ancestors(SpecDir(package, RubyVersionFor(package)))
    ensures var r := PackageStep(verbose, env, count, package, w, b);
      var rubyver := RubyVersionFor(package);
      && r.0 == Next
      && r.1.log == w.log + BuildEvents(verbose, package, w)
           + [Out(Puts(Announcement(w, rubyver))), Run(TestRunner(BinaryText(rubyver))),
              Write(SpecPath(package, rubyver, b.gemspec))]
           + ShebangEvents(verbose, b.programs(package))
  {
    var programs := b.programs(package);
    var ws := SpecWorld(verbose, env, package, w, b);
    VariantReachesShebangs(verbose, env, count, package, w, b);
    SpecWorldShape(verbose, env, package, w, b);
    assert Rewritable(ws, programs);
    UpdateShebangsLog(verbose, package, ws, programs);
  }

  /** The commands `after` extend `before` by at least one, and the last of
      them is `dh_listpackages`. */
  predicate AuditLast(before: seq<Command>, after: seq<Command>) {
    |before| < |after| && after[|after| - 1] == ListPackages
  }

  lemma ListingCommands(verbose: bool, w: World, b: Build)
    ensures Commands(RunCommand(if verbose then Say(w, ENTERING) else w, ListPackages, b.statusOf).log) == Commands(w.log) + [ListPackages]
  {
    var w0 := if verbose then Say(w, ENTERING) else w;
    if verbose {
      AddsNoRun(w, w0, [Out(Puts(ENTERING))], "", false);
    }
    AddsRun(w0, ListPackages, b.statusOf, "", false);
  }

  lemma AuditLastUnlessNoCheck(verbose: bool, env: Env, packages: seq<string>, w: World, b: Build)
    requires packages != []
    ensures var r := InstallPackages(verbose, env, packages, w, b);
      !NoCheck(env) && r.0.Next? ==> AuditLast(Commands(w.log), Commands(r.1.log))
  {
    if !NoCheck(env) {
      InstallPackagesAuditLast(verbose, env, packages, w, b);
    }
  }

  lemma InstallPackagesAuditLast(verbose: bool, env: Env, packages: seq<string>, w: World, b: Build)
    requires packages != [] && !NoCheck(env)
    ensures var r := InstallPackages(verbose, env, packages, w, b);
      r.0.Next? ==> AuditLast(Commands(w.log), Commands(r.1.log))
  {
    var prefix := DestdirFor(packages[0]);
    var (f1, w1) := InstallTree(prefix, "bin", b.binWalk, BINDIR, 755, w, b.statusOf);
    var (f2, w2) := InstallTree(prefix, "lib", b.libWalk, LIBDIR, 644, w1, b.statusOf);
    if f1.Next? && f2.Next? {
      InstallTreeAdds(prefix, "bin", b.binWalk, BINDIR, 755, w, b.statusOf, false);
      InstallTreeAdds(prefix, "lib", b.libWalk, LIBDIR, 644, w1, b.statusOf, false);
      assert InstallPackages(verbose, env, packages, w, b) == PackagesThenAudit(verbose, env, packages, w2, b);
      var (fp, wp) := EachPackage(verbose, env, |packages|, packages, w2, b);
      if fp.Next? {
        EachPackageAdds(verbose, env, |packages|, packages, w2, b, "");
        AuditCommands(env, wp, b.listing, b.libraries, b.overrides, b.statusOf);
      }
    }
  }

  /** One more package of the loop, after packages that went on. */
  lemma EachPackageNext(verbose: bool, env: Env, packages: seq<string>, w: World, b: Build, i: nat)
    requires i < |packages|
    requires EachPackage(verbose, env, |packages|, packages[..i], w, b).0.Next?
    ensures EachPackage(verbose, env, |packages|, packages[..i + 1], w, b)
      == PackageStep(verbose, env, |packages|, packages[i], EachPackage(verbose, env, |packages|, packages[..i], w, b).1, b)
  {
    assert packages[..i + 1][..i] == packages[..i];
  }

  /** When every package went on, the audit follows. */
  lemma AuditAfterEachPackage(verbose: bool, env: Env, packages: seq<string>, w: World, b: Build)
    requires EachPackage(verbose, env, |packages|, packages, w, b).0.Next?
    ensures PackagesThenAudit(verbose, env, packages, w, b)
      == CheckRubygemsSpec(env, EachPackage(verbose, env, |packages|, packages, w, b).1, b.listing, b.libraries, b.overrides, b.statusOf)
  {
  }

  /** The state of one `dh_ruby` run: `verbose` (an accessor) and the
      `@prefix` that `install` sets from the first package. */
  class DhRuby {
    var verbose: bool
    var prefix: Option<string>

    constructor ()
      ensures verbose && prefix.None?
    {
      verbose := true;
      prefix := None;
    }

    /** `install_files(src, list, dest, mode)`. */
    method InstallFiles(src: string, list: seq<string>, dest: string, mode: nat, w: World, statusOf: Command -> nat)
      returns (flow: Flow, w': World)
      ensures (flow, w') == InstallFilesSpec(prefix, src, list, dest, mode, w, statusOf)
    {
      if prefix.None? {
        return Raise(NIL_PREFIX), w;
      }
      var p := prefix.value;
      var run := RunChecked(w, InstallDir(p + "/" + dest), statusOf);
      flow, w' := run.0, run.1;
      if !flow.Next? {
        return;
      }
      ghost var w0 := w';
      for i := 0 to |list|
        invariant (flow, w') == InstallEach(p, src, list[..i], dest, mode, w0, statusOf) && flow.Next?
        invariant w'.dirs == w.dirs
      {
        assert list[..i + 1][..i] == list[..i];
        var fname := list[i];
        if src + "/" + fname in w'.dirs {
          var run := RunChecked(w', InstallDir(p + "/" + dest + "/" + fname), statusOf);
          flow, w' := run.0, run.1;
        } else {
          var run := RunChecked(w', InstallFile(mode, src + "/" + fname, p + "/" + dest + "/" + fname), statusOf);
          flow, w' := run.0, run.1;
        }
        if !flow.Next? {
          InstallEachStops(p, src, list, dest, mode, w0, statusOf, i + 1);
          return;
        }
      }
      assert list[..|list|] == list;
    }

    /** `install_files(src, find_files(src), dest, mode) if File::directory?(src)`. */
    method InstallDirectory(src: string, walk: seq<string>, dest: string, mode: nat, w: World, statusOf: Command -> nat)
      returns (flow: Flow, w': World)
      requires prefix.Some?
      ensures (flow, w') == InstallTree(prefix.value, src, walk, dest, mode, w, statusOf)
    {
      if src !in w.dirs {
        return Next, w;
      }
      var files, warnings := FindFiles(w, src, walk, None);
      flow, w' := InstallFiles(src, files, dest, mode, w.(log := w.log + warnings), statusOf);
    }

    /** The body of `packages.each` for one package. */
    method ProcessPackage(env: Env, count: nat, package: string, w: World, b: Build) returns (flow: Flow, w': World)
      ensures (flow, w') == PackageStep(verbose, env, count, package, w, b)
    {
      var rubyver := RubyVersionFor(package);
      flow, w' := Next, w;
      if rubyver == "ruby" {
        if count == 1 {
          flow, w' := EachSupportedVersion(env, package, w, b);
        }
      } else {
        if "ext" in w.dirs {
          if !(rubyver in SUPPORTED_VERSIONS) {
            w' := Say(w', "Unknown Ruby version: " + rubyver);
            return Exit(1), w';
          }
          if verbose {
            w' := Say(w', "Building extension for " + rubyver + " ...");
          }
          var run := RunChecked(w', BuildExtension(BinaryText(rubyver), package), b.statusOf);
          flow, w' := run.0, run.1;
          if !flow.Next? {
            return;
          }
        }
        assert (Next, w') == ExtensionStep(verbose, package, rubyver, w, b.statusOf);
        flow, w' := RunTestsAndInstallSpec(env, package, rubyver, w', b);
      }
      if flow.Next? {
        flow, w' := UpdateShebangs(verbose, package, w', b.programs(package));
      }
    }

    /** The packages loop and the closing audit. */
    method ProcessPackages(env: Env, packages: seq<string>, w: World, b: Build) returns (flow: Flow, w': World)
      ensures (flow, w') == PackagesThenAudit(verbose, env, packages, w, b)
    {
      flow, w' := Next, w;
      for i := 0 to |packages|
        invariant (flow, w') == EachPackage(verbose, env, |packages|, packages[..i], w, b) && flow.Next?
      {
        EachPackageNext(verbose, env, packages, w, b, i);
        flow, w' := ProcessPackage(env, |packages|, packages[i], w', b);
        if !flow.Next? {
          EachPackageStops(verbose, env, |packages|, packages, w, b, i + 1);
          return;
        }
      }
      assert packages[..|packages|] == packages;
      AuditAfterEachPackage(verbose, env, packages, w, b);
      flow, w' := CheckRubygems(env, w', b.listing, b.libraries, b.overrides, b.statusOf);
    }

    /** `install(argv)`. */
    method Install(env: Env, w: World, b: Build) returns (flow: Flow, w': World)
      modifies this
      ensures verbose == old(verbose)
      ensures Words(b.listing) != [] ==> prefix == Some(DestdirFor(Words(b.listing)[0]))
      ensures Words(b.listing) == [] ==> prefix == old(prefix)
      ensures (flow, w') == InstallPlan(verbose, env, w, b)
    {
      w' := w;
      if verbose {
        w' := Say(w', ENTERING);
      }
      w' := RunCommand(w', ListPackages, b.statusOf);
      var packages := Words(b.listing);
      if |packages| == 0 {
        return Raise(NO_PACKAGE), w';
      }
      prefix := Some(DestdirFor(packages[0]));
      flow, w' := InstallDirectory("bin", b.binWalk, BINDIR, 755, w', b.statusOf);
      if flow.Next? {
        flow, w' := InstallDirectory("lib", b.libWalk, LIBDIR, 644, w', b.statusOf);
        if flow.Next? {
          flow, w' := ProcessPackages(env, packages, w', b);
        }
      }
    }
  }
}
