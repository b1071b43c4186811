# gem2deb core in Dafny

This project models the two classes at the heart of gem2deb, the tool set
that turns a Ruby gem into a Debian source package:

- `Gem2Deb::DhRuby` (`lib/gem2deb/dhruby.rb`) is the debhelper build system
  behind `dh_ruby --install`. It installs `bin/` and `lib/` into the first
  binary package. Then, for each package, it builds native extensions per
  interpreter, runs the test suite under each interpreter and writes the gem
  specification. It rewrites the shebang lines of the installed programs, and
  it ends with an audit for `require 'rubygems'` in installed libraries. A
  failed test or audit is handled by the failure policy: ignore it, ask on a
  terminal, or exit with status 1.
- `Gem2Deb::DhMakeRuby` (`lib/gem2deb/dh_make_ruby.rb`) is the generator
  behind `dh-make-ruby`. It takes the gem's name and version from the
  tarball's name and derives the source package name and the `.orig`
  tarball name. It declares the binary packages and their architectures,
  looks up the uploader in the environment, trying to follow `dch`'s logic
  (see Findings), and loads the
  `debian/` templates kept after its own `__END__` line. It formats the long
  description of `debian/control` and writes the test-suite declaration and
  the FIXME lists for docs, examples, data and manpages. It also builds the
  `dpkg-buildpackage` command line.

## How the host is modelled

- The build host is a value, `Host.World`. It holds:
  - the regular files and their contents;
  - the directories;
  - the unread standard input;
  - an ordered log of events (standard output, started commands, writes,
    renames, unlinks);
  - `$?`.
- External commands are not run. They are logged, and an oracle
  `statusOf: Command -> nat` gives each one's raw wait status.
- A Ruby method that only computes a value is a Dafny function. A method
  that works step by step is a Dafny method with loops, proved equal to a
  specification function on the world (as in `Install.DhRuby.Install`,
  `FileFilter.FindFiles` and `Templates.Load`). The properties the code
  promises are proved as lemmas about the specification functions.
- Objects whose fields the code assigns are classes: `DhRuby` (`verbose`,
  `@prefix`) and `DhMakeRuby` (the names and the binary package list).
  `Package` and `Template` are values kept in sequences that the methods
  reassign.
- A step ends as `Flow.Next`, `Flow.Exit(code)` (`exit`) or `Flow.Raise(e)`
  (an exception).

## Model

| member | source | states |
|---|---|---|
| Install.DhRuby.constructor | lib/gem2deb/dhruby.rb:59-64 | a new `DhRuby` is verbose and has no prefix yet |
| Install.DhRuby.Install | lib/gem2deb/dhruby.rb:94-137 | `install` logs exactly the plan `InstallPlan` describes; `@prefix` becomes the destination directory of the first listed package; `verbose` is unchanged |
| Install.DhRuby.InstallFiles | lib/gem2deb/dhruby.rb:252-261 | `install_files` raises while `@prefix` is nil; otherwise it starts `install -d` for the destination, then one command per entry (`install -d` for a directory, `install -m<mode>` for a file) |
| Install.DhRuby.InstallDirectory | lib/gem2deb/dhruby.rb:103-104 | when `bin`/`lib` is a directory, its filtered files are installed under the prefix; otherwise nothing happens |
| Install.DhRuby.ProcessPackage | lib/gem2deb/dhruby.rb:106-131 | one iteration of `packages.each`: a pure-Ruby package runs tests and the spec for every supported interpreter only when it is the only package; a variant builds its extension, runs its tests and writes its spec; the shebangs are then rewritten |
| Install.DhRuby.ProcessPackages | lib/gem2deb/dhruby.rb:106-136 | the package loop stops at the first exit or exception; the audit runs after it |
| Install.EachSupportedVersion | lib/gem2deb/dhruby.rb:110-113 | tests and spec for `ruby1.8` and then `ruby1.9.1` |
| Install.EachVersionLoop | lib/gem2deb/dhruby.rb:110-113 | the loop over the interpreters, stopping at the first exit or exception |
| Install.RunTestsAndInstallSpec | lib/gem2deb/dhruby.rb:125-126 | `run_tests` then `install_spec`, the spec only when the tests did not end the run; a raise from `install_spec` ends the step |
| Install.EachVersionStops | lib/gem2deb/dhruby.rb:110-113 | once one interpreter's step exits or raises, the later interpreters change nothing |
| Install.EachPackageStops | lib/gem2deb/dhruby.rb:106-131 | once one package's step exits or raises, the later packages change nothing |
| Install.InstallPlanPromise | lib/gem2deb/dhruby.rb:94-137 | the first command is `dh_listpackages`; every later command is allowed: nothing outside the first package's tree is installed, and no test is started under `nocheck` |
| Install.NoPackagesRaises | lib/gem2deb/dhruby.rb:97-101 | an empty package list raises in `destdir_for(nil)`, after `dh_listpackages` ran, with the files untouched |
| Install.InstallPackagesAdds | lib/gem2deb/dhruby.rb:101-136 | everything after the package list only adds allowed commands, keeping the earlier ones |
| Install.PackagesThenAuditAdds | lib/gem2deb/dhruby.rb:106-136 | the package loop and the audit add only allowed commands |
| Install.EachPackageAdds | lib/gem2deb/dhruby.rb:106-131 | the package loop adds only allowed commands |
| Install.PackageStepAdds | lib/gem2deb/dhruby.rb:107-130 | one package step adds only allowed commands |
| Install.ExtensionStepAdds | lib/gem2deb/dhruby.rb:117-124 | the extension build adds only allowed commands |
| Install.EachVersionAdds | lib/gem2deb/dhruby.rb:110-113 | the interpreter loop adds only allowed commands |
| Install.TestAndSpecAdds | lib/gem2deb/dhruby.rb:125-126 | tests and spec add only allowed commands, and no test under `nocheck` |
| Install.RunTestsAdds | lib/gem2deb/dhruby.rb:195-217 | `run_tests` adds at most the chosen test command, and none under `nocheck` |
| Install.InstallSpecAdds | lib/gem2deb/dhruby.rb:305-315 | `install_spec` starts no command |
| Install.InstallTreeAdds | lib/gem2deb/dhruby.rb:103-104 | installing a tree goes on, or raises `CommandFailed` when an `install` command fails; it leaves the files alone and installs only under the prefix |
| Install.InstallEachAdds | lib/gem2deb/dhruby.rb:254-260 | every per-entry command installs under `prefix/`; the loop goes on or raises `CommandFailed` |
| Install.InstallEachStops | lib/gem2deb/dhruby.rb:254-260 | once one `install` command fails, the later entries change nothing |
| Install.FailedBuildIsFatal | lib/gem2deb/dhruby.rb:122-125 | a failed extension build raises `CommandFailed`: the build is the last event of the package step, no test runs, no spec is written and no file changes |
| Install.BuildSucceeds | lib/gem2deb/dhruby.rb:117-124 | a supported interpreter whose build (if any) passes goes on, logging the optional announcement and the build, and changing no file |
| Install.TestRunnerPasses | lib/gem2deb/dhruby.rb:200-216 | with `debian/ruby-test-files.yaml` and no `nocheck`, a passing runner is announced, started, and the build goes on without the failure policy |
| Install.VariantReachesShebangs | lib/gem2deb/dhruby.rb:116-129 | after a passing build and test run, and with nothing blocking the spec write when `metadata.yml` exists, a variant package goes on to rewrite its shebangs from the world its build, tests and spec installation leave |
| Install.SpecWorldShape | lib/gem2deb/dhruby.rb:116-129 | when no regular file blocks the spec directory and the spec path is not a directory, in that world the build, the announced test run and the spec write are logged, in that order, the spec file is written and its directories exist |
| Install.VariantStepOrder | lib/gem2deb/dhruby.rb:116-129 | a variant package step whose build, tests and spec installation succeed logs, in order, the build, the test announcement and runner, the spec write, then per program the temporary file written and renamed over it, and nothing else |
| Install.InstallPlan | lib/gem2deb/dhruby.rb:94-137 | without `nocheck`, a run that ends normally starts `dh_listpackages` first and the audit's `dh_listpackages` last |
| Install.InstallPackagesAuditLast | lib/gem2deb/dhruby.rb:103-136 | once the packages are known and tests are on, a run that ends normally has the audit's `dh_listpackages` as its last new command |
| Install.AfterBuildAdds | lib/gem2deb/dhruby.rb:125-130 | after the extension build, the tests, the spec and the shebang rewrite add only allowed commands |
| Install.TestsThenShebangsAdds | lib/gem2deb/dhruby.rb:125-130 | the tests and spec, then the shebang rewrite when they went on, add only allowed commands |
| Install.BuildStarts | lib/gem2deb/dhruby.rb:122-123 | the extension build starts exactly the extension builder under the interpreter's binary |
| Install.ExtensionBuiltFirst | lib/gem2deb/dhruby.rb:117-126 | with `ext/` present and a supported interpreter, the first command of the package step is the extension build for that interpreter |
| Install.UnknownVariantExits | lib/gem2deb/dhruby.rb:117-121 | with `ext/` present, a variant for an unknown interpreter prints `Unknown Ruby version: …` and exits with status 1, starting nothing |
| Install.PureAmongSeveralOnlyShebangs | lib/gem2deb/dhruby.rb:108-114 | a pure-Ruby package among several runs no tests and writes no spec; only its shebangs are rewritten |
| Install.InstallSpecWrites | lib/gem2deb/dhruby.rb:305-315 | without `metadata.yml` nothing changes; with it, `mkdir_p` raises `EEXIST` with the world unchanged when a directory it makes sure of is a regular file, `File.open` raises `EISDIR` with no file written when the spec path is a directory, and otherwise the spec is written (ending in a newline) at its path inside the package tree, its directories exist, and no other file changes |
| Install.SpecPathShape | lib/gem2deb/dhruby.rb:309-311 | the spec path is `debian/<package>/usr/lib/gems/<version>/specifications/<spec_name>` |
| Install.SpecPathsDistinct | lib/gem2deb/dhruby.rb:309-311 | different packages (names without `/`) or interpreters never write the same spec path |
| Install.AddsTrans | lib/gem2deb/dhruby.rb:94-137 | adding allowed commands composes across steps |
| Install.AddsRun | lib/gem2deb/dhruby.rb:253 | starting an allowed command adds exactly that command |
| TestRuns.RunTests | lib/gem2deb/dhruby.rb:195-217 | `run_tests` does what `RunTestsSpec` describes |
| TestRuns.RunStrategy | lib/gem2deb/dhruby.rb:200-213 | the announcement and the chosen test command, as `TestsRun` describes |
| TestRuns.NoCheckSkipsTests | lib/gem2deb/dhruby.rb:196-199 | under `nocheck` no command runs, `$?` and the input are untouched, and the build goes on |
| TestRuns.StrategyPrecedence | lib/gem2deb/dhruby.rb:200-213 | the test runner is started whenever `debian/ruby-test-files.yaml` exists; `debian/ruby-tests.rb` only without it; nothing when neither exists; `$?` ends as the suite's status, or stale |
| TestRuns.TestsRunCommands | lib/gem2deb/dhruby.rb:200-213 | the strategy adds exactly its command, if any, and sets `$?` to that command's status |
| TestRuns.TestsRunShape | lib/gem2deb/dhruby.rb:200-213 | the strategy leaves the input alone and logs two events with a command, one without |
| TestRuns.FailureHandled | lib/gem2deb/dhruby.rb:214-216 | the run exits exactly when the status's exit code is non-zero and the failure is neither ignored nor asked about; a passing run goes on; a refused failure's last line is the `ERROR:` message |
| FailurePolicy.HandleTestFailure | lib/gem2deb/dhruby.rb:168-193 | the method does what `HandleTestFailureSpec` describes |
| FailurePolicy.ExitIff | lib/gem2deb/dhruby.rb:168-193 | the handler exits, always with status 1, exactly when `all` and the test's name are not in `DH_RUBY_IGNORE_TESTS` and the three streams are not all terminals |
| FailurePolicy.IgnoredContinues | lib/gem2deb/dhruby.rb:169-177 | an ignored failure prints one warning and goes on, changing nothing else |
| FailurePolicy.InteractiveAsks | lib/gem2deb/dhruby.rb:178-188 | on a terminal, the prompt consumes input up to and including the first `y`/`n` in either case and goes on; at the end of input it raises |
| FailurePolicy.AskStopsAtFirstAnswer | lib/gem2deb/dhruby.rb:181-188 | the prompt is repeated once per character read, and only prompt text is written |
| FailurePolicy.FirstAnswer | lib/gem2deb/dhruby.rb:185-188 | the position of the first `y`/`n` on the input, or none when there is none |
| FailurePolicy.HandlerRunsNothing | lib/gem2deb/dhruby.rb:168-193 | the handler starts no command and only appends to the log |
| FailurePolicy.SayRunsNothing | lib/gem2deb/dhruby.rb:171 | `puts` starts no command and only appends to the log |
| Audit.CheckRubygems | lib/gem2deb/dhruby.rb:141-166 | `check_rubygems` does what `CheckRubygemsSpec` describes |
| Audit.ScanPackages | lib/gem2deb/dhruby.rb:149-161 | the scan over every package's files gives the reports `ScanFiles` describes; `found` is set exactly when something was reported |
| Audit.ScanFileList | lib/gem2deb/dhruby.rb:151-160 | scanning more files extends the reports in order; a missing file raises |
| Audit.ReportLines | lib/gem2deb/dhruby.rb:152-159 | one `<file>: <line>` report per matching line, none for an overridden file |
| Audit.AuditSkipped | lib/gem2deb/dhruby.rb:142 | under `nocheck` the audit does nothing |
| Audit.AuditFailsIff | lib/gem2deb/dhruby.rb:141-166 | the audit exits exactly when some installed library has a matching line outside the overrides and the failure policy refuses it; with no offender it goes on and reads no input |
| Audit.AuditRaisesOnMissing | lib/gem2deb/dhruby.rb:150-152 | when a globbed path is not a regular file, the audit raises what `IO::readlines` raises on the first such path: `EISDIR` for a directory, `ENOENT` for a missing file |
| Audit.AuditCommands | lib/gem2deb/dhruby.rb:141-166 | the audit starts only `dh_listpackages`, and none under `nocheck`; it changes no file |
| Audit.SummaryThenHandler | lib/gem2deb/dhruby.rb:162-165 | the summary and the handler start no command and change no file |
| Audit.ScanFindsOffenders | lib/gem2deb/dhruby.rb:149-161 | when every file is readable, something is reported exactly when some file in the list has a matching line and is not overridden |
| Audit.ScanRaisesOnMissing | lib/gem2deb/dhruby.rb:151-152 | a path in the list that is not a regular file makes the scan raise, `EISDIR` or `ENOENT` after the first such path |
| Host.ReadError | lib/gem2deb/dhruby.rb:151 | reading a path that is not a regular file raises `EISDIR` exactly when it is a directory, `ENOENT` otherwise |
| Audit.ScanStopsAtError | lib/gem2deb/dhruby.rb:152 | once reading raised, the later files change nothing |
| Audit.ScanStep | lib/gem2deb/dhruby.rb:151-160 | one more file either raises or adds its reports |
| Audit.LineReportsNonEmpty | lib/gem2deb/dhruby.rb:153-159 | a file is reported exactly when it is not overridden and one of its lines matches |
| Audit.ScanOutputOnly | lib/gem2deb/dhruby.rb:156 | the scan only prints |
| Audit.RequiresRubygemsExamples | lib/gem2deb/dhruby.rb:153 | `require 'rubygems'` matches `/require.*rubygems/`; a newline between the words stops the match |
| Audit.GlobbedAppend | lib/gem2deb/dhruby.rb:149-151 | globbing the packages one after another concatenates their files |
| Audit.PackageLines | lib/gem2deb/dhruby.rb:149-150 | one chomped name per line of `dh_listpackages` |
| FileFilter.FindFiles | lib/gem2deb/dhruby.rb:226-250 | `find_files` returns and prints what `FindFilesSpec` describes |
| FileFilter.FindFilesPromise | lib/gem2deb/dhruby.rb:226-250 | the result keeps the walk's order without `.`; kept and warned entries make up the walk; no kept entry has a junk or hook basename; an entry is dropped for its path only when it is a regular file the accept pattern does not match |
| FileFilter.CollectWalk | lib/gem2deb/dhruby.rb:228-232 | each walk entry with its leading `./` removed, in walk order |
| FileFilter.FilterEntries | lib/gem2deb/dhruby.rb:234-245 | the entries that pass the junk, hook and accept tests, in order |
| FileFilter.Rejects | lib/gem2deb/dhruby.rb:236-243 | an entry is skipped exactly when it is not retained |
| FileFilter.WarnExcluded | lib/gem2deb/dhruby.rb:246-248 | one `WARNING: excluded file:` line per excluded entry |
| FileFilter.HookFilesAre | lib/gem2deb/dhruby.rb:220-222 | `HOOK_FILES` has 16 names, each a pre/post prefix, a stage and an optional `.rb` |
| FileFilter.HookFilesIndex | lib/gem2deb/dhruby.rb:220-222 | entry `k` of `HOOK_FILES` is format `k/4` applied to stage `k%4` |
| FileFilter.DotfilesAndBackupsAreJunk | lib/gem2deb/dhruby.rb:223-224 | every dotfile and every name ending in `~` or `$` is junk |
| FileFilter.DropDotSlashOfWalkEntry | lib/gem2deb/dhruby.rb:230 | `gsub(/^\.\//, '')` on `./<rel>` gives `<rel>` |
| FileFilter.KeptDroppedPartition | lib/gem2deb/dhruby.rb:234-246 | kept and dropped entries form the whole list, as a multiset |
| FileFilter.KeptIsSubsequence | lib/gem2deb/dhruby.rb:234-245 | the kept entries keep their order |
| FileFilter.KeptMembership | lib/gem2deb/dhruby.rb:234-245 | an entry is kept exactly when it passes the test |
| FileFilter.DifferenceIsDropped | lib/gem2deb/dhruby.rb:246 | `files - files2` is exactly the dropped entries, in order |
| FileFilter.DifferenceByMembership | lib/gem2deb/dhruby.rb:246 | removing every entry that passes the test leaves the dropped ones |
| FileFilter.WarningsAreOutput | lib/gem2deb/dhruby.rb:247 | the warnings only print |
| Shebang.UpdateShebangs | lib/gem2deb/dhruby.rb:275-289 | `update_shebangs` does what `UpdateShebangsSpec` describes |
| Shebang.UpdateShebangsRewritesAll | lib/gem2deb/dhruby.rb:275-289 | when every program is a readable file and no `.tmp` clash exists, every program ends rewritten from its original content, every other file is unchanged, no temporary file is left, and the run goes on |
| Shebang.UpdateShebangsRunsNothing | lib/gem2deb/dhruby.rb:275-289 | rewriting shebangs starts no command and leaves `$?` and the input alone |
| Shebang.UpdateStops | lib/gem2deb/dhruby.rb:278-288 | once one rewrite raised, the later programs change nothing |
| Shebang.ShebangBinary | lib/gem2deb/dhruby.rb:276-277 | the package's interpreter binary when it is supported, `/usr/bin/ruby1.8` otherwise |
| Shebang.RewriteShebang | lib/gem2deb/dhruby.rb:280-287 | the rewritten file starts with the new shebang line |
| Shebang.RewriteShape | lib/gem2deb/dhruby.rb:280-287 | the new first line is `#!<binary>`, followed by the kept old first line and the rest of the file |
| Shebang.DropsOldShebangIff | lib/gem2deb/dhruby.rb:283-285 | the old first line is dropped exactly when it contains `#!` |
| Shebang.RewriteIdempotent | lib/gem2deb/dhruby.rb:280-287 | rewriting twice gives the same content as rewriting once |
| Shebang.CorrectShebangUnchanged | lib/gem2deb/dhruby.rb:280-287 | a file that already starts with the right shebang is unchanged |
| Shebang.FirstLineAndRemainder | lib/gem2deb/dhruby.rb:281-286 | `gets` and `read` together give the whole file |
| Shebang.ShebangLineShape | lib/gem2deb/dhruby.rb:282 | the shebang line is `#!<binary>` and one newline |
| Shebang.AtomicRewrite | lib/gem2deb/dhruby.rb:291-303 | `atomic_rewrite` does what `AtomicRewriteSpec` describes |
| Shebang.AtomicRewriteSucceeds | lib/gem2deb/dhruby.rb:291-303 | a successful block replaces the file's content and leaves no temporary file |
| Shebang.AtomicRewriteFails | lib/gem2deb/dhruby.rb:293-302 | a missing file or a failing block raises, leaves the file as it was, and removes the temporary file |
| Shebang.AtomicRewriteFrame | lib/gem2deb/dhruby.rb:291-303 | no other file or directory changes |
| Shebang.AtomicRewriteRunsNothing | lib/gem2deb/dhruby.rb:291-303 | the rewrite starts no command |
| Shebang.UpdateShebangsLog | lib/gem2deb/dhruby.rb:275-289 | over rewritable programs the loop goes on and logs, per program in order, the optional message, then the temporary file written and renamed over the program |
| Shebang.NextProgramReady | lib/gem2deb/dhruby.rb:278-279 | after the earlier rewrites, the next program is still a file and the directories are unchanged |
| Shebang.ShebangStep | lib/gem2deb/dhruby.rb:279-287 | one program is rewritten in place and its temporary file is gone |
| Shebang.TmpFileShape | lib/gem2deb/dhruby.rb:292 | the temporary file is the path and `.tmp` |
| Variants.DestdirFor | lib/gem2deb/dhruby.rb:271-273 | the destination directory is `debian/` followed by the package name |
| Variants.RubyVersionFor | lib/gem2deb/dhruby.rb:263-269 | the leading `ruby…` run up to the first `-`, or `ruby` for a name not starting with `ruby` |
| Variants.VersionOfPrefixed | lib/gem2deb/dhruby.rb:263-269 | `<version>-<rest>` gives back `<version>` |
| Variants.VariantExamples | lib/gem2deb/dhruby.rb:263-269 | `ruby-foo` and `foo` are pure Ruby; `ruby1.8-foo` and `ruby1.9.1-foo` are variants |
| Variants.BinaryFor | lib/gem2deb/dhruby.rb:44-49 | a binary exists exactly for the supported interpreters, `/usr/bin/<version>` |
| Variants.VersionNumber | lib/gem2deb/dhruby.rb:307 | `sub(/^ruby/, '')` removes a leading `ruby` and nothing else |
| Variants.VersionNumberOfSupported | lib/gem2deb/dhruby.rb:307 | a supported interpreter has a non-empty version number |
| Host.Commands | lib/gem2deb/dhruby.rb:123 | the commands of a log are the ones it started, in order |
| Host.RunCommand | lib/gem2deb/dhruby.rb:205 | a started command is appended to the plan and `$?` becomes its status; files, directories and input are unchanged |
| Host.RunChecked | lib/gem2deb/dhruby.rb:123 | `run` logs the command as `RunCommand` does and goes on exactly when it exits with status 0, raising `CommandFailed` otherwise |
| Host.CommandsAppend | lib/gem2deb/dhruby.rb:94-137 | the commands of two logs in sequence are the two command lists in sequence |
| Host.OutputRunsNothing | lib/gem2deb/dhruby.rb:95 | printing starts no command |
| MakeRuby.DhMakeRuby.Create | lib/gem2deb/dh_make_ruby.rb:49-70 | `DhMakeRuby.new` raises `Could not determine gem name and version…` for a tarball of neither form; otherwise the names are those of `ParseTarball`, the base name and directory are the tarball's, and no package is declared yet |
| MakeRuby.DhMakeRuby.constructor | lib/gem2deb/dh_make_ruby.rb:49-70 | the settled names and tarball location are stored, with no package yet |
| MakeRuby.DhMakeRuby.SetSourcePackageName | lib/gem2deb/dh_make_ruby.rb:39-41 | the stored name is the value with `_` replaced by `-`; nothing else changes |
| MakeRuby.DhMakeRuby.DetectNeededBinaryPackages | lib/gem2deb/dh_make_ruby.rb:118-132 | the source package, and with native extensions its `ruby1.8-` and `ruby1.9.1-` variants, are appended; then every package in the list receives all the gem's dependencies in order; the stored source name stays free of `_`, and so do the appended package names |
| MakeRuby.AddDependencies | lib/gem2deb/dh_make_ruby.rb:126-128 | one package receives each dependency in turn, after the ones it had |
| Packages.NativeNames | lib/gem2deb/dh_make_ruby.rb:118-132 | a native `ruby-<x>` gem gets `ruby-<x>`, `ruby1.8-<x>` and `ruby1.9.1-<x>`, in that order, each with the gem's dependencies |
| Packages.PureSinglePackage | lib/gem2deb/dh_make_ruby.rb:118-132 | a gem without native extensions gets one package carrying its dependencies |
| Packages.NativeVariants | lib/gem2deb/dh_make_ruby.rb:245-251 | the three packages of a native gem are `all`, `any`, `any`, and `dh_ruby` reads them as pure, `ruby1.8` and `ruby1.9.1` |
| Packages.VariantsAreArchitectureDependent | lib/gem2deb/dh_make_ruby.rb:245-251 | every package `dh_ruby` builds per interpreter is declared `Architecture: any` |
| Packages.VariantNamed | lib/gem2deb/dh_make_ruby.rb:245-251 | `<version>-<rest>` is `any` and belongs to `<version>` |
| Packages.Architecture | lib/gem2deb/dh_make_ruby.rb:245-251 | the architecture is `all` or `any`; `ruby-*` names and names without `ruby` are `all`; it is `any` exactly when the name contains `ruby` but does not start with `ruby-` |
| Packages.NeededNamesClean | lib/gem2deb/dh_make_ruby.rb:118-123 | a source package name without `_` gives package names without `_` |
| Packages.ArchitectureExamples | lib/gem2deb/dh_make_ruby.rb:245-251 | `ruby-foo` and `foo` are `all`, `ruby1.8-foo` is `any` |
| Packages.WithDependencies | lib/gem2deb/dh_make_ruby.rb:125-129 | the dependency step keeps the number of packages |
| Tarball.NormaliseSourceName | lib/gem2deb/dh_make_ruby.rb:39-41 | `gsub('_', '-')` keeps the length and every other character and leaves no `_` |
| Tarball.NormaliseIdempotent | lib/gem2deb/dh_make_ruby.rb:39-41 | normalising twice is normalising once |
| Tarball.NormaliseKeepsClean | lib/gem2deb/dh_make_ruby.rb:39-41 | a name without `_` is kept as it is |
| Tarball.SplitForm | lib/gem2deb/dh_make_ruby.rb:57-62 | a match splits the name into `$1`, the separator, `$2` (without the separator) and the suffix |
| Tarball.SplitFormNone | lib/gem2deb/dh_make_ruby.rb:57-62 | no match exactly when the name has a line break, does not end in the suffix (each `.` matching any character), or has no separator before it |
| Tarball.SplitFormOf | lib/gem2deb/dh_make_ruby.rb:57-62 | `<n><sep><v><suffix>` with no separator in `<v>` gives back `<n>` and `<v>` |
| Tarball.OrigForm | lib/gem2deb/dh_make_ruby.rb:57-61 | `<n>_<v>.orig.tar.gz` gives gem `<n>`, version `<v>`, the tarball itself as `.orig`, and the given source name or `<n>` |
| Tarball.TarForm | lib/gem2deb/dh_make_ruby.rb:62-66 | `<n>-<v>.tar.gz` gives gem `<n>`, version `<v>`, source `ruby-<n without ruby affixes>` unless one is given, and `.orig` `<source>_<v>.orig.tar.gz` |
| Tarball.OtherNamesRaise | lib/gem2deb/dh_make_ruby.rb:67-69 | any other name raises with the tarball's name in the message |
| Tarball.OrigNameRoundTrip | lib/gem2deb/dh_make_ruby.rb:57-66 | parsing the `.orig` name produced from a `.tar.gz` gives back the same source package, version and `.orig` name |
| Tarball.ParseTarball | lib/gem2deb/dh_make_ruby.rb:57-69 | the name parses exactly when it fits the `.orig.tar.gz` or the `.tar.gz` form; a failure carries the `Could not determine…` message naming the tarball; a parsed source package name never holds `_` |
| Tarball.StripRubyAffixes | lib/gem2deb/dh_make_ruby.rb:65 | removing the affixes never lengthens the name |
| Tarball.StripBothAffixes | lib/gem2deb/dh_make_ruby.rb:65 | `ruby-foo-ruby` loses both affixes |
| Tarball.StripAffixesNoOverlap | lib/gem2deb/dh_make_ruby.rb:65 | `ruby-ruby` loses only its leading affix: the matches do not overlap |
| Tarball.StripNeedsSeparator | lib/gem2deb/dh_make_ruby.rb:65 | `rubyfoo` keeps its `ruby` |
| Tarball.DotsMatchAnything | lib/gem2deb/dh_make_ruby.rb:62-66 | the unescaped dots of the pattern let `foo-1.0_tar_gz` parse as gem `foo` 1.0 |
| Tarball.DotsExampleForms | lib/gem2deb/dh_make_ruby.rb:57-62 | `foo-1.0_tar_gz` misses the `.orig` form and fits the `.tar.gz` one |
| Tarball.ParseTarPieces | lib/gem2deb/dh_make_ruby.rb:62-66 | a name fitting only the second form gives the gem, version and derived source name |
| Tarball.GemDirname | lib/gem2deb/dh_make_ruby.rb:72-74 | the gem name, a dash and the gem version |
| Tarball.SourceDirname | lib/gem2deb/dh_make_ruby.rb:76-78 | the source package name, a dash and the gem version |
| Tarball.SourceDirnameOfTarball | lib/gem2deb/dh_make_ruby.rb:62-66 | for `<n>-<v>.tar.gz`, the source directory is `<src>-<v>` with the derived source package name |
| Tarball.GemDirnameOfTarball | lib/gem2deb/dh_make_ruby.rb:72-74 | for a `.tar.gz` tarball, `gem_dirname` is the tarball name without `.tar.gz` |
| Tarball.Dirname | lib/gem2deb/dh_make_ruby.rb:51 | a bare file name lies in `.` |
| Tarball.DirnameBasename | lib/gem2deb/dh_make_ruby.rb:50-51 | `<dir>/<file>` splits back into `<dir>` and `<file>` |
| Text.Basename | lib/gem2deb/dh_make_ruby.rb:50 | `File.basename`: empty exactly for the empty path, `/` exactly for a path of slashes only, otherwise the slash-free last component of the path with its trailing slashes dropped |
| Text.BasenameIgnoresTrailingSlash | lib/gem2deb/dh_make_ruby.rb:50 | a trailing slash does not change the base name of a non-empty path |
| Tarball.BasenameAfterSlash | lib/gem2deb/dh_make_ruby.rb:50 | the base name of `<dir>/<file>` is `<file>` for a non-empty slash-free `<file>` |
| Tarball.BasenameTrailingSlashExample | lib/gem2deb/dh_make_ruby.rb:50 | `d/foo-1.0.tar.gz/` has the base name `foo-1.0.tar.gz` |
| Description.DescriptionLine | lib/gem2deb/dh_make_ruby.rb:384 | a formatted line is a space and a visible character: ` .` for a blank line, else a space and the stripped line |
| Description.LongDescription | lib/gem2deb/dh_make_ruby.rb:384 | a gem without a long description gets the placeholder; the text always ends with a newline |
| Description.LongDescriptionLines | lib/gem2deb/dh_make_ruby.rb:384 | a non-empty description keeps its number of lines, and output line `k` is input line `k` formatted |
| Description.LongDescriptionShape | lib/gem2deb/dh_make_ruby.rb:384 | every output line starts with one space and a visible character and ends with a newline |
| Description.BlankLineIsDot | lib/gem2deb/dh_make_ruby.rb:384 | a blank or whitespace-only line becomes ` .` |
| Description.StripOfLine | lib/gem2deb/dh_make_ruby.rb:384 | a stripped line holds no newline |
| Description.LinesOfJoined | lib/gem2deb/dh_make_ruby.rb:384 | joining one-line items with newlines and a final newline gives those items back as lines |
| Maintainer.Maintainer | lib/gem2deb/dh_make_ruby.rb:211-232 | `maintainer` returns both keys, keeps a set `DEBFULLNAME`, and is `MaintainerAsWritten` |
| Maintainer.EmailMatch | lib/gem2deb/dh_make_ruby.rb:29 | `EMAIL_REGEXP` matches exactly when some `<` after a whitespace character can open the address, with the string ending in `>`; `$1`, the whitespace, `<`, `$2` and `>` make up the string |
| Maintainer.EmailRoundTrip | lib/gem2deb/dh_make_ruby.rb:29 | `Name <addr>` gives back `Name` and `addr` when the address holds no `<` |
| Maintainer.EmailIsTheDefault | lib/gem2deb/dh_make_ruby.rb:215-229 | without `DEBEMAIL`, the address is `EMAIL`'s, or its `<addr>` part |
| Maintainer.DebEmailSplit | lib/gem2deb/dh_make_ruby.rb:219-222 | a `DEBEMAIL` of the form `Name <addr>` gives both parts |
| Maintainer.DebEmailSplitWithFullName | lib/gem2deb/dh_make_ruby.rb:219-222 | with `DEBFULLNAME` set, only the address is taken from `DEBEMAIL` |
| Maintainer.EmailOverridesDebEmail | lib/gem2deb/dh_make_ruby.rb:225-229 | as written, an `EMAIL` of the form `Name <addr>` replaces both halves of such a `DEBEMAIL` when `DEBFULLNAME` is unset |
| Maintainer.MaintainerCorrected | lib/gem2deb/dh_make_ruby.rb:211-232 | the `dch` logic step by step: it returns both keys and is `MaintainerDch` |
| Maintainer.DchDebEmailDecides | lib/gem2deb/dh_make_ruby.rb:219-229 | under the `dch` logic, a `DEBEMAIL` of the form `Name <addr>` settles the uploader whatever `EMAIL` holds |
| Maintainer.DchKeepsSetVariables | lib/gem2deb/dh_make_ruby.rb:214-229 | under the `dch` logic, a set `DEBFULLNAME` and a set `DEBEMAIL` are never replaced from `EMAIL` |
| Templates.Load | lib/gem2deb/dh_make_ruby.rb:184-195 | `Template.load` returns what `LoadLines` gives for the lines after the last `__END__` |
| Templates.LoadLines | lib/gem2deb/dh_make_ruby.rb:186-193 | the only error is the missing template; a load gives at most one template per line |
| Templates.LoadStep | lib/gem2deb/dh_make_ruby.rb:186-193 | a marker line opens a template with empty data; another line is appended to the last template's data, and raises when there is none |
| Templates.LoadFailsIff | lib/gem2deb/dh_make_ruby.rb:186-193 | loading raises exactly when the first line is not a marker |
| Templates.LoadFailureSticks | lib/gem2deb/dh_make_ruby.rb:186-193 | once loading raised, later lines change nothing |
| Templates.LoadFilenames | lib/gem2deb/dh_make_ruby.rb:186-193 | one template per marker line, in order, named by the marker's file name |
| Templates.LoadRender | lib/gem2deb/dh_make_ruby.rb:186-193 | writing the templates back as markers and data gives back the loaded lines |
| Templates.LoadRenderText | lib/gem2deb/dh_make_ruby.rb:184-195 | the templates written back give back the text after `__END__` |
| Templates.Body | lib/gem2deb/dh_make_ruby.rb:186 | `gsub(/.*__END__\n/m, '')` leaves a suffix of the text holding no `__END__` line, and the whole text when there is none |
| Templates.BodyAfterOnlyEnd | lib/gem2deb/dh_make_ruby.rb:186 | with one `__END__` line, what follows it is kept |
| Templates.FileNameOf | lib/gem2deb/dh_make_ruby.rb:187-188 | `$1` is the rest of the marker line up to its newline |
| Templates.MarkerLineOf | lib/gem2deb/dh_make_ruby.rb:187-189 | a marker line is rebuilt from the file name it opens |
| Templates.Directory | lib/gem2deb/dh_make_ruby.rb:202-204 | a template without `/` in its name lies in `.` |
| Templates.DebianDirectory | lib/gem2deb/dh_make_ruby.rb:202-204 | `debian/<name>` lies in `debian` |
| Boilerplate.TestSuite | lib/gem2deb/dh_make_ruby.rb:254-280 | `test_suite` writes at most one file |
| Boilerplate.TestSuiteChoosesStrategy | lib/gem2deb/dh_make_ruby.rb:254-280 | the file `test_suite` writes makes `run_tests` choose the test runner for declared test files, `debian/ruby-tests.rb` for a test or spec directory, and nothing otherwise |
| Boilerplate.OtherFiles | lib/gem2deb/dh_make_ruby.rb:282-357 | `other_files` writes what `OtherFilesAsWritten` describes |
| Boilerplate.DocsList | lib/gem2deb/dh_make_ruby.rb:284-299 | the docs text: the `doc/` note when `doc` exists, the READMEs heading, one line per README |
| Boilerplate.AppendComments | lib/gem2deb/dh_make_ruby.rb:297-299 | one `# <name>` line per README, in order |
| Boilerplate.ExamplesList | lib/gem2deb/dh_make_ruby.rb:307-316 | one note per `examples`/`sample` directory, in that order |
| Boilerplate.InstallsList | lib/gem2deb/dh_make_ruby.rb:324-338 | the `data` note, then the `conf` note, each when its directory exists |
| Boilerplate.ManpagesList | lib/gem2deb/dh_make_ruby.rb:346-355 | the manpages heading, then one `# <page>` line per page |
| Boilerplate.AppendPages | lib/gem2deb/dh_make_ruby.rb:352-354 | one `# <page>` line per page, in order |
| Boilerplate.OtherFilesAsWrittenPaths | lib/gem2deb/dh_make_ruby.rb:282-357 | as written, `.docs` is always written; `.examples`, `.install` and `.manpages` exactly when their directories exist |
| Boilerplate.DocsWithoutDocs | lib/gem2deb/dh_make_ruby.rb:293-304 | as written, with no `doc/` and no README, `.docs` holds just the READMEs heading |
| Boilerplate.OtherFilesIntendedPaths | lib/gem2deb/dh_make_ruby.rb:282-357 | with the heading only when a README exists, `.docs` is written exactly when `doc/` or a README exists |
| Boilerplate.IntendedAgreesWithReadmes | lib/gem2deb/dh_make_ruby.rb:293-304 | with a README present, the corrected list is the written one |
| Boilerplate.DocsLines | lib/gem2deb/dh_make_ruby.rb:284-299 | the docs list is the notes, the heading and one line per README |
| Boilerplate.ManpagesLines | lib/gem2deb/dh_make_ruby.rb:350-355 | the manpages file lists each page on its own line after the heading |
| Boilerplate.ExamplesWritten | lib/gem2deb/dh_make_ruby.rb:307-321 | `.examples` is written exactly when `examples/` or `sample/` exists |
| Boilerplate.InstallsWritten | lib/gem2deb/dh_make_ruby.rb:324-343 | `.install` is written exactly when `data/` or `conf/` exists |
| Boilerplate.ExamplesOfTwo | lib/gem2deb/dh_make_ruby.rb:308-316 | the examples text is the `examples` note then the `sample` note, each when present |
| Boilerplate.BuildpackageOptions | lib/gem2deb/dh_make_ruby.rb:134-137 | `-S` exactly for a source-only build and `-d` exactly without the build-dependency check, nothing else |
| Boilerplate.BuildpackageCommands | lib/gem2deb/dh_make_ruby.rb:134-141 | the four `dpkg-buildpackage -us -uc …` command lines |
| Boilerplate.CommentLines | lib/gem2deb/dh_make_ruby.rb:297-299 | one `# <name>` line per name |
| Boilerplate.PageLines | lib/gem2deb/dh_make_ruby.rb:352-354 | one `# <page>` line per page |
| Text.Words | lib/gem2deb/dhruby.rb:142 | `split`: the words hold no whitespace and are non-empty |
| Text.WordsSplitAtSpace | lib/gem2deb/dhruby.rb:97 | a whitespace character splits the text: the words before it, then the words after it |
| Text.WordsOfWord | lib/gem2deb/dhruby.rb:97 | a non-empty text without whitespace is one word |
| Text.WordsOfSpaces | lib/gem2deb/dhruby.rb:97 | a text of whitespace only has no words |
| Text.WordsOfSpaced | lib/gem2deb/dhruby.rb:142 | a word between spaces is among the words |
| Text.Lines | lib/gem2deb/dh_make_ruby.rb:186 | `lines`: no line is empty |
| Text.LinesConcat | lib/gem2deb/dh_make_ruby.rb:186 | the lines make up the text again |
| Text.LineShape | lib/gem2deb/dh_make_ruby.rb:186 | every line but the last ends with its only newline |
| Text.LinesSplit | lib/gem2deb/dh_make_ruby.rb:186 | the lines of a text that ends a line, followed by another, are the two lists of lines |
| Text.Chomp | lib/gem2deb/dhruby.rb:150 | `chomp!` removes one trailing `\r\n`, `\n` or `\r` and nothing else, and keeps a text without one |
| Text.Puts | lib/gem2deb/dhruby.rb:282 | `puts` leaves a text that ends with a newline as it is and adds one newline to any other text |
| Text.Strip | lib/gem2deb/dh_make_ruby.rb:384 | `strip` keeps one slice of the text, with only whitespace before it and only whitespace or NUL after it; the slice is empty exactly for a blank text, and otherwise starts with non-whitespace and ends with neither whitespace nor NUL |
| Text.StripSlice | lib/gem2deb/dh_make_ruby.rb:384 | what `strip` keeps starts after the leading whitespace and is followed only by whitespace or NUL |
| Text.ReplaceFirst | lib/gem2deb/dh_make_ruby.rb:121-122 | `sub` leaves a string without the pattern unchanged |
| Text.ReplaceFirstAt | lib/gem2deb/dh_make_ruby.rb:121-122 | `sub` replaces the first occurrence of the pattern, wherever it is, and keeps the rest |
| Text.ReplaceFirstKeepsOut | lib/gem2deb/dh_make_ruby.rb:121-122 | a character in neither the text nor the replacement is not in the result |
| Text.ReplaceFirstAtHead | lib/gem2deb/dh_make_ruby.rb:121-122 | `sub` on a string starting with the pattern replaces that start |
| Text.Difference | lib/gem2deb/dhruby.rb:233 | array difference keeps exactly the entries not in the second list |

## Left out

- Every file read or written by `dh-make-ruby`'s `build`, `create_orig_tarball`, `extract` and `create_debian_boilerplates` is left out. These steps only start commands (`ln -s`, `tar`, `dch`) and write the templates through ERB, which this model does not evaluate. `read_metadata` is not part of this model either: the gem's metadata (native extensions, dependencies, test files, long description) are inputs.
- `clean`, `configure`, `build` and `test` of `DhRuby` are outside the modelled core. `Gem2Deb#run` (in `lib/gem2deb.rb`) and the metadata class are not part of this model: `run` is taken to record the command, set `$?` from the oracle and raise `Gem2Deb::CommandFailed` unless the command exits with status 0.
- YAML loading and dumping are not modelled. `metadata.yml` gives `spec_name` and `to_ruby`, and the overrides file gives a list, both as inputs. The YAML dump of the test files is kept as the list itself.
- `File.expand_path` in `destdir_for` is not modelled: the destination directory is `debian/<package>`, relative to the build directory.
- The globs (`Dir[...]`, `Dir.glob`, `Find.find`) and `dh_listpackages` are inputs. What the extension builder and `install` do to the file system is not applied to the world.
- `$VERBOSE` echoing of test commands is left out; it only prints.
- `Package#dependencies` (`lib/gem2deb/dh_make_ruby.rb:239-241`) is the fixed `Depends:` list that only the `debian/control` template reads, and templates are not rendered here.
- External commands do not change the file system in the model, so later steps read the tree as it was before them.
- Ruby's `^` and `$` are line anchors. The model treats the tarball name, the e-mail variables and the package names as single lines: a value holding a newline does not match `EMAIL_REGEXP` or the tarball patterns in the model. The literal junk patterns are modelled with line anchors.
- Tarball.Dirname: states the result only for paths without repeated or trailing slashes, where `File.dirname` agrees with the part before the last `/`.
- Description.LongDescriptionLines: says nothing about an empty long description, for which the template prints just a newline (the function gives that, the lemma needs a non-empty text).
- Boilerplate.ManpagesLines: states the heading as the lines of the `puts`-ed heading rather than spelling it out.
- The `dch` logic is translated from Perl, where `||=` also replaces an empty string. The `MaintainerDch` reference keeps Ruby's nil test instead.
- In `handle_test_failure`, an `n` answer ends the prompt loop and the build goes on, because the method just returns. The model follows the code here, not the stated intent that `n` aborts.
- On a Ruby before 1.9, `puts nil` would print `nil`; the model uses the newline that current Ruby prints.

## Findings

| source | as written | input that shows it | evidently intended | confidence | as-written member | corrected member |
|---|---|---|---|---|---|---|
| lib/gem2deb/dh_make_ruby.rb:225-229 | the `EMAIL` step tests the original `ENV['DEBEMAIL']` and `ENV['DEBFULLNAME']` and overwrites both results of the `DEBEMAIL` step | `DEBFULLNAME` unset, `DEBEMAIL=A <a>`, `EMAIL=B <b>` gives `B`/`b` | as in `dch`, a `DEBEMAIL` of the form `Name <addr>` settles name and address (`A`/`a`) | not executed | Maintainer.EmailOverridesDebEmail | Maintainer.DchDebEmailDecides |
| lib/gem2deb/dh_make_ruby.rb:293-304 | the READMEs heading is appended unconditionally, so `docs != ""` always holds and `.docs` is always written | no `doc/` directory and no `README*` file gives a `.docs` file holding only the heading | write the heading only when READMEs exist, and `.docs` only when there is something to list | not executed | Boilerplate.DocsWithoutDocs | Boilerplate.OtherFilesIntendedPaths |
