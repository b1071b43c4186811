/** The build host as `dh_ruby` sees it: the filesystem, the terminal, the
    commands it starts and the exit status Ruby keeps in `$?`. External commands
    are not run; they are recorded in an ordered log together with everything
    written to standard output and every filesystem operation. */
module Host {
  import opened Text

  /** The external commands started by `dh_ruby --install`. */
  datatype Command =
    | ListPackages                                    // `dh_listpackages`
    | InstallDir(path: string)                        // `install -d <path>`
    | InstallFile(mode: nat, src: string, dst: string)  // `install -m<mode> <src> <dst>`
    | BuildExtension(binary: string, package: string) // `<binary> -I<libdir> extension_builder.rb <package>`
    | TestRunner(binary: string)                      // `<binary> testrunner.rb`
    | TestScript(binary: string)                      // `<binary> -Ilib debian/ruby-tests.rb`

  /** One entry of the ordered plan. */
  datatype Event =
    | Out(text: string)                 // bytes written to standard output
    | Run(cmd: Command)                 // an external command, run to completion
    | Write(path: string)               // a file opened for writing and written
    | Rename(src: string, dst: string)  // `File.rename`
    | Unlink(path: string)              // `File.unlink`

  /** How a step ends: normally, by `exit(code)`, or by an exception. */
  datatype Flow = Next | Exit(code: int) | Raise(error: string)

  /** The host state: regular files and their bytes, directories, the unread
      part of standard input, the plan so far, and `$?` (a raw wait status, or
      nil before any command ran). */
  datatype World = World(
    files: map<string, string>,
    dirs: set<string>,
    stdin: seq<char>,
    log: seq<Event>,
    status: Option<nat>)

  /** The environment variables and terminal state the core reads. */
  datatype Env = Env(
    debBuildOptions: Option<string>,   // DEB_BUILD_OPTIONS
    ignoreTests: Option<string>,       // DH_RUBY_IGNORE_TESTS
    stdinTty: bool,
    stdoutTty: bool,
    stderrTty: bool)

  /** `DEB_BUILD_OPTIONS` is set and one of its words is `nocheck`. */
  predicate NoCheck(env: Env) {
    env.debBuildOptions.Some? && "nocheck" in Words(env.debBuildOptions.value)
  }

  /** All three standard streams are terminals. */
  predicate Interactive(env: Env) {
    env.stdinTty && env.stdoutTty && env.stderrTty
  }

  /** `File.exists?`: a file or a directory. */
  predicate PathExists(w: World, path: string) {
    path in w.files || path in w.dirs
  }

  /** `puts text`. */
  function Say(w: World, text: string): World
  {
    w.(log := w.log + [Out(Puts(text))])
  }

  /** Starting a command and waiting for it: it is logged and `$?` becomes its
      status, which the oracle `statusOf` supplies. */
  function RunCommand(w: World, c: Command, statusOf: Command -> nat): (r: World)
    ensures r.log == w.log + [Run(c)] && r.status == Some(statusOf(c))
    ensures r.files == w.files && r.dirs == w.dirs && r.stdin == w.stdin
  {
    w.(log := w.log + [Run(c)], status := Some(statusOf(c)))
  }

  /** What `run` raises when its command fails. */
  const COMMAND_FAILED: string := "Gem2Deb::CommandFailed"

  /** `run(cmd)` of the `Gem2Deb` module: the command is started and waited
      for as `RunCommand` does, and any status other than a clean exit with
      code 0 raises, so the step that ran it goes no further. */
  function RunChecked(w: World, c: Command, statusOf: Command -> nat): (r: (Flow, World))
    ensures r.1.log == w.log + [Run(c)] && r.1.status == Some(statusOf(c))
    ensures r.1.files == w.files && r.1.dirs == w.dirs && r.1.stdin == w.stdin
    ensures r.0.Next? <==> statusOf(c) == 0
    ensures !r.0.Next? ==> r.0 == Raise(COMMAND_FAILED)
  {
    (if statusOf(c) == 0 then Next else Raise(COMMAND_FAILED), RunCommand(w, c, statusOf))
  }

  const NOT_FOUND: string := "Errno::ENOENT: No such file or directory"

  const IS_DIRECTORY: string := "Errno::EISDIR: Is a directory"

  const FILE_EXISTS: string := "Errno::EEXIST: File exists"

  /** What opening `path` for reading raises when it is not a regular file:
      `EISDIR` for a directory, `ENOENT` when nothing is there. */
  function ReadError(dirs: set<string>, path: string): (r: string)
    ensures r == IS_DIRECTORY <==> path in dirs
    ensures r == IS_DIRECTORY || r == NOT_FOUND
  {
    if path in dirs then IS_DIRECTORY else NOT_FOUND
  }

  /** Ruby tests `$? >> 8 > 0`: the exit code part of the wait status is not
      zero. A process killed by a signal has exit code 0 here. */
  predicate Failed(status: Option<nat>) {
    status.Some? && status.value / 256 > 0
  }

  /** The external commands of a plan, in order. */
  function Commands(log: seq<Event>): (r: seq<Command>)
    ensures |r| <= |log|
    ensures forall c :: c in r ==> Run(c) in log
  {
    if log == [] then []
    else
      var last := log[|log| - 1];
      Commands(log[..|log| - 1]) + (if last.Run? then [last.cmd] else [])
  }

  lemma {:induction false} CommandsAppend(a: seq<Event>, b: seq<Event>)
    ensures Commands(a + b) == Commands(a) + Commands(b)
    decreases |b|
  {
    if b == [] {
      assert a + b == a;
    } else {
      var init := b[..|b| - 1];
      CommandsAppend(a, init);
      assert (a + b)[..|a + b| - 1] == a + init;
    }
  }

  /** Writing to standard output starts no command. */
  lemma {:induction false} OutputRunsNothing(log: seq<Event>)
    requires forall e :: e in log ==> e.Out?
    ensures Commands(log) == []
    decreases |log|
  {
    if log != [] {
      assert log[|log| - 1] in log;
      OutputRunsNothing(log[..|log| - 1]);
    }
  }
}
