/** `DhRuby#run_tests(rubyver)`: choose how to run the package's test suite
    under one interpreter, run it, and hand a failing exit status to the
    failure policy. */
module TestRuns {
  import opened Text
  import opened Host
  import opened Variants
  import opened FailurePolicy

  const TEST_FILES_YAML: string := "debian/ruby-test-files.yaml"

  const TEST_SCRIPT: string := "debian/ruby-tests.rb"

  /** The command a test strategy starts, if one applies: the gem2deb test
      runner when `debian/ruby-test-files.yaml` exists, else the maintainer's
      `debian/ruby-tests.rb`. */
  function TestCommand(w: World, rubyver: string): Option<Command> {
    if PathExists(w, TEST_FILES_YAML) then Some(TestRunner(BinaryText(rubyver)))
    else if PathExists(w, TEST_SCRIPT) then Some(TestScript(BinaryText(rubyver)))
    else None
  }

  /** The line announcing the strategy. */
  function Announcement(w: World, rubyver: string): string {
    if PathExists(w, TEST_FILES_YAML) then
      "Running tests for " + rubyver + " using gem2deb test runner and debian/ruby-test-files.yaml..."
    else if PathExists(w, TEST_SCRIPT) then
      "Running tests for " + rubyver + " using debian/ruby-tests.rb..."
    else "Running tests for " + rubyver + ": found no way to run a test suite!"
  }

  /** `$?` once the strategy has run: the suite's status, or whatever status
      an earlier command left behind when no strategy applies. */
  function StatusAfterTests(w: World, rubyver: string, statusOf: Command -> nat): Option<nat> {
    match TestCommand(w, rubyver)
    case Some(c) => Some(statusOf(c))
    case None => w.status
  }

  /** The world once the strategy has been announced and run. */
  function TestsRun(w: World, rubyver: string, statusOf: Command -> nat): World {
    var w1 := Say(w, Announcement(w, rubyver));
    match TestCommand(w, rubyver)
    case Some(c) => RunCommand(w1, c, statusOf)
    case None => w1
  }

  const NOCHECK_MESSAGE: string := "DEB_BUILD_OPTIONS include nocheck, skipping test suite."

  /** `run_tests(rubyver)` as a function of the host state. */
  function RunTestsSpec(env: Env, rubyver: string, w: World, statusOf: Command -> nat): (Flow, World) {
    if NoCheck(env) then (Next, Say(w, NOCHECK_MESSAGE))
    else
      var w1 := TestsRun(w, rubyver, statusOf);
      if Failed(w1.status) then HandleTestFailureSpec(env, rubyver, w1) else (Next, w1)
  }

  /** `run_tests(rubyver)`. */
  method RunTests(env: Env, rubyver: string, w: World, statusOf: Command -> nat) returns (flow: Flow, w': World)
    ensures (flow, w') == RunTestsSpec(env, rubyver, w, statusOf)
  {
    if env.debBuildOptions.Some? && "nocheck" in Words(env.debBuildOptions.value) {
      return Next, Say(w, NOCHECK_MESSAGE);
    }
    var w1 := RunStrategy(rubyver, w, statusOf);
    flow, w' := Next, w1;
    if w1.status.Some? && w1.status.value / 256 > 0 {
      flow, w' := HandleTestFailure(env, rubyver, w1);
    }
    assert !NoCheck(env) && (flow, w') == (if Failed(w1.status) then HandleTestFailureSpec(env, rubyver, w1) else (Next, w1));
  }

  /** The strategy part of `run_tests`: the announcement and, when one
      applies, the test command under the binary of `rubyver`. */
  method RunStrategy(rubyver: string, w: World, statusOf: Command -> nat) returns (w': World)
    ensures w' == TestsRun(w, rubyver, statusOf)
  {
    var binary := BinaryText(rubyver);
    w' := w;
    if TEST_FILES_YAML in w.files || TEST_FILES_YAML in w.dirs {
      w' := Say(w', "Running tests for " + rubyver + " using gem2deb test runner and debian/ruby-test-files.yaml...");
      w' := RunCommand(w', TestRunner(binary), statusOf);
    } else if TEST_SCRIPT in w.files || TEST_SCRIPT in w.dirs {
      w' := Say(w', "Running tests for " + rubyver + " using debian/ruby-tests.rb...");
      w' := RunCommand(w', TestScript(binary), statusOf);
    } else {
      w' := Say(w', "Running tests for " + rubyver + ": found no way to run a test suite!");
    }
  }

  /** Under `nocheck` nothing is run and nothing is read: one line is printed
      and the build carries on. */
  lemma NoCheckSkipsTests(env: Env, rubyver: string, w: World, statusOf: Command -> nat)
    requires NoCheck(env)
    ensures var (flow, w') := RunTestsSpec(env, rubyver, w, statusOf);
      flow == Next && Commands(w'.log) == Commands(w.log) && w'.status == w.status && w'.stdin == w.stdin
  {
    var w' := RunTestsSpec(env, rubyver, w, statusOf).1;
    CommandsAppend(w.log, [Out(Puts(NOCHECK_MESSAGE))]);
    OutputRunsNothing([Out(Puts(NOCHECK_MESSAGE))]);
  }

  /** Without `nocheck`, exactly the chosen strategy's command is started,
      under the binary of `rubyver`: the test runner whenever
      `debian/ruby-test-files.yaml` exists, `debian/ruby-tests.rb` only
      without it, and none when neither exists. `$?` ends as the suite's
      status, or stale. */
  lemma StrategyPrecedence(env: Env, rubyver: string, w: World, statusOf: Command -> nat)
    requires !NoCheck(env)
    ensures var (flow, w') := RunTestsSpec(env, rubyver, w, statusOf);
      && Commands(w'.log) == Commands(w.log) +
           (if PathExists(w, TEST_FILES_YAML) then [TestRunner(BinaryText(rubyver))]
            else if PathExists(w, TEST_SCRIPT) then [TestScript(BinaryText(rubyver))]
            else [])
      && w'.status == StatusAfterTests(w, rubyver, statusOf)
  {
    var w1 := TestsRun(w, rubyver, statusOf);
    TestsRunCommands(w, rubyver, statusOf);
    HandlerRunsNothing(env, rubyver, w1);
  }

  /** Announcing and running the strategy adds its command, if any, and
      leaves `$?` as the strategy's status. */
  lemma TestsRunCommands(w: World, rubyver: string, statusOf: Command -> nat)
    ensures Commands(TestsRun(w, rubyver, statusOf).log) == Commands(w.log) +
      (if PathExists(w, TEST_FILES_YAML) then [TestRunner(BinaryText(rubyver))]
       else if PathExists(w, TEST_SCRIPT) then [TestScript(BinaryText(rubyver))]
       else [])
    ensures TestsRun(w, rubyver, statusOf).status == StatusAfterTests(w, rubyver, statusOf)
  {
    var w0 := Say(w, Announcement(w, rubyver));
    assert Commands(w0.log) == Commands(w.log) by {
      var say := [Out(Puts(Announcement(w, rubyver)))];
      CommandsAppend(w.log, say);
      OutputRunsNothing(say);
    }
    if TestCommand(w, rubyver).Some? {
      var c := TestCommand(w, rubyver).value;
      assert Commands(w0.log + [Run(c)]) == Commands(w0.log) + [c] by {
        CommandsAppend(w0.log, [Run(c)]);
        assert Commands([Run(c)]) == [c];
      }
    }
  }

  /** The failure handler is consulted, under the bare version name, exactly
      when `$? >> 8 > 0` after the strategy: the build stops with exit 1
      exactly when that holds, the failure is not ignored and the build is not
      interactive; a passing suite reads no input and only announces itself. */
  lemma FailureHandled(env: Env, rubyver: string, w: World, statusOf: Command -> nat)
    requires !NoCheck(env)
    ensures var (flow, w') := RunTestsSpec(env, rubyver, w, statusOf);
      && (flow.Exit? <==>
            Failed(StatusAfterTests(w, rubyver, statusOf)) &&
            !IgnoresAll(env) && !IgnoresNamed(env, rubyver) && !Interactive(env))
      && (!Failed(StatusAfterTests(w, rubyver, statusOf)) ==>
            flow == Next && w'.stdin == w.stdin &&
            |w'.log| == |w.log| + (if TestCommand(w, rubyver).Some? then 2 else 1))
      && (Failed(StatusAfterTests(w, rubyver, statusOf)) && !Interactive(env) && !IgnoresAll(env) &&
          !IgnoresNamed(env, rubyver) ==>
            w'.log[|w'.log| - 1] == Out(Puts("ERROR: Test \"" + rubyver + "\" failed. Exiting.")))
  {
    var w1 := TestsRun(w, rubyver, statusOf);
    TestsRunShape(w, rubyver, statusOf);
    ExitIff(env, rubyver, w1);
    if Failed(w1.status) && !IgnoresAll(env) && !IgnoresNamed(env, rubyver) && !Interactive(env) {
      assert RunTestsSpec(env, rubyver, w, statusOf).1 == Say(w1, "ERROR: Test \"" + rubyver + "\" failed. Exiting.");
    }
  }

  /** Announcing and running the strategy reads no input, appends the
      announcement and the command, if any, and leaves the strategy's `$?`. */
  lemma TestsRunShape(w: World, rubyver: string, statusOf: Command -> nat)
    ensures var w1 := TestsRun(w, rubyver, statusOf);
      && w1.stdin == w.stdin
      && |w1.log| == |w.log| + (if TestCommand(w, rubyver).Some? then 2 else 1)
      && w1.status == StatusAfterTests(w, rubyver, statusOf)
  {
  }
}
