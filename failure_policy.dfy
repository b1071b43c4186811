/** `DhRuby#handle_test_failure`: what happens when a test suite or the
    rubygems audit fails. The ignore list in DH_RUBY_IGNORE_TESTS is consulted
    first; otherwise an interactive build asks the operator, and a
    non-interactive one exits with status 1. */
module FailurePolicy {
  import opened Text
  import opened Host

  /** The ignore list holds the word `all`. */
  predicate IgnoresAll(env: Env) {
    env.ignoreTests.Some? && "all" in Words(env.ignoreTests.value)
  }

  /** The ignore list holds the failing test's own name. */
  predicate IgnoresNamed(env: Env, test: string) {
    env.ignoreTests.Some? && test in Words(env.ignoreTests.value)
  }

  /** `c.chr.downcase` is `y` or `n`: the answers that end the prompt loop. */
  predicate IsAnswer(c: char) {
    c == 'y' || c == 'Y' || c == 'n' || c == 'N'
  }

  function PromptText(test: string): string {
    "Test \"" + test + "\" failed. Continue building the package? (Y/N) "
  }

  /** The two writes of one round of the prompt: `puts` and `print`. */
  function PromptEvents(test: string): seq<Event> {
    [Out("\n"), Out(PromptText(test))]
  }

  /** The prompt loop over the characters left on standard input: it prompts,
      reads one character, and stops at the first `y`/`n` in either case. At
      the end of input `STDIN.getc` returns nil and `nil.chr` raises. */
  function Ask(test: string, input: seq<char>): (seq<Event>, Flow, seq<char>)
    decreases |input|
  {
    if input == [] then (PromptEvents(test), Raise("NoMethodError: undefined method `chr' for nil"), [])
    else if IsAnswer(input[0]) then (PromptEvents(test), Next, input[1..])
    else
      var (evs, flow, rest) := Ask(test, input[1..]);
      (PromptEvents(test) + evs, flow, rest)
  }

  /** Position of the first answer character, if there is one. */
  function FirstAnswer(input: seq<char>): (r: Option<nat>)
    ensures r.Some? ==> r.value < |input| && IsAnswer(input[r.value])
    ensures r.Some? ==> forall j :: 0 <= j < r.value ==> !IsAnswer(input[j])
    ensures r.None? ==> forall j :: 0 <= j < |input| ==> !IsAnswer(input[j])
  {
    if input == [] then None
    else if IsAnswer(input[0]) then Some(0)
    else
      var r := FirstAnswer(input[1..]);
      if r.Some? then Some(r.value + 1) else None
  }

  /** The prompt loop ends at the first answer, with one prompt per
      character read; without an answer it reads all input and raises. It
      never exits: an `n` answer returns just as a `y` does. */
  lemma {:induction false} AskStopsAtFirstAnswer(test: string, input: seq<char>)
    ensures var (evs, flow, rest) := Ask(test, input);
      match FirstAnswer(input)
      case Some(k) => flow == Next && rest == input[k + 1..] && |evs| == 2 * (k + 1)
      case None => flow.Raise? && rest == [] && |evs| == 2 * (|input| + 1)
    ensures forall e :: e in Ask(test, input).0 ==> e in PromptEvents(test)
    decreases |input|
  {
    if input != [] && !IsAnswer(input[0]) {
      AskStopsAtFirstAnswer(test, input[1..]);
      var k := FirstAnswer(input[1..]);
      if k.Some? {
        assert input[1..][k.value + 1..] == input[k.value + 2..];
      }
    }
  }

  /** `handle_test_failure(test)` as a function of the host state. */
  function HandleTestFailureSpec(env: Env, test: string, w: World): (Flow, World)
  {
    if IgnoresAll(env) then
      (Next, Say(w, "WARNING: Test \"" + test + "\" failed, but ignoring all test results."))
    else if IgnoresNamed(env, test) then
      (Next, Say(w, "WARNING: Test \"" + test + "\" failed, but ignoring this test result."))
    else if Interactive(env) then
      var (evs, flow, rest) := Ask(test, w.stdin);
      (flow, w.(log := w.log + evs, stdin := rest))
    else
      (Exit(1), Say(w, "ERROR: Test \"" + test + "\" failed. Exiting."))
  }

  /** The policy exits, always with status 1, exactly when the failure is not
      ignored and the build is not interactive. */
  lemma ExitIff(env: Env, test: string, w: World)
    ensures HandleTestFailureSpec(env, test, w).0.Exit? <==>
      !IgnoresAll(env) && !IgnoresNamed(env, test) && !Interactive(env)
    ensures HandleTestFailureSpec(env, test, w).0.Exit? ==> HandleTestFailureSpec(env, test, w).0.code == 1
  {
    if !IgnoresAll(env) && !IgnoresNamed(env, test) && Interactive(env) {
      AskStopsAtFirstAnswer(test, w.stdin);
    }
  }

  /** An ignored failure carries on whatever the terminal state: one warning
      line is written, nothing is read and nothing else changes. */
  lemma IgnoredContinues(env: Env, test: string, w: World)
    requires IgnoresAll(env) || IgnoresNamed(env, test)
    ensures var (flow, w') := HandleTestFailureSpec(env, test, w);
      flow == Next && w' == w.(log := w'.log) && |w'.log| == |w.log| + 1 && w'.log[..|w.log|] == w.log
  {
  }

  /** An interactive, not ignored failure consumes input up to and including
      the first answer and then carries on; with no answer on standard input
      the read raises. */
  lemma InteractiveAsks(env: Env, test: string, w: World)
    requires !IgnoresAll(env) && !IgnoresNamed(env, test) && Interactive(env)
    ensures var (flow, w') := HandleTestFailureSpec(env, test, w);
      match FirstAnswer(w.stdin)
      case Some(k) => flow == Next && w'.stdin == w.stdin[k + 1..]
      case None => flow.Raise? && w'.stdin == []
  {
    AskStopsAtFirstAnswer(test, w.stdin);
  }

  /** The handler only talks to the terminal: it starts no command, keeps
      `$?` and the filesystem, and only appends to the plan. */
  lemma HandlerRunsNothing(env: Env, test: string, w: World)
    ensures var (flow, w') := HandleTestFailureSpec(env, test, w);
      && Commands(w'.log) == Commands(w.log)
      && w'.status == w.status && w'.files == w.files && w'.dirs == w.dirs
      && |w.log| <= |w'.log| && w'.log[..|w.log|] == w.log
  {
    if IgnoresAll(env) {
      SayRunsNothing(w, "WARNING: Test \"" + test + "\" failed, but ignoring all test results.");
    } else if IgnoresNamed(env, test) {
      SayRunsNothing(w, "WARNING: Test \"" + test + "\" failed, but ignoring this test result.");
    } else if Interactive(env) {
      var (evs, flow, rest) := Ask(test, w.stdin);
      assert forall e :: e in evs ==> e.Out? by {
        AskStopsAtFirstAnswer(test, w.stdin);
        forall e | e in evs ensures e.Out? {
          assert e in PromptEvents(test);
        }
      }
      OutputRunsNothing(evs);
      CommandsAppend(w.log, evs);
    } else {
      SayRunsNothing(w, "ERROR: Test \"" + test + "\" failed. Exiting.");
    }
  }

  /** Printing a line starts no command and only appends to the plan. */
  lemma SayRunsNothing(w: World, text: string)
    ensures var w' := Say(w, text);
      && Commands(w'.log) == Commands(w.log)
      && |w.log| <= |w'.log| && w'.log[..|w.log|] == w.log
  {
    OutputRunsNothing([Out(Puts(text))]);
    CommandsAppend(w.log, [Out(Puts(text))]);
  }

  /** `handle_test_failure`, with its `begin ... end while continue.nil?` loop. */
  method HandleTestFailure(env: Env, test: string, w: World) returns (flow: Flow, w': World)
    ensures (flow, w') == HandleTestFailureSpec(env, test, w)
  {
    if env.ignoreTests.Some? {
      var words := Words(env.ignoreTests.value);
      if "all" in words {
        return Next, Say(w, "WARNING: Test \"" + test + "\" failed, but ignoring all test results.");
      } else if test in words {
        return Next, Say(w, "WARNING: Test \"" + test + "\" failed, but ignoring this test result.");
      }
    }
    if env.stdinTty && env.stdoutTty && env.stderrTty {
      var answer: Option<bool> := None;
      var log := w.log;
      var input := w.stdin;
      while answer.None?
        invariant answer.None? ==>
          var (evs, f, rest) := Ask(test, input);
          var (evs0, f0, rest0) := Ask(test, w.stdin);
          f == f0 && rest == rest0 && log + evs == w.log + evs0
        invariant answer.Some? ==>
          var (evs0, f0, rest0) := Ask(test, w.stdin);
          f0 == Next && input == rest0 && log == w.log + evs0
        decreases |input|
      {
        log := log + PromptEvents(test);
        if input == [] {
          return Raise("NoMethodError: undefined method `chr' for nil"), w.(log := log, stdin := []);
        }
        var c := input[0];
        input := input[1..];
        if c == 'y' || c == 'Y' {
          answer := Some(true);
        }
        if c == 'n' || c == 'N' {
          answer := Some(false);
        }
      }
      return Next, w.(log := log, stdin := input);
    } else {
      return Exit(1), Say(w, "ERROR: Test \"" + test + "\" failed. Exiting.");
    }
  }
}
