/** `DhRuby#check_rubygems`: after installation, report every line of an
    installed library file that requires rubygems, unless the file is listed
    in `debian/require-rubygems.overrides`, and treat any report as a failed
    test named `require-rubygems`. */
module Audit {
  import opened Text
  import opened Host
  import opened FailurePolicy

  const OVERRIDES_FILE: string := "debian/require-rubygems.overrides"

  const AUDIT_TEST: string := "require-rubygems"

  const SUMMARY: string := "Found some 'require rubygems' without overrides (see above)."

  /** `l =~ /require.*rubygems/`: `require`, then any characters other than a
      newline, then `rubygems`. */
  predicate RequiresRubygems(l: string) {
    exists i, j | 0 <= i && i + 7 <= j <= |l| :: HasAt(l, i, "require") && HasAt(l, j, "rubygems") && '\n' !in l[i + 7..j]
  }

  lemma RequiresRubygemsExamples()
    ensures RequiresRubygems("require 'rubygems'\n")
    ensures !RequiresRubygems("require\nrubygems\n")
  {
    var l := "require 'rubygems'\n";
    assert HasAt(l, 0, "require") && HasAt(l, 9, "rubygems") && l[7..9] == " '";
    var m := "require\nrubygems\n";
    forall i, j | 0 <= i && i + 7 <= j <= |m| && HasAt(m, i, "require") && HasAt(m, j, "rubygems")
      ensures '\n' in m[i + 7..j]
    {
      assert m[i..i + 7][2] == m[i + 2] == 'q';
      assert i == 0;
      assert m[j..j + 8][2] == m[j + 2] == 'b';
      assert j == 8;
      assert m[7..8] == "\n";
    }
  }

  /** A reported line: `puts "#{f}: #{l}"`. */
  function Report(f: string, l: string): Event {
    Out(Puts(f + ": " + l))
  }

  /** The reports for the lines `ls` of file `f`: one per matching line,
      none at all for a file in the overrides. */
  function LineReports(f: string, ls: seq<string>, overrides: seq<string>): seq<Event> {
    if ls == [] then []
    else
      var last := ls[|ls| - 1];
      LineReports(f, ls[..|ls| - 1], overrides) +
        (if RequiresRubygems(last) && f !in overrides then [Report(f, last)] else [])
  }

  /** The reports for the files `fs`, read from the host; reading a path
      that is not a regular file (a directory, or nothing) raises and ends
      the scan. */
  function ScanFiles(files: map<string, string>, dirs: set<string>, fs: seq<string>, overrides: seq<string>): (seq<Event>, Option<string>) {
    if fs == [] then ([], None)
    else
      var last := fs[|fs| - 1];
      var (evs, err) := ScanFiles(files, dirs, fs[..|fs| - 1], overrides);
      if err.Some? then (evs, err)
      else if last !in files then (evs, Some(ReadError(dirs, last)))
      else (evs + LineReports(last, Lines(files[last]), overrides), None)
  }

  /** The library files of each package, `Dir[...]`, in package order. */
  function Globbed(pkgs: seq<string>, globs: string -> seq<string>): seq<string> {
    if pkgs == [] then [] else Globbed(pkgs[..|pkgs| - 1], globs) + globs(pkgs[|pkgs| - 1])
  }

  lemma {:induction false} GlobbedAppend(p: seq<string>, q: seq<string>, globs: string -> seq<string>)
    ensures Globbed(p + q, globs) == Globbed(p, globs) + Globbed(q, globs)
    decreases |q|
  {
    if q == [] {
      assert p + q == p;
    } else {
      var init := q[..|q| - 1];
      var last := q[|q| - 1];
      GlobbedAppend(p, init, globs);
      assert (p + q)[..|p + q| - 1] == p + init && (p + q)[|p + q| - 1] == last;
      SeqAssoc(Globbed(p, globs), Globbed(init, globs), globs(last));
    }
  }

  /** One more file: its reports, or the raise when it is missing. */
  lemma ScanStep(files: map<string, string>, dirs: set<string>, a: seq<string>, f: string, overrides: seq<string>)
    requires ScanFiles(files, dirs, a, overrides).1.None?
    ensures ScanFiles(files, dirs, a + [f], overrides) ==
      if f !in files then (ScanFiles(files, dirs, a, overrides).0, Some(ReadError(dirs, f)))
      else (ScanFiles(files, dirs, a, overrides).0 + LineReports(f, Lines(files[f]), overrides), None)
  {
    assert (a + [f])[..|a|] == a;
  }

  lemma ScanMissingStep(files: map<string, string>, dirs: set<string>, before: seq<string>, fs: seq<string>, j: nat, overrides: seq<string>)
    requires j < |fs| && fs[j] !in files
    requires ScanFiles(files, dirs, before + fs[..j], overrides).1.None?
    ensures ScanFiles(files, dirs, before + fs, overrides) == (ScanFiles(files, dirs, before + fs[..j], overrides).0, Some(ReadError(dirs, fs[j])))
  {
    SplitAround(before, fs, j);
    ScanMissingAt(files, dirs, before + fs[..j], fs[j], fs[j + 1..], overrides);
  }

  lemma SplitAround<T>(before: seq<T>, fs: seq<T>, j: nat)
    requires j < |fs|
    ensures before + fs == before + fs[..j] + [fs[j]] + fs[j + 1..]
  {
    assert fs == fs[..j] + [fs[j]] + fs[j + 1..];
  }

  /** A missing file raises, and what follows it is not looked at. */
  lemma ScanMissingAt(files: map<string, string>, dirs: set<string>, a: seq<string>, f: string, rest: seq<string>, overrides: seq<string>)
    requires f !in files && ScanFiles(files, dirs, a, overrides).1.None?
    ensures ScanFiles(files, dirs, a + [f] + rest, overrides) == (ScanFiles(files, dirs, a, overrides).0, Some(ReadError(dirs, f)))
  {
    ScanStep(files, dirs, a, f, overrides);
    ScanStopsAtError(files, dirs, a + [f], rest, overrides);
  }

  lemma ScanPresentStep(files: map<string, string>, dirs: set<string>, before: seq<string>, fs: seq<string>, j: nat, overrides: seq<string>)
    requires j < |fs| && fs[j] in files
    requires ScanFiles(files, dirs, before + fs[..j], overrides).1.None?
    ensures ScanFiles(files, dirs, before + fs[..j + 1], overrides) ==
      (ScanFiles(files, dirs, before + fs[..j], overrides).0 + LineReports(fs[j], Lines(files[fs[j]]), overrides), None)
  {
    PrefixSnoc(before, fs, j);
    ScanStep(files, dirs, before + fs[..j], fs[j], overrides);
  }

  lemma PrefixSnoc<T>(before: seq<T>, fs: seq<T>, j: nat)
    requires j < |fs|
    ensures before + fs[..j + 1] == before + fs[..j] + [fs[j]]
  {
    assert fs[..j + 1] == fs[..j] + [fs[j]];
  }

  lemma GlobbedPrefixStep(pkgs: seq<string>, i: nat, globs: string -> seq<string>)
    requires i < |pkgs|
    ensures Globbed(pkgs[..i + 1], globs) == Globbed(pkgs[..i], globs) + globs(pkgs[i])
  {
    assert pkgs[..i + 1][..i] == pkgs[..i];
  }

  /** A read that raised in package `i` ends the scan of all packages. */
  lemma ScanStopsAtPackage(files: map<string, string>, dirs: set<string>, pkgs: seq<string>, i: nat,
                           globs: string -> seq<string>, overrides: seq<string>)
    requires i < |pkgs| && ScanFiles(files, dirs, Globbed(pkgs[..i + 1], globs), overrides).1.Some?
    ensures ScanFiles(files, dirs, Globbed(pkgs, globs), overrides) == ScanFiles(files, dirs, Globbed(pkgs[..i + 1], globs), overrides)
  {
    assert pkgs == pkgs[..i + 1] + pkgs[i + 1..];
    GlobbedAppend(pkgs[..i + 1], pkgs[i + 1..], globs);
    ScanStopsAtError(files, dirs, Globbed(pkgs[..i + 1], globs), Globbed(pkgs[i + 1..], globs), overrides);
  }

  /** Once a read has raised, later files are not looked at. */
  lemma {:induction false} ScanStopsAtError(files: map<string, string>, dirs: set<string>, a: seq<string>, b: seq<string>, overrides: seq<string>)
    requires ScanFiles(files, dirs, a, overrides).1.Some?
    ensures ScanFiles(files, dirs, a + b, overrides) == ScanFiles(files, dirs, a, overrides)
    decreases |b|
  {
    if b == [] {
      assert a + b == a;
    } else {
      var init := b[..|b| - 1];
      ScanStopsAtError(files, dirs, a, init, overrides);
      assert (a + b)[..|a + b| - 1] == a + init;
    }
  }

  /** `` `dh_listpackages`.each_line `` with `chomp!`. */
  function PackageLines(listing: string): (r: seq<string>)
    ensures |r| == |Lines(listing)|
  {
    var ls := Lines(listing);
    seq(|ls|, k requires 0 <= k < |ls| => Chomp(ls[k]))
  }

  /** The overrides in effect: the loaded list when the file exists. */
  function Overrides(w: World, loaded: seq<string>): seq<string> {
    if PathExists(w, OVERRIDES_FILE) then loaded else []
  }

  /** `check_rubygems` as a function of the host state. `listing` is the
      output of `dh_listpackages`, `globs` the `Dir[...]` result per package
      and `loaded` the list the overrides file holds. */
  function CheckRubygemsSpec(env: Env, w: World, listing: string, globs: string -> seq<string>,
                             loaded: seq<string>, statusOf: Command -> nat): (Flow, World) {
    if NoCheck(env) then (Next, w)
    else
      var overrides := Overrides(w, loaded);
      var w1 := RunCommand(w, ListPackages, statusOf);
      var (evs, err) := ScanFiles(w.files, w.dirs, Globbed(PackageLines(listing), globs), overrides);
      var w2 := w1.(log := w1.log + evs);
      if err.Some? then (Raise(err.value), w2)
      else if evs != [] then HandleTestFailureSpec(env, AUDIT_TEST, Say(w2, SUMMARY))
      else (Next, w2)
  }

  /** Some line of some file in `fs` matches, and that file is not
      overridden. */
  predicate Offending(files: map<string, string>, fs: seq<string>, overrides: seq<string>) {
    exists f, l :: f in fs && f in files && l in Lines(files[f]) && RequiresRubygems(l) && f !in overrides
  }

  lemma {:induction false} LineReportsNonEmpty(f: string, ls: seq<string>, overrides: seq<string>)
    ensures LineReports(f, ls, overrides) != [] <==>
      f !in overrides && exists l :: l in ls && RequiresRubygems(l)
    decreases |ls|
  {
    if ls != [] {
      var init := ls[..|ls| - 1];
      var last := ls[|ls| - 1];
      LineReportsNonEmpty(f, init, overrides);
      assert ls == init + [last];
      if f !in overrides && exists l :: l in ls && RequiresRubygems(l) {
        var l :| l in ls && RequiresRubygems(l);
        if l != last {
          assert l in init;
        }
      }
    }
  }

  /** When every globbed file exists, the scan reports something exactly when
      some line of some file offends. */
  lemma {:induction false} ScanFindsOffenders(files: map<string, string>, dirs: set<string>, fs: seq<string>, overrides: seq<string>)
    requires forall f :: f in fs ==> f in files
    ensures ScanFiles(files, dirs, fs, overrides).1 == None
    ensures ScanFiles(files, dirs, fs, overrides).0 != [] <==> Offending(files, fs, overrides)
    decreases |fs|
  {
    if fs != [] {
      var init := fs[..|fs| - 1];
      var last := fs[|fs| - 1];
      assert fs == init + [last];
      ScanFindsOffenders(files, dirs, init, overrides);
      var here := LineReports(last, Lines(files[last]), overrides);
      LineReportsNonEmpty(last, Lines(files[last]), overrides);
      assert ScanFiles(files, dirs, fs, overrides).0 == ScanFiles(files, dirs, init, overrides).0 + here;
      if Offending(files, fs, overrides) {
        var f, l :| f in fs && f in files && l in Lines(files[f]) && RequiresRubygems(l) && f !in overrides;
        if f != last {
          assert f in init;
          assert Offending(files, init, overrides);
        } else {
          assert here != [];
        }
      }
      if ScanFiles(files, dirs, fs, overrides).0 != [] {
        if here != [] {
          var l :| l in Lines(files[last]) && RequiresRubygems(l);
          assert last in fs;
        } else {
          var f, l :| f in init && f in files && l in Lines(files[f]) && RequiresRubygems(l) && f !in overrides;
          assert f in fs;
        }
      }
    }
  }

  /** `fs[j]` is the first path of `fs` that is not a regular file. */
  predicate FirstUnreadable(files: map<string, string>, fs: seq<string>, j: int) {
    0 <= j < |fs| && fs[j] !in files && forall k :: 0 <= k < j ==> fs[k] in files
  }

  /** A path that is not a regular file makes the scan raise: `EISDIR` when
      the first such path is a directory, `ENOENT` when it is missing. */
  lemma {:induction false} ScanRaisesOnMissing(files: map<string, string>, dirs: set<string>, fs: seq<string>, overrides: seq<string>)
    requires exists f :: f in fs && f !in files
    ensures exists j ::
              && FirstUnreadable(files, fs, j)
              && ScanFiles(files, dirs, fs, overrides).1 == Some(ReadError(dirs, fs[j]))
    decreases |fs|
  {
    var init := fs[..|fs| - 1];
    var last := fs[|fs| - 1];
    assert fs == init + [last];
    if exists f :: f in init && f !in files {
      ScanRaisesOnMissing(files, dirs, init, overrides);
      var j :| FirstUnreadable(files, init, j)
        && ScanFiles(files, dirs, init, overrides).1 == Some(ReadError(dirs, init[j]));
      assert FirstUnreadable(files, fs, j);
    } else {
      ScanFindsOffenders(files, dirs, init, overrides);
      forall k | 0 <= k < |fs| - 1 ensures fs[k] in files {
        assert fs[k] in init;
      }
      assert FirstUnreadable(files, fs, |fs| - 1);
    }
  }

  /** Under `nocheck` the audit does nothing at all. */
  lemma AuditSkipped(env: Env, w: World, listing: string, globs: string -> seq<string>,
                     loaded: seq<string>, statusOf: Command -> nat)
    requires NoCheck(env)
    ensures CheckRubygemsSpec(env, w, listing, globs, loaded, statusOf) == (Next, w)
  {
  }

  /** Without `nocheck`, and with every globbed file present, the failure
      `require-rubygems` reaches the policy exactly when some installed line
      offends; so the build exits 1 exactly when, in addition, the failure is
      not ignored and the build is not interactive. */
  lemma AuditFailsIff(env: Env, w: World, listing: string, globs: string -> seq<string>,
                      loaded: seq<string>, statusOf: Command -> nat)
    requires !NoCheck(env)
    requires forall f :: f in Globbed(PackageLines(listing), globs) ==> f in w.files
    ensures var (flow, w') := CheckRubygemsSpec(env, w, listing, globs, loaded, statusOf);
      var offending := Offending(w.files, Globbed(PackageLines(listing), globs), Overrides(w, loaded));
      && (flow.Exit? <==> offending && !IgnoresAll(env) && !IgnoresNamed(env, AUDIT_TEST) && !Interactive(env))
      && (!offending ==> flow == Next && w'.stdin == w.stdin)
  {
    var w1 := RunCommand(w, ListPackages, statusOf);
    var fs := Globbed(PackageLines(listing), globs);
    var overrides := Overrides(w, loaded);
    ScanFindsOffenders(w.files, w.dirs, fs, overrides);
    var (evs, err) := ScanFiles(w.files, w.dirs, fs, overrides);
    if evs != [] {
      ExitIff(env, AUDIT_TEST, Say(w1.(log := w1.log + evs), SUMMARY));
    }
  }

  /** With a globbed path that is not a regular file, the audit raises before
      the summary: `EISDIR` when the first such path is a directory, `ENOENT`
      when it is missing. */
  lemma AuditRaisesOnMissing(env: Env, w: World, listing: string, globs: string -> seq<string>,
                             loaded: seq<string>, statusOf: Command -> nat)
    requires !NoCheck(env)
    requires exists f :: f in Globbed(PackageLines(listing), globs) && f !in w.files
    ensures var fs := Globbed(PackageLines(listing), globs);
      exists j ::
        && FirstUnreadable(w.files, fs, j)
        && CheckRubygemsSpec(env, w, listing, globs, loaded, statusOf).0 == Raise(ReadError(w.dirs, fs[j]))
  {
    ScanRaisesOnMissing(w.files, w.dirs, Globbed(PackageLines(listing), globs), Overrides(w, loaded));
  }

  /** `check_rubygems`: the reports go out as they are found; `found`
      records that one did. */
  method CheckRubygems(env: Env, w: World, listing: string, globs: string -> seq<string>,
                       loaded: seq<string>, statusOf: Command -> nat) returns (flow: Flow, w': World)
    ensures (flow, w') == CheckRubygemsSpec(env, w, listing, globs, loaded, statusOf)
  {
    if env.debBuildOptions.Some? && "nocheck" in Words(env.debBuildOptions.value) {
      return Next, w;
    }
    var overrides: seq<string> := [];
    if OVERRIDES_FILE in w.files || OVERRIDES_FILE in w.dirs {
      overrides := loaded;
    }
    w' := RunCommand(w, ListPackages, statusOf);
    var evs, err, found := ScanPackages(w.files, w.dirs, PackageLines(listing), globs, overrides);
    w' := w'.(log := w'.log + evs);
    if err.Some? {
      return Raise(err.value), w';
    }
    if found {
      w' := Say(w', SUMMARY);
      flow, w' := HandleTestFailure(env, AUDIT_TEST, w');
    } else {
      flow := Next;
    }
  }

  /** The loop over packages. */
  method ScanPackages(files: map<string, string>, dirs: set<string>, pkgs: seq<string>, globs: string -> seq<string>,
                      overrides: seq<string>) returns (evs: seq<Event>, err: Option<string>, found: bool)
    ensures (evs, err) == ScanFiles(files, dirs, Globbed(pkgs, globs), overrides)
    ensures found <==> evs != []
  {
    evs, err, found := [], None, false;
    assert pkgs[..0] == [];
    for i := 0 to |pkgs|
      invariant ScanFiles(files, dirs, Globbed(pkgs[..i], globs), overrides) == (evs, None) && err.None?
      invariant found <==> evs != []
    {
      ghost var before := Globbed(pkgs[..i], globs);
      evs, err, found := ScanFileList(files, dirs, before, globs(pkgs[i]), overrides, evs, found);
      GlobbedPrefixStep(pkgs, i, globs);
      if err.Some? {
        ScanStopsAtPackage(files, dirs, pkgs, i, globs, overrides);
        return;
      }
    }
    assert pkgs[..|pkgs|] == pkgs;
  }

  /** The loop over one package's files, continuing a scan of `before`. */
  method ScanFileList(files: map<string, string>, dirs: set<string>, ghost before: seq<string>, fs: seq<string>,
                      overrides: seq<string>, evs0: seq<Event>, found0: bool)
    returns (evs: seq<Event>, err: Option<string>, found: bool)
    requires ScanFiles(files, dirs, before, overrides) == (evs0, None)
    requires found0 <==> evs0 != []
    ensures ScanFiles(files, dirs, before + fs, overrides) == (evs, err)
    ensures found <==> evs != []
  {
    evs, err, found := evs0, None, found0;
    assert before + fs[..0] == before;
    for j := 0 to |fs|
      invariant ScanFiles(files, dirs, before + fs[..j], overrides) == (evs, None) && err.None?
      invariant found <==> evs != []
    {
      var f := fs[j];
      if f !in files {
        var error := if f in dirs then IS_DIRECTORY else NOT_FOUND;
        assert ScanFiles(files, dirs, before + fs, overrides) == (evs, Some(error)) by {
          ScanMissingStep(files, dirs, before, fs, j, overrides);
        }
        return evs, Some(error), found;
      }
      var reports := ReportLines(f, Lines(files[f]), overrides);
      assert ScanFiles(files, dirs, before + fs[..j + 1], overrides) == (evs + reports, None) by {
        ScanPresentStep(files, dirs, before, fs, j, overrides);
      }
      evs := evs + reports;
      found := found || reports != [];
    }
    assert fs[..|fs|] == fs;
  }

  /** The loop over one file's lines. */
  method ReportLines(f: string, lines: seq<string>, overrides: seq<string>) returns (reports: seq<Event>)
    ensures reports == LineReports(f, lines, overrides)
  {
    reports := [];
    for k := 0 to |lines|
      invariant reports == LineReports(f, lines[..k], overrides)
    {
      assert lines[..k + 1][..k] == lines[..k];
      var l := lines[k];
      if RequiresRubygems(l) {
        if f !in overrides {
          reports := reports + [Report(f, l)];
        }
      }
    }
    assert lines[..|lines|] == lines;
  }

  /** The scan only writes to standard output. */
  lemma {:induction false} ScanOutputOnly(files: map<string, string>, dirs: set<string>, fs: seq<string>, overrides: seq<string>)
    ensures forall e :: e in ScanFiles(files, dirs, fs, overrides).0 ==> e.Out?
    decreases |fs|
  {
    if fs != [] {
      ScanOutputOnly(files, dirs, fs[..|fs| - 1], overrides);
      var last := fs[|fs| - 1];
      if last in files {
        LineReportsOutputOnly(last, Lines(files[last]), overrides);
      }
    }
  }

  lemma {:induction false} LineReportsOutputOnly(f: string, ls: seq<string>, overrides: seq<string>)
    ensures forall e :: e in LineReports(f, ls, overrides) ==> e.Out?
    decreases |ls|
  {
    if ls != [] {
      LineReportsOutputOnly(f, ls[..|ls| - 1], overrides);
    }
  }

  /** The audit's one command is its own `dh_listpackages`; it leaves the
      filesystem alone. */
  lemma AuditCommands(env: Env, w: World, listing: string, globs: string -> seq<string>,
                      loaded: seq<string>, statusOf: Command -> nat)
    ensures var (flow, w') := CheckRubygemsSpec(env, w, listing, globs, loaded, statusOf);
      && Commands(w'.log) == Commands(w.log) + (if NoCheck(env) then [] else [ListPackages])
      && w'.files == w.files && w'.dirs == w.dirs
  {
    if !NoCheck(env) {
      var fs := Globbed(PackageLines(listing), globs);
      var overrides := Overrides(w, loaded);
      var w1 := RunCommand(w, ListPackages, statusOf);
      CommandsAppend(w.log, [Run(ListPackages)]);
      assert Commands([Run(ListPackages)]) == [ListPackages];
      var (evs, err) := ScanFiles(w.files, w.dirs, fs, overrides);
      var w2 := w1.(log := w1.log + evs);
      ScanOutputOnly(w.files, w.dirs, fs, overrides);
      OutputRunsNothing(evs);
      CommandsAppend(w1.log, evs);
      assert Commands(w2.log) == Commands(w.log) + [ListPackages];
      if err.None? && evs != [] {
        SummaryThenHandler(env, w2);
        assert CheckRubygemsSpec(env, w, listing, globs, loaded, statusOf) ==
          HandleTestFailureSpec(env, AUDIT_TEST, Say(w2, SUMMARY));
      }
    }
  }

  lemma SummaryThenHandler(env: Env, w: World)
    ensures var (flow, w') := HandleTestFailureSpec(env, AUDIT_TEST, Say(w, SUMMARY));
      Commands(w'.log) == Commands(w.log) && w'.files == w.files && w'.dirs == w.dirs
  {
    CommandsAppend(w.log, [Out(Puts(SUMMARY))]);
    OutputRunsNothing([Out(Puts(SUMMARY))]);
    HandlerRunsNothing(env, AUDIT_TEST, Say(w, SUMMARY));
  }
}
