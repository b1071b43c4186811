/** `DhRuby#update_shebangs` and `DhRuby#atomic_rewrite`: every installed
    program of a package gets a `#!` line naming the interpreter of the
    package's Ruby version, and each file is replaced through a temporary
    file and a rename. */
module Shebang {
  import opened Text
  import opened Host
  import opened Variants

  /** The interpreter named in the shebang lines of `package`: its version's
      binary, or the `ruby1.8` binary when the version is not supported. */
  function ShebangBinary(package: string): (r: string)
    ensures RubyVersionFor(package) in SUPPORTED_VERSIONS ==> r == "/usr/bin/" + RubyVersionFor(package)
    ensures RubyVersionFor(package) !in SUPPORTED_VERSIONS ==> r == "/usr/bin/ruby1.8"
    ensures '\n' !in r
  {
    match BinaryFor(RubyVersionFor(package))
    case Some(b) => b
    case None => BinaryText(DEFAULT_RUBY_VERSION)
  }

  /** `input.gets`: the first line with its newline, nil on an empty file. */
  function FirstLine(content: string): Option<string> {
    if content == [] then None else Some(content[..LineLength(content)])
  }

  /** `input.read` after `gets`: everything after the first line. */
  function Remainder(content: string): string {
    content[LineLength(content)..]
  }

  /** What `unless old =~ /#!/; output.puts old; end` writes: nothing for an
      old shebang line; `puts nil` writes a bare newline. */
  function KeptLine(first: Option<string>): string {
    match first
    case None => "\n"
    case Some(o) => if Contains(o, "#!") then "" else Puts(o)
  }

  /** `output.puts "#!#{ruby_binary}"`. */
  function ShebangLine(binary: string): string {
    Puts("#!" + binary)
  }

  /** The block given to `atomic_rewrite` by `update_shebangs`. */
  function RewriteShebang(binary: string, content: string): (r: string)
    ensures StartsWith(r, ShebangLine(binary))
  {
    ShebangLine(binary) + KeptLine(FirstLine(content)) + Remainder(content)
  }

  lemma ShebangLineShape(binary: string)
    requires '\n' !in binary
    ensures ShebangLine(binary) == "#!" + binary + "\n"
    ensures forall j :: 0 <= j < |ShebangLine(binary)| - 1 ==> ShebangLine(binary)[j] != '\n'
    ensures Contains(ShebangLine(binary), "#!")
  {
    var l := ShebangLine(binary);
    assert ("#!" + binary)[|"#!" + binary| - 1] != '\n' by {
      if binary != [] {
        assert ("#!" + binary)[|"#!" + binary| - 1] == binary[|binary| - 1];
      }
    }
    assert HasAt(l, 0, "#!");
    forall j | 0 <= j < |l| - 1 ensures l[j] != '\n' {
      if j >= 2 {
        assert l[j] == binary[j - 2];
      }
    }
  }

  /** The original text is its first line followed by the remainder. */
  lemma FirstLineAndRemainder(content: string)
    requires content != []
    ensures FirstLine(content).value + Remainder(content) == content
  {
  }

  /** The output starts with the new shebang as its own line; after it comes
      the kept old line, then the rest of the file byte for byte. */
  lemma RewriteShape(binary: string, content: string)
    requires '\n' !in binary
    ensures var r := RewriteShebang(binary, content);
      && FirstLine(r) == Some("#!" + binary + "\n")
      && Remainder(r) == KeptLine(FirstLine(content)) + Remainder(content)
      && EndsWith(r, Remainder(content))
  {
    var s := ShebangLine(binary);
    ShebangLineShape(binary);
    var kept := KeptLine(FirstLine(content));
    SeqAssoc(s, kept, Remainder(content));
    FirstLineOfPrefix(s, kept + Remainder(content));
    EndsWithConcat(s + kept, Remainder(content));
  }

  /** A whole line in front of a text is its first line, and the text is
      what remains. */
  lemma FirstLineOfPrefix(s: string, rest: string)
    requires s != [] && s[|s| - 1] == '\n'
    requires forall j :: 0 <= j < |s| - 1 ==> s[j] != '\n'
    ensures FirstLine(s + rest) == Some(s) && Remainder(s + rest) == rest
  {
    LineLengthPrefix(s, rest);
    assert (s + rest)[..|s|] == s && (s + rest)[|s|..] == rest;
  }

  lemma EndsWithConcat(x: string, y: string)
    ensures EndsWith(x + y, y)
  {
    assert (x + y)[|x + y| - |y|..] == y;
  }

  /** The old first line is dropped exactly when it contains `#!`. */
  lemma DropsOldShebangIff(binary: string, content: string)
    requires '\n' !in binary
    ensures RewriteShebang(binary, content) == ShebangLine(binary) + Remainder(content) <==>
      FirstLine(content).Some? && Contains(FirstLine(content).value, "#!")
  {
    var kept := KeptLine(FirstLine(content));
    var r := RewriteShebang(binary, content);
    if r == ShebangLine(binary) + Remainder(content) {
      assert |kept| == 0;
    }
  }

  /** Rewriting twice gives the bytes of rewriting once. */
  lemma RewriteIdempotent(binary: string, content: string)
    requires '\n' !in binary
    ensures RewriteShebang(binary, RewriteShebang(binary, content)) == RewriteShebang(binary, content)
  {
    var s := ShebangLine(binary);
    var tail := KeptLine(FirstLine(content)) + Remainder(content);
    var r := RewriteShebang(binary, content);
    assert FirstLine(r) == Some(s) && Remainder(r) == tail by {
      RewriteShape(binary, content);
      ShebangLineShape(binary);
    }
    assert KeptLine(FirstLine(r)) == "" by {
      ShebangLineShape(binary);
    }
    assert RewriteShebang(binary, r) == s + tail by {
      assert s + "" == s;
    }
    assert r == s + tail;
  }

  /** A file that already starts with the right shebang line is left with
      identical bytes. */
  lemma CorrectShebangUnchanged(binary: string, rest: string)
    requires '\n' !in binary
    ensures RewriteShebang(binary, "#!" + binary + "\n" + rest) == "#!" + binary + "\n" + rest
  {
    var s := ShebangLine(binary);
    ShebangLineShape(binary);
    var content := s + rest;
    assert content == "#!" + binary + "\n" + rest;
    LineLengthPrefix(s, rest);
    assert content[..|s|] == s && content[|s|..] == rest;
  }

  /** How the block of `atomic_rewrite` ends: with the new contents, or by
      raising. */
  datatype BlockResult = Output(bytes: string) | Failure(error: string)

  function TmpFile(path: string): string {
    path + ".tmp"
  }

  /** `atomic_rewrite(path, &block)` as a function of the host state: the
      temporary file is created (and truncated) first; the block reads `path`;
      on success the temporary file is renamed over `path`, otherwise the
      `ensure` clause unlinks it. */
  function AtomicRewriteSpec(w: World, path: string, block: string -> BlockResult): (Flow, World) {
    var tmp := TmpFile(path);
    if tmp in w.dirs then (Raise(IS_DIRECTORY), w)
    else
      var created := w.(files := w.files[tmp := ""], log := w.log + [Write(tmp)]);
      var cleanup := created.(files := created.files - {tmp}, log := created.log + [Unlink(tmp)]);
      if path !in w.files then (Raise(ReadError(w.dirs, path)), cleanup)
      else
        match block(w.files[path])
        case Failure(e) => (Raise(e), cleanup)
        case Output(out) => (Next, created.(files := (created.files - {tmp})[path := out], log := created.log + [Rename(tmp, path)]))
  }

  /** On success `path` holds the block's output and the temporary file is
      gone. */
  lemma AtomicRewriteSucceeds(w: World, path: string, block: string -> BlockResult)
    requires TmpFile(path) !in w.dirs && path in w.files && block(w.files[path]).Output?
    ensures var (flow, w') := AtomicRewriteSpec(w, path, block);
      flow == Next && w'.files[path] == block(w.files[path]).bytes && TmpFile(path) !in w'.files
  {
  }

  /** When the block fails or `path` cannot be read, `path` is as it was and
      the temporary file is removed. */
  lemma AtomicRewriteFails(w: World, path: string, block: string -> BlockResult)
    requires TmpFile(path) !in w.dirs
    requires path !in w.files || block(w.files[path]).Failure?
    ensures var (flow, w') := AtomicRewriteSpec(w, path, block);
      && flow.Raise? && TmpFile(path) !in w'.files
      && (path in w'.files <==> path in w.files)
      && (path in w.files ==> w'.files[path] == w.files[path])
  {
  }

  /** No path other than `path` and its temporary file is touched. */
  lemma AtomicRewriteFrame(w: World, path: string, block: string -> BlockResult, p: string)
    requires p != path && p != TmpFile(path)
    ensures var (flow, w') := AtomicRewriteSpec(w, path, block);
      && (p in w'.files <==> p in w.files)
      && (p in w.files ==> w'.files[p] == w.files[p])
      && w'.dirs == w.dirs && w'.stdin == w.stdin && w'.status == w.status
  {
  }

  /** `atomic_rewrite`, with its `begin ... ensure` clause. */
  method AtomicRewrite(w: World, path: string, block: string -> BlockResult) returns (flow: Flow, w': World)
    ensures (flow, w') == AtomicRewriteSpec(w, path, block)
  {
    var tmp := path + ".tmp";
    assert |tmp| > |path|;
    if tmp in w.dirs {
      return Raise(IS_DIRECTORY), w;
    }
    w' := w.(files := w.files[tmp := ""], log := w.log + [Write(tmp)]);
    flow := Next;
    if path !in w.files {
      flow := Raise(ReadError(w.dirs, path));
    } else {
      var result := block(w.files[path]);
      match result {
        case Failure(e) =>
          flow := Raise(e);
        case Output(out) =>
          ghost var created := w';
          w' := w'.(files := w'.files[tmp := out]);
          w' := w'.(files := (w'.files - {tmp})[path := out], log := w'.log + [Rename(tmp, path)]);
          assert w'.files == (created.files - {tmp})[path := out];
      }
    }
    if tmp in w'.files {
      w' := w'.(files := w'.files - {tmp}, log := w'.log + [Unlink(tmp)]);
    }
  }

  function RewriteMessage(path: string): string {
    "Rewriting shebang line of " + path
  }

  /** The shebang block for one interpreter. */
  function ShebangBlock(binary: string): string -> BlockResult {
    content => Output(RewriteShebang(binary, content))
  }

  /** `update_shebangs(package)` over the programs `paths` that `Dir.glob`
      lists, as a function of the host state; a raise ends the loop. */
  function UpdateShebangsSpec(verbose: bool, package: string, w: World, paths: seq<string>): (Flow, World) {
    if paths == [] then (Next, w)
    else
      var (flow, w1) := UpdateShebangsSpec(verbose, package, w, paths[..|paths| - 1]);
      if !flow.Next? then (flow, w1)
      else
        var path := paths[|paths| - 1];
        var w2 := if verbose then Say(w1, RewriteMessage(path)) else w1;
        AtomicRewriteSpec(w2, path, ShebangBlock(ShebangBinary(package)))
  }

  /** `update_shebangs(package)`. */
  method UpdateShebangs(verbose: bool, package: string, w: World, paths: seq<string>) returns (flow: Flow, w': World)
    ensures (flow, w') == UpdateShebangsSpec(verbose, package, w, paths)
  {
    var binary := ShebangBinary(package);
    flow, w' := Next, w;
    for i := 0 to |paths|
      invariant (flow, w') == UpdateShebangsSpec(verbose, package, w, paths[..i]) && flow == Next
    {
      assert paths[..i + 1][..i] == paths[..i];
      var path := paths[i];
      if verbose {
        w' := Say(w', RewriteMessage(path));
      }
      flow, w' := AtomicRewrite(w', path, ShebangBlock(binary));
      if !flow.Next? {
        UpdateStops(verbose, package, w, paths, i + 1);
        return;
      }
    }
    assert paths[..|paths|] == paths;
  }

  /** A raise at one program is the outcome of the whole loop. */
  lemma {:induction false} UpdateStops(verbose: bool, package: string, w: World, paths: seq<string>, n: nat)
    requires n <= |paths| && !UpdateShebangsSpec(verbose, package, w, paths[..n]).0.Next?
    ensures UpdateShebangsSpec(verbose, package, w, paths) == UpdateShebangsSpec(verbose, package, w, paths[..n])
    decreases |paths| - n
  {
    if n < |paths| {
      assert paths[..n + 1][..n] == paths[..n];
      UpdateStops(verbose, package, w, paths, n + 1);
    } else {
      assert paths[..n] == paths;
    }
  }

  /** The programs `paths` are regular files, and no one of them is another's
      temporary file nor has a directory in the place of its own. */
  predicate Rewritable(w: World, paths: seq<string>) {
    && (forall p :: p in paths ==> p in w.files && TmpFile(p) !in w.dirs)
    && (forall p, q :: p in paths && q in paths ==> p != TmpFile(q))
  }

  /** A temporary file of one of `paths`. */
  predicate IsTmpOf(p: string, paths: seq<string>) {
    EndsWith(p, ".tmp") && p[..|p| - 4] in paths
  }

  lemma TmpFileShape(q: string)
    ensures EndsWith(TmpFile(q), ".tmp") && TmpFile(q)[..|q|] == q
  {
  }

  lemma TmpOfShape(p: string)
    requires EndsWith(p, ".tmp")
    ensures p == TmpFile(p[..|p| - 4])
  {
  }

  /** `now` is `orig` with every program of `paths` rewritten from its
      original bytes by `rewrite`, their temporary files gone, and nothing
      else changed. */
  ghost predicate Rewrote(orig: map<string, string>, now: map<string, string>, paths: seq<string>, rewrite: string -> string) {
    && (forall p :: p in paths ==> p in orig && p in now && now[p] == rewrite(orig[p]))
    && (forall p :: p !in paths && !IsTmpOf(p, paths) ==>
          (p in now <==> p in orig) && (p in orig ==> now[p] == orig[p]))
    && (forall p :: IsTmpOf(p, paths) ==> p !in now)
  }

  /** The events `update_shebangs` logs for the programs `paths` when every
      rewrite succeeds: per program in turn, the announcement when verbose,
      then its temporary file written and renamed over it. */
  function ShebangEvents(verbose: bool, paths: seq<string>): seq<Event> {
    if paths == [] then []
    else
      var q := paths[|paths| - 1];
      ShebangEvents(verbose, paths[..|paths| - 1])
        + (if verbose then [Out(Puts(RewriteMessage(q)))] else [])
        + [Write(TmpFile(q)), Rename(TmpFile(q), q)]
  }

  /** One successful rewrite of the shebang loop. */
  lemma ShebangStep(w: World, q: string, binary: string)
    requires q in w.files && TmpFile(q) !in w.dirs
    ensures var r := AtomicRewriteSpec(w, q, ShebangBlock(binary));
      && r.0 == Next && r.1.dirs == w.dirs
      && r.1.files == (w.files - {TmpFile(q)})[q := RewriteShebang(binary, w.files[q])]
      && r.1.log == w.log + [Write(TmpFile(q)), Rename(TmpFile(q), q)]
  {
    var tmp := TmpFile(q);
    var created := w.files[tmp := ""];
    assert (created - {tmp})[q := RewriteShebang(binary, w.files[q])] ==
      (w.files - {tmp})[q := RewriteShebang(binary, w.files[q])];
  }

  /** Rewriting one more program keeps `Rewrote`; since `rewrite` is
      idempotent, a program met again ends with the same bytes. */
  lemma RewroteStep(orig: map<string, string>, now: map<string, string>, init: seq<string>, paths: seq<string>,
                    q: string, rewrite: string -> string)
    requires paths == init + [q] && q in orig
    requires forall c :: rewrite(rewrite(c)) == rewrite(c)
    requires forall p, r :: p in paths && r in paths ==> p != TmpFile(r)
    requires Rewrote(orig, now, init, rewrite)
    ensures q in now
    ensures Rewrote(orig, (now - {TmpFile(q)})[q := rewrite(now[q])], paths, rewrite)
  {
    assert forall p :: p in paths <==> p in init || p == q;
    StepReadsOriginal(orig, now, init, paths, q, rewrite);
    var now' := (now - {TmpFile(q)})[q := rewrite(now[q])];
    StepPrograms(orig, now, now', init, paths, q, rewrite);
    StepOthers(orig, now, now', init, paths, q, rewrite);
    StepTmps(orig, now, now', init, paths, q, rewrite);
  }

  lemma StepReadsOriginal(orig: map<string, string>, now: map<string, string>, init: seq<string>, paths: seq<string>,
                          q: string, rewrite: string -> string)
    requires (forall p :: p in paths <==> p in init || p == q) && q in orig
    requires forall c :: rewrite(rewrite(c)) == rewrite(c)
    requires forall p, r :: p in paths && r in paths ==> p != TmpFile(r)
    requires Rewrote(orig, now, init, rewrite)
    ensures q in now && rewrite(now[q]) == rewrite(orig[q])
  {
    if q in init {
      assert rewrite(now[q]) == rewrite(rewrite(orig[q]));
    }
  }

  lemma StepPrograms(orig: map<string, string>, now: map<string, string>, now': map<string, string>,
                     init: seq<string>, paths: seq<string>, q: string, rewrite: string -> string)
    requires (forall p :: p in paths <==> p in init || p == q) && q in orig
    requires forall p, r :: p in paths && r in paths ==> p != TmpFile(r)
    requires Rewrote(orig, now, init, rewrite) && q in now
    requires now' == (now - {TmpFile(q)})[q := rewrite(now[q])] && rewrite(now[q]) == rewrite(orig[q])
    ensures forall p :: p in paths ==> p in orig && p in now' && now'[p] == rewrite(orig[p])
  {
    forall p | p in paths ensures p in orig && p in now' && now'[p] == rewrite(orig[p]) {
      assert p != TmpFile(q);
    }
  }

  lemma StepOthers(orig: map<string, string>, now: map<string, string>, now': map<string, string>,
                   init: seq<string>, paths: seq<string>, q: string, rewrite: string -> string)
    requires (forall p :: p in paths <==> p in init || p == q) && q in orig
    requires Rewrote(orig, now, init, rewrite) && q in now
    requires now' == (now - {TmpFile(q)})[q := rewrite(now[q])]
    ensures forall p :: p !in paths && !IsTmpOf(p, paths) ==>
      (p in now' <==> p in orig) && (p in orig ==> now'[p] == orig[p])
  {
    forall p | p !in paths && !IsTmpOf(p, paths)
      ensures (p in now' <==> p in orig) && (p in orig ==> now'[p] == orig[p])
    {
      TmpFileShape(q);
      assert p != TmpFile(q);
      assert !IsTmpOf(p, init);
    }
  }

  lemma StepTmps(orig: map<string, string>, now: map<string, string>, now': map<string, string>,
                 init: seq<string>, paths: seq<string>, q: string, rewrite: string -> string)
    requires (forall p :: p in paths <==> p in init || p == q)
    requires forall p, r :: p in paths && r in paths ==> p != TmpFile(r)
    requires Rewrote(orig, now, init, rewrite) && q in now
    requires now' == (now - {TmpFile(q)})[q := rewrite(now[q])]
    ensures forall p :: IsTmpOf(p, paths) ==> p !in now'
  {
    forall p | IsTmpOf(p, paths) ensures p !in now' {
      TmpOfShape(p);
      assert p != q;
      if p[..|p| - 4] != q {
        assert IsTmpOf(p, init);
      }
    }
  }

  /** The shebang transform for one interpreter, as a value. */
  function ShebangRewrite(binary: string): string -> string {
    c => RewriteShebang(binary, c)
  }

  /** Over rewritable programs the loop succeeds, every program ends with the
      shebang rewrite of its original bytes (a program listed twice too), and
      no other file changes apart from the temporary files, which are gone. */
  lemma {:induction false} UpdateShebangsRewritesAll(verbose: bool, package: string, w: World, paths: seq<string>)
    requires Rewritable(w, paths)
    ensures var (flow, w') := UpdateShebangsSpec(verbose, package, w, paths);
      && flow == Next && w'.dirs == w.dirs
      && Rewrote(w.files, w'.files, paths, ShebangRewrite(ShebangBinary(package)))
    decreases |paths|
  {
    if paths != [] {
      var binary := ShebangBinary(package);
      var rewrite := ShebangRewrite(binary);
      var init := paths[..|paths| - 1];
      var q := paths[|paths| - 1];
      assert paths == init + [q];
      assert forall p :: p in init ==> p in paths;
      assert Rewritable(w, init);
      UpdateShebangsRewritesAll(verbose, package, w, init);
      var w1 := UpdateShebangsSpec(verbose, package, w, init).1;
      var w2 := if verbose then Say(w1, RewriteMessage(q)) else w1;
      assert w2.files == w1.files && w2.dirs == w.dirs;
      forall c ensures rewrite(rewrite(c)) == rewrite(c) {
        RewriteIdempotent(binary, c);
      }
      RewroteStep(w.files, w1.files, init, paths, q, rewrite);
      ShebangStep(w2, q, binary);
      assert UpdateShebangsSpec(verbose, package, w, paths) == AtomicRewriteSpec(w2, q, ShebangBlock(binary));
    }
  }

  /** Over rewritable programs the loop logs exactly `ShebangEvents`: the
      programs are rewritten one after the other, in the order `Dir.glob`
      lists them, each renamed into place before the next one is opened. */
  lemma {:induction false} UpdateShebangsLog(verbose: bool, package: string, w: World, paths: seq<string>)
    requires Rewritable(w, paths)
    ensures var r := UpdateShebangsSpec(verbose, package, w, paths);
      r.0 == Next && r.1.log == w.log + ShebangEvents(verbose, paths)
    decreases |paths|
  {
    if paths != [] {
      var init := paths[..|paths| - 1];
      var q := paths[|paths| - 1];
      assert paths == init + [q];
      assert forall p :: p in init ==> p in paths;
      assert Rewritable(w, init);
      UpdateShebangsLog(verbose, package, w, init);
      var w1 := UpdateShebangsSpec(verbose, package, w, init).1;
      assert UpdateShebangsSpec(verbose, package, w, init).0 == Next;
      NextProgramReady(verbose, package, w, init, paths, q);
      var w2 := if verbose then Say(w1, RewriteMessage(q)) else w1;
      var say: seq<Event> := if verbose then [Out(Puts(RewriteMessage(q)))] else [];
      assert w2.log == w.log + ShebangEvents(verbose, init) + say;
      ShebangStep(w2, q, ShebangBinary(package));
      assert UpdateShebangsSpec(verbose, package, w, paths) == AtomicRewriteSpec(w2, q, ShebangBlock(ShebangBinary(package)));
      assert ShebangEvents(verbose, paths) == ShebangEvents(verbose, init) + say + [Write(TmpFile(q)), Rename(TmpFile(q), q)];
      AppendThree(w.log, ShebangEvents(verbose, init), say, [Write(TmpFile(q)), Rename(TmpFile(q), q)]);
    }
  }

  lemma AppendThree<T>(a: seq<T>, b: seq<T>, c: seq<T>, d: seq<T>)
    ensures a + (b + c + d) == a + b + c + d
  {
  }

  /** After the earlier programs of a rewritable list, the next one is still
      a regular file with no directory in the place of its temporary file. */
  lemma NextProgramReady(verbose: bool, package: string, w: World, init: seq<string>, paths: seq<string>, q: string)
    requires paths == init + [q] && Rewritable(w, paths) && Rewritable(w, init)
    ensures var w1 := UpdateShebangsSpec(verbose, package, w, init).1;
      w1.dirs == w.dirs && q in w1.files
  {
    var w1 := UpdateShebangsSpec(verbose, package, w, init).1;
    UpdateShebangsRewritesAll(verbose, package, w, init);
    RewroteKeeps(w.files, w1.files, init, paths, q, ShebangRewrite(ShebangBinary(package)));
  }

  /** A program still present after the earlier rewrites: either it was
      rewritten in place, or, being no temporary file, it was left alone. */
  lemma RewroteKeeps(orig: map<string, string>, now: map<string, string>, init: seq<string>, paths: seq<string>,
                     q: string, rewrite: string -> string)
    requires paths == init + [q] && q in orig
    requires forall p, r :: p in paths && r in paths ==> p != TmpFile(r)
    requires Rewrote(orig, now, init, rewrite)
    ensures q in now
  {
    if q !in init && EndsWith(q, ".tmp") {
      var r := q[..|q| - 4];
      TmpOfShape(q);
      assert q in paths;
      assert r !in paths;
      assert !IsTmpOf(q, init);
    }
  }

  /** Rewriting programs starts no command and leaves `$?` and standard
      input alone. */
  lemma {:induction false} UpdateShebangsRunsNothing(verbose: bool, package: string, w: World, paths: seq<string>)
    ensures var (flow, w') := UpdateShebangsSpec(verbose, package, w, paths);
      Commands(w'.log) == Commands(w.log) && w'.status == w.status && w'.stdin == w.stdin
    decreases |paths|
  {
    if paths != [] {
      var init := paths[..|paths| - 1];
      var q := paths[|paths| - 1];
      UpdateShebangsRunsNothing(verbose, package, w, init);
      var (flow1, w1) := UpdateShebangsSpec(verbose, package, w, init);
      if flow1.Next? {
        var w2 := if verbose then Say(w1, RewriteMessage(q)) else w1;
        if verbose {
          CommandsAppend(w1.log, [Out(Puts(RewriteMessage(q)))]);
        }
        assert Commands(w2.log) == Commands(w1.log);
        AtomicRewriteRunsNothing(w2, q, ShebangBlock(ShebangBinary(package)));
      }
    }
  }

  lemma AtomicRewriteRunsNothing(w: World, path: string, block: string -> BlockResult)
    ensures var (flow, w') := AtomicRewriteSpec(w, path, block);
      Commands(w'.log) == Commands(w.log) && w'.status == w.status && w'.stdin == w.stdin
  {
    var tmp := TmpFile(path);
    CommandsAppend(w.log, [Write(tmp)]);
    CommandsAppend(w.log + [Write(tmp)], [Unlink(tmp)]);
    CommandsAppend(w.log + [Write(tmp)], [Rename(tmp, path)]);
  }
}
