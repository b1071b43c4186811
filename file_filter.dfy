/** `DhRuby#find_files`: the files of `bin/` or `lib/` that get installed.
    The recursive walk (`Find.find`) is an input; the model decides which of
    its entries are kept and which are reported as excluded. */
module FileFilter {
  import opened Text
  import opened Host

  /** JUNK_FILES: build and version-control leftovers. */
  const JUNK_FILES: seq<string> := ["RCSLOG", "tags", "TAGS", ".make.state", ".nse_depinfo"]

  /** The four formats of HOOK_FILES, as (text before `%s`, text after `%s`). */
  const HOOK_FORMATS: seq<(string, string)> := [("pre-", ""), ("post-", ""), ("pre-", ".rb"), ("post-", ".rb")]

  const HOOK_STAGES: seq<string> := ["config", "setup", "install", "clean"]

  function Flatten(ss: seq<seq<string>>): (r: seq<string>)
    ensures |ss| == 0 ==> r == []
  {
    if ss == [] then [] else ss[0] + Flatten(ss[1..])
  }

  /** One format applied to every stage: `%w(...).map { |t| sprintf(fmt, t) }`. */
  function HookRow(fmt: (string, string)): seq<string> {
    seq(|HOOK_STAGES|, j requires 0 <= j < |HOOK_STAGES| => fmt.0 + HOOK_STAGES[j] + fmt.1)
  }

  /** HOOK_FILES: every format over every stage, flattened. */
  function HookFiles(): seq<string> {
    Flatten(seq(|HOOK_FORMATS|, i requires 0 <= i < |HOOK_FORMATS| => HookRow(HOOK_FORMATS[i])))
  }

  lemma FlattenFour(rows: seq<seq<string>>)
    requires |rows| == 4
    ensures Flatten(rows) == rows[0] + rows[1] + rows[2] + rows[3]
  {
    var r1, r2, r3 := rows[1..], rows[2..], rows[3..];
    assert r1[0] == rows[1] && r1[1..] == r2;
    assert r2[0] == rows[2] && r2[1..] == r3;
    assert r3[0] == rows[3] && r3[1..] == [];
    assert Flatten(r3) == rows[3] + Flatten([]);
    assert Flatten(r2) == rows[2] + Flatten(r3);
    assert Flatten(r1) == rows[1] + Flatten(r2);
    assert Flatten(rows) == rows[0] + Flatten(r1);
  }

  /** HOOK_FILES holds exactly the 16 names `{pre,post}-{config,setup,install,clean}[.rb]`. */
  lemma HookFilesAre(name: string)
    ensures |HookFiles()| == 16
    ensures name in HookFiles() <==>
      exists i, j | 0 <= i < 4 && 0 <= j < 4 :: name == HOOK_FORMATS[i].0 + HOOK_STAGES[j] + HOOK_FORMATS[i].1
  {
    HookFilesIndex();
    var all := HookFiles();
    if name in all {
      var k :| 0 <= k < 16 && all[k] == name;
      assert name == HOOK_FORMATS[k / 4].0 + HOOK_STAGES[k % 4] + HOOK_FORMATS[k / 4].1;
    }
    if exists i, j | 0 <= i < 4 && 0 <= j < 4 :: name == HOOK_FORMATS[i].0 + HOOK_STAGES[j] + HOOK_FORMATS[i].1 {
      var i, j :| 0 <= i < 4 && 0 <= j < 4 && name == HOOK_FORMATS[i].0 + HOOK_STAGES[j] + HOOK_FORMATS[i].1;
      assert (4 * i + j) / 4 == i && (4 * i + j) % 4 == j;
      assert all[4 * i + j] == name;
    }
  }

  /** Entry `k` of HOOK_FILES is format `k / 4` applied to stage `k % 4`. */
  lemma HookFilesIndex()
    ensures |HookFiles()| == 16
    ensures forall k | 0 <= k < 16 :: HookFiles()[k] == HOOK_FORMATS[k / 4].0 + HOOK_STAGES[k % 4] + HOOK_FORMATS[k / 4].1
  {
    var rows := seq(|HOOK_FORMATS|, i requires 0 <= i < |HOOK_FORMATS| => HookRow(HOOK_FORMATS[i]));
    var all := rows[0] + rows[1] + rows[2] + rows[3];
    assert HookFiles() == all by {
      FlattenFour(rows);
    }
    forall k | 0 <= k < 16 ensures all[k] == rows[k / 4][k % 4] {
      if k < 4 { assert all[k] == rows[0][k]; }
      else if k < 8 { assert all[k] == rows[1][k - 4]; }
      else if k < 12 { assert all[k] == rows[2][k - 8]; }
      else { assert all[k] == rows[3][k - 12]; }
    }
  }

  /** The shapes of JUNK_PATTERNS: a literal after `^`, or one of some
      literals before `$`. */
  datatype Pattern = LineStart(lit: string) | LineEnd(alts: seq<string>)

  predicate PatternMatches(p: Pattern, s: string) {
    match p
    case LineStart(lit) => MatchesAtLineStart(s, lit)
    case LineEnd(alts) => exists k | 0 <= k < |alts| :: MatchesAtLineEnd(s, alts[k])
  }

  /** JUNK_PATTERNS, in order. The pattern `^\.del-*` is `^\.del` (the dashes
      may be absent) and `^_\$` is the two characters `_$` after `^`. */
  const JUNK_PATTERNS: seq<Pattern> := [
    LineStart("#"), LineStart(".#"), LineStart("cvslog"), LineStart(","), LineStart(".del"),
    LineEnd([".olb"]), LineEnd(["~"]), LineEnd([".old", ".bak", ".BAK", ".orig", ".rej"]),
    LineStart("_$"), LineEnd(["$"]), LineEnd([".org"]), LineEnd([".in"]), LineStart(".")]

  /** A basename the junk, hook and pattern rules exclude. */
  predicate IsJunkName(fb: string) {
    fb in JUNK_FILES + HookFiles() ||
    exists k | 0 <= k < |JUNK_PATTERNS| :: PatternMatches(JUNK_PATTERNS[k], fb)
  }

  /** Every dotfile, and every name ending in `~` or `$`, is junk. */
  lemma DotfilesAndBackupsAreJunk(fb: string)
    requires StartsWith(fb, ".") || EndsWith(fb, "~") || EndsWith(fb, "$")
    ensures IsJunkName(fb)
  {
    if StartsWith(fb, ".") {
      StartsWithMatchesAtLineStart(fb, ".");
      assert PatternMatches(JUNK_PATTERNS[12], fb);
    } else if EndsWith(fb, "~") {
      EndsWithMatchesAtLineEnd(fb, "~");
      assert LineEnd(["~"]).alts[0] == "~";
      assert PatternMatches(JUNK_PATTERNS[6], fb);
    } else {
      EndsWithMatchesAtLineEnd(fb, "$");
      assert LineEnd(["$"]).alts[0] == "$";
      assert PatternMatches(JUNK_PATTERNS[9], fb);
    }
  }

  /** `f.gsub(/^\.\//, '')`: `./` is removed wherever a line starts. */
  function DropDotSlash(f: string, atLineStart: bool): (r: string)
    ensures |r| <= |f|
    decreases |f|
  {
    if f == [] then []
    else if atLineStart && StartsWith(f, "./") then DropDotSlash(f[2..], false)
    else [f[0]] + DropDotSlash(f[1..], f[0] == '\n')
  }

  lemma DropDotSlashOfWalkEntry(rel: string)
    requires '\n' !in rel && !StartsWith(rel, "./")
    ensures DropDotSlash("./" + rel, true) == rel
  {
    var f := "./" + rel;
    assert f[2..] == rel;
    NoLineStartUnchanged(rel);
  }

  lemma {:induction false} NoLineStartUnchanged(s: string)
    requires '\n' !in s
    ensures DropDotSlash(s, false) == s
    decreases |s|
  {
    if s != [] {
      assert s[0] != '\n';
      NoLineStartUnchanged(s[1..]);
    }
  }

  /** The walk with `./` removed from each entry, in walk order. */
  function Relative(walk: seq<string>): (r: seq<string>)
    ensures |r| == |walk|
  {
    if walk == [] then [] else Relative(walk[..|walk| - 1]) + [DropDotSlash(walk[|walk| - 1], true)]
  }

  /** `files = files - ['.']`: the enumeration find_files filters. */
  function Entries(walk: seq<string>): seq<string> {
    Difference(Relative(walk), ["."])
  }

  /** The accept pattern excludes a regular file whose relative path it does
      not match (`f.match(accept_pattern).nil?`); directories it never excludes. */
  predicate RejectedByPattern(w: World, dir: string, f: string, accept: Option<string -> bool>) {
    dir + "/" + f in w.files && accept.Some? && !accept.value(f)
  }

  predicate Retained(w: World, dir: string, f: string, accept: Option<string -> bool>) {
    !IsJunkName(Basename(f)) && !RejectedByPattern(w, dir, f, accept)
  }

  /** The retention test for one call of find_files, as a value. */
  function Keeper(w: World, dir: string, accept: Option<string -> bool>): string -> bool {
    f => Retained(w, dir, f, accept)
  }

  /** The entries that pass `keep`, in order. */
  function Kept(keep: string -> bool, fs: seq<string>): seq<string> {
    if fs == [] then []
    else
      var last := fs[|fs| - 1];
      Kept(keep, fs[..|fs| - 1]) + (if keep(last) then [last] else [])
  }

  /** The entries that fail `keep`, in order. */
  function Dropped(keep: string -> bool, fs: seq<string>): seq<string> {
    if fs == [] then []
    else
      var last := fs[|fs| - 1];
      Dropped(keep, fs[..|fs| - 1]) + (if keep(last) then [] else [last])
  }

  function WarningText(f: string): string {
    "WARNING: excluded file: " + f
  }

  function Warnings(fs: seq<string>): (r: seq<Event>)
    ensures |r| == |fs|
  {
    if fs == [] then [] else Warnings(fs[..|fs| - 1]) + [Out(Puts(WarningText(fs[|fs| - 1])))]
  }

  /** Kept and dropped entries split the enumeration: each entry lands on
      exactly one side. */
  lemma {:induction false} KeptDroppedPartition(keep: string -> bool, fs: seq<string>)
    ensures multiset(Kept(keep, fs)) + multiset(Dropped(keep, fs)) == multiset(fs)
    decreases |fs|
  {
    if fs != [] {
      var init := fs[..|fs| - 1];
      KeptDroppedPartition(keep, init);
      assert fs == init + [fs[|fs| - 1]];
    }
  }

  /** The kept entries keep their original order. */
  lemma {:induction false} KeptIsSubsequence(keep: string -> bool, fs: seq<string>)
    ensures IsSubsequence(Kept(keep, fs), fs)
    decreases |fs|
  {
    if fs != [] {
      var init := fs[..|fs| - 1];
      var last := fs[|fs| - 1];
      KeptIsSubsequence(keep, init);
      assert fs == init + [last];
      assert Kept(keep, fs) == if keep(last) then Kept(keep, init) + [last] else Kept(keep, init);
      SubsequenceAppend(Kept(keep, init), init, last, keep(last));
    }
  }

  /** An entry is kept exactly when it passes the test; a dropped one fails it. */
  lemma {:induction false} KeptMembership(keep: string -> bool, fs: seq<string>)
    ensures forall f :: f in Kept(keep, fs) ==> keep(f)
    ensures forall f :: f in Dropped(keep, fs) ==> !keep(f)
    ensures forall f :: f in fs ==> (f in Kept(keep, fs) <==> keep(f))
    decreases |fs|
  {
    if fs != [] {
      var init := fs[..|fs| - 1];
      KeptMembership(keep, init);
      assert fs == init + [fs[|fs| - 1]];
    }
  }

  /** Ruby's `files - files2` reports exactly the dropped entries. */
  lemma {:induction false} DifferenceIsDropped(keep: string -> bool, fs: seq<string>)
    ensures Difference(fs, Kept(keep, fs)) == Dropped(keep, fs)
  {
    KeptMembership(keep, fs);
    DifferenceByMembership(keep, fs, Kept(keep, fs));
  }

  lemma {:induction false} DifferenceByMembership(keep: string -> bool, fs: seq<string>, b: seq<string>)
    requires forall f :: f in fs ==> (f in b <==> keep(f))
    ensures Difference(fs, b) == Dropped(keep, fs)
    decreases |fs|
  {
    if fs != [] {
      var init, last := fs[..|fs| - 1], fs[|fs| - 1];
      assert fs == init + [last];
      assert last in b <==> keep(last);
      assert Difference(init, b) == Dropped(keep, init) by {
        assert forall f :: f in init ==> f in fs;
        DifferenceByMembership(keep, init, b);
      }
      DifferenceSnoc(init, last, b);
    }
  }

  lemma {:induction false} DifferenceSnoc(a: seq<string>, x: string, b: seq<string>)
    ensures Difference(a + [x], b) == Difference(a, b) + (if x in b then [] else [x])
    decreases |a|
  {
    if a == [] {
      assert [] + [x] == [x] && [x][1..] == [];
    } else {
      assert (a + [x])[1..] == a[1..] + [x];
      DifferenceSnoc(a[1..], x, b);
    }
  }

  /** What find_files returns and prints, as a function of its inputs. */
  function FindFilesSpec(w: World, dir: string, walk: seq<string>, accept: Option<string -> bool>): (seq<string>, seq<Event>) {
    var fs := Entries(walk);
    (Kept(Keeper(w, dir, accept), fs), Warnings(Dropped(Keeper(w, dir, accept), fs)))
  }

  /** The promise find_files keeps: its result is an order-preserving
      subsequence of the walk without `.`; together with the warned
      entries it is the whole walk; no kept entry has a junk basename; and an
      entry is dropped for its path only when it is a regular file that the
      accept pattern does not match. */
  lemma FindFilesPromise(w: World, dir: string, walk: seq<string>, accept: Option<string -> bool>)
    ensures var (kept, warnings) := FindFilesSpec(w, dir, walk, accept);
      var fs := Entries(walk);
      && "." !in fs
      && IsSubsequence(kept, fs)
      && |kept| + |warnings| == |fs|
      && multiset(kept) + multiset(Dropped(Keeper(w, dir, accept), fs)) == multiset(fs)
      && (forall f :: f in kept ==> !IsJunkName(Basename(f)))
      && (forall f :: f in fs && !IsJunkName(Basename(f)) && dir + "/" + f !in w.files ==> f in kept)
      && (forall f :: f in fs && !IsJunkName(Basename(f)) ==>
            (f !in kept <==> dir + "/" + f in w.files && accept.Some? && !accept.value(f)))
  {
    var fs := Entries(walk);
    var keep := Keeper(w, dir, accept);
    KeptDroppedPartition(keep, fs);
    KeptIsSubsequence(keep, fs);
    KeptMembership(keep, fs);
    assert |multiset(Kept(keep, fs))| + |multiset(Dropped(keep, fs))| == |multiset(fs)|;
  }

  /** `find_files(dir, accept_pattern)`: collect the walk, drop `.`, filter,
      and warn about every entry left out. */
  method FindFiles(w: World, dir: string, walk: seq<string>, accept: Option<string -> bool>)
    returns (files2: seq<string>, warnings: seq<Event>)
    ensures (files2, warnings) == FindFilesSpec(w, dir, walk, accept)
  {
    var files := CollectWalk(walk);
    files := Difference(files, ["."]);
    files2 := FilterEntries(w, dir, files, accept);
    var excluded := Difference(files, files2);
    DifferenceIsDropped(Keeper(w, dir, accept), files);
    warnings := WarnExcluded(excluded);
  }

  /** The `Find.find` block: every entry, with `./` removed. */
  method CollectWalk(walk: seq<string>) returns (files: seq<string>)
    ensures files == Relative(walk)
  {
    files := [];
    for i := 0 to |walk|
      invariant files == Relative(walk[..i])
    {
      assert walk[..i + 1][..i] == walk[..i];
      files := files + [DropDotSlash(walk[i], true)];
    }
    assert walk[..|walk|] == walk;
  }

  /** The `files.reject` block: junk names, hook names, junk patterns and, for
      regular files, the accept pattern. */
  method FilterEntries(w: World, dir: string, files: seq<string>, accept: Option<string -> bool>)
    returns (files2: seq<string>)
    ensures files2 == Kept(Keeper(w, dir, accept), files)
  {
    ghost var keep := Keeper(w, dir, accept);
    files2 := [];
    for i := 0 to |files|
      invariant files2 == Kept(keep, files[..i])
    {
      var f := files[i];
      var rejected := Rejects(w, dir, f, accept);
      KeptStep(keep, files, i);
      KeeperIsRetained(w, dir, accept, f);
      if !rejected {
        files2 := files2 + [f];
      }
    }
    assert files[..|files|] == files;
  }

  /** One more entry: it is kept exactly when it passes. */
  lemma KeptStep(keep: string -> bool, fs: seq<string>, i: nat)
    requires i < |fs|
    ensures Kept(keep, fs[..i + 1]) == Kept(keep, fs[..i]) + (if keep(fs[i]) then [fs[i]] else [])
  {
    assert fs[..i + 1][..i] == fs[..i];
  }

  lemma KeeperIsRetained(w: World, dir: string, accept: Option<string -> bool>, f: string)
    ensures Keeper(w, dir, accept)(f) == Retained(w, dir, f, accept)
  {
  }

  /** One evaluation of the `reject` block, with its three early `next`s. */
  method Rejects(w: World, dir: string, f: string, accept: Option<string -> bool>) returns (rejected: bool)
    ensures rejected == !Retained(w, dir, f, accept)
  {
    var fb := Basename(f);
    if fb in JUNK_FILES + HookFiles() {
      return true;
    }
    if exists k | 0 <= k < |JUNK_PATTERNS| :: PatternMatches(JUNK_PATTERNS[k], fb) {
      return true;
    }
    if dir + "/" + f in w.files && accept.Some? && !accept.value(f) {
      return true;
    }
    return false;
  }

  /** `excluded.each { |f| puts "WARNING: excluded file: #{f}" }`. */
  method WarnExcluded(excluded: seq<string>) returns (warnings: seq<Event>)
    ensures warnings == Warnings(excluded)
  {
    warnings := [];
    for i := 0 to |excluded|
      invariant warnings == Warnings(excluded[..i])
    {
      assert excluded[..i + 1][..i] == excluded[..i];
      warnings := warnings + [Out(Puts(WarningText(excluded[i])))];
    }
    assert excluded[..|excluded|] == excluded;
  }

  /** The warnings only write to standard output. */
  lemma {:induction false} WarningsAreOutput(fs: seq<string>)
    ensures forall e :: e in Warnings(fs) ==> e.Out?
    decreases |fs|
  {
    if fs != [] {
      WarningsAreOutput(fs[..|fs| - 1]);
    }
  }
}
