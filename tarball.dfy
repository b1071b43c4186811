/** The names `dh-make-ruby` derives from an upstream tarball name in
    `DhMakeRuby#initialize`: gem name, gem version, source package name and
    the name of the `.orig.tar.gz` tarball. */
module Tarball {
  import opened Text

  datatype Result<T> = Ok(value: T) | Failure(error: string)

  /** `source_package_name=`: every `_` becomes `-`. */
  function NormaliseSourceName(value: string): (r: string)
    ensures |r| == |value| && '_' !in r
    ensures forall k :: 0 <= k < |value| && value[k] != '_' ==> r[k] == value[k]
  {
    var r := ReplaceChar(value, '_', '-');
    assert forall k :: 0 <= k < |r| ==> r[k] != '_';
    r
  }

  /** Storing a name twice stores the same name. */
  lemma NormaliseIdempotent(value: string)
    ensures NormaliseSourceName(NormaliseSourceName(value)) == NormaliseSourceName(value)
  {
    var once := NormaliseSourceName(value);
    var twice := NormaliseSourceName(once);
    assert forall k :: 0 <= k < |once| ==> twice[k] == once[k];
  }

  /** A name `_`-free already is stored as given. */
  lemma NormaliseKeepsClean(value: string)
    requires '_' !in value
    ensures NormaliseSourceName(value) == value
  {
    var r := NormaliseSourceName(value);
    assert forall k :: 0 <= k < |value| ==> value[k] != '_' && r[k] == value[k];
  }

  const ORIG_SUFFIX: string := ".orig.tar.gz"

  const TAR_SUFFIX: string := ".tar.gz"

  /** `s` matches the regular-expression text `pat`, where every `.` stands
      for any character but a newline and every other character for itself. */
  predicate Fits(s: string, pat: string) {
    |s| == |pat| && forall k :: 0 <= k < |pat| ==> if pat[k] == '.' then s[k] != '\n' else s[k] == pat[k]
  }

  /** `name =~ /^(.*)<sep>(.*)<suffix>$/` on a one-line name: the greedy
      first group ends at the last `sep` before the fixed-width suffix. */
  function SplitForm(name: string, sep: char, suffix: string): (r: Option<(string, string)>)
    ensures r.Some? ==>
      && |suffix| < |name| && Fits(name[|name| - |suffix|..], suffix)
      && name == r.value.0 + [sep] + r.value.1 + name[|name| - |suffix|..]
      && sep !in r.value.1
  {
    if '\n' in name || |name| <= |suffix| || !Fits(name[|name| - |suffix|..], suffix) then None
    else
      var m := name[..|name| - |suffix|];
      match LastIndexOf(m, sep)
      case None => None
      case Some(k) =>
        assert m == m[..k] + [sep] + m[k + 1..];
        assert name == m + name[|name| - |suffix|..];
        Some((m[..k], m[k + 1..]))
  }

  /** The form fails to match exactly when the name has a line break, is too
      short, lacks the suffix, or has no separator before it. */
  lemma SplitFormNone(name: string, sep: char, suffix: string)
    ensures SplitForm(name, sep, suffix).None? <==>
      '\n' in name || |name| <= |suffix| || !Fits(name[|name| - |suffix|..], suffix) ||
      sep !in name[..|name| - |suffix|]
  {
  }

  /** Splitting a name built from its parts gives the parts back, provided
      the version holds no separator. */
  lemma SplitFormOf(n: string, sep: char, v: string, tail: string, suffix: string)
    requires sep !in v && sep != '\n' && '\n' !in n + v && '\n' !in tail
    requires Fits(tail, suffix)
    ensures SplitForm(n + [sep] + v + tail, sep, suffix) == Some((n, v))
  {
    var name := n + [sep] + v + tail;
    assert name[|name| - |suffix|..] == tail;
    var m := name[..|name| - |suffix|];
    assert m == n + [sep] + v;
    assert '\n' !in name by {
      forall k | 0 <= k < |name| ensures name[k] != '\n' {
        if k < |n| {
          assert name[k] == (n + v)[k];
        } else if |n| < k < |n| + 1 + |v| {
          assert name[k] == (n + v)[k - 1];
        } else if k > |n| {
          assert name[k] == tail[k - |n| - 1 - |v|];
        }
      }
    }
    assert m[|n| + 1..] == v;
    LastIndexOfAt(m, sep, |n|);
    assert m[..|n|] == n;
  }

  /** `gem_name.gsub(/^ruby[-_]|[-_]ruby$/, '')` on a one-line name: a
      leading `ruby-` or `ruby_` and then a trailing `-ruby` or `_ruby` that
      does not overlap it. */
  function StripRubyAffixes(n: string): (r: string)
    ensures |r| <= |n|
  {
    var a := if StartsWith(n, "ruby-") || StartsWith(n, "ruby_") then n[5..] else n;
    if EndsWith(a, "-ruby") || EndsWith(a, "_ruby") then a[..|a| - 5] else a
  }

  /** Both affixes are stripped. */
  lemma StripBothAffixes()
    ensures StripRubyAffixes("ruby-foo-ruby") == "foo"
  {
    var a := "ruby-foo-ruby";
    assert StartsWith(a, "ruby-");
    assert a[5..] == "foo-ruby" && EndsWith("foo-ruby", "-ruby");
  }

  /** Each affix is stripped once, and the two never share characters. */
  lemma StripAffixesNoOverlap()
    ensures StripRubyAffixes("ruby-ruby") == "ruby"
  {
    var b := "ruby-ruby";
    assert StartsWith(b, "ruby-") && b[5..] == "ruby";
  }

  /** Without its separator `ruby` is not an affix. */
  lemma StripNeedsSeparator()
    ensures StripRubyAffixes("rubyfoo") == "rubyfoo"
  {
    var c := "rubyfoo";
    assert c[4] == 'f';
    assert !EndsWith(c, "-ruby") && !EndsWith(c, "_ruby") by { assert c[2] == 'b'; }
  }

  /** What `initialize` settles. */
  datatype Names = Names(gemName: string, gemVersion: string, sourcePackageName: string, origTarballName: string)

  function ErrorFor(basename: string): string {
    "Could not determine gem name and version from tarball " + basename
  }

  /** The case split of `initialize` on `File.basename(tarball)`, with the
      source package name possibly given as an option. */
  function ParseTarball(basename: string, given: Option<string>): (r: Result<Names>)
    ensures r.Ok? <==> SplitForm(basename, '_', ORIG_SUFFIX).Some? || SplitForm(basename, '-', TAR_SUFFIX).Some?
    ensures r.Failure? ==> r.error == ErrorFor(basename)
    ensures r.Ok? ==> '_' !in r.value.sourcePackageName
  {
    match SplitForm(basename, '_', ORIG_SUFFIX)
    case Some((n, v)) =>
      var src := NormaliseSourceName(if given.Some? then given.value else n);
      Ok(Names(n, v, src, basename))
    case None =>
      match SplitForm(basename, '-', TAR_SUFFIX)
      case Some((n, v)) =>
        var src := NormaliseSourceName(if given.Some? then given.value else "ruby-" + StripRubyAffixes(n));
        Ok(Names(n, v, src, src + "_" + v + ORIG_SUFFIX))
      case None => Failure(ErrorFor(basename))
  }

  /** An `N_V.orig.tar.gz` name, tried first: it is its own orig tarball, the
      gem name is `N` and the source package name `N` (or the one given),
      normalised. */
  lemma OrigForm(n: string, v: string, given: Option<string>)
    requires '_' !in v && '\n' !in n + v
    ensures var r := ParseTarball(n + "_" + v + ORIG_SUFFIX, given);
      && r.Ok?
      && r.value.gemName == n && r.value.gemVersion == v
      && r.value.origTarballName == n + "_" + v + ORIG_SUFFIX
      && r.value.sourcePackageName == NormaliseSourceName(if given.Some? then given.value else n)
  {
    SplitFormOf(n, '_', v, ORIG_SUFFIX, ORIG_SUFFIX);
  }

  /** An `N-V.tar.gz` name that is not of the orig form: the orig tarball is
      `<src>_V.orig.tar.gz` with `src` given, or `ruby-` and `N` without
      its `ruby` affixes. */
  lemma TarForm(n: string, v: string, given: Option<string>)
    requires '-' !in v && '\n' !in n + v
    requires SplitForm(n + "-" + v + TAR_SUFFIX, '_', ORIG_SUFFIX).None?
    ensures var r := ParseTarball(n + "-" + v + TAR_SUFFIX, given);
      var src := NormaliseSourceName(if given.Some? then given.value else "ruby-" + StripRubyAffixes(n));
      && r.Ok?
      && r.value.gemName == n && r.value.gemVersion == v
      && r.value.sourcePackageName == src
      && r.value.origTarballName == src + "_" + v + ORIG_SUFFIX
  {
    SplitFormOf(n, '-', v, TAR_SUFFIX, TAR_SUFFIX);
  }

  /** Any other name is refused, naming the tarball. */
  lemma OtherNamesRaise(basename: string, given: Option<string>)
    requires SplitForm(basename, '_', ORIG_SUFFIX).None? && SplitForm(basename, '-', TAR_SUFFIX).None?
    ensures ParseTarball(basename, given) == Failure(ErrorFor(basename))
  {
  }

  /** The dots of the suffixes are not escaped: any character stands in for
      them. */
  lemma DotsMatchAnything()
    ensures var r := ParseTarball("foo-1.0_tar_gz", None);
      && r.Ok? && r.value.gemName == "foo" && r.value.gemVersion == "1.0"
      && r.value.sourcePackageName == "ruby-foo"
  {
    DotsExampleForms();
    ParseTarPieces("foo-1.0_tar_gz", "foo", "1.0");
    DotsExampleSource();
  }

  lemma DotsExampleSource()
    ensures NormaliseSourceName("ruby-" + StripRubyAffixes("foo")) == "ruby-foo"
  {
    assert !StartsWith("foo", "ruby-") && !StartsWith("foo", "ruby_") && !EndsWith("foo", "-ruby") && !EndsWith("foo", "_ruby");
    NormaliseKeepsClean("ruby-foo");
  }

  lemma ParseTarPieces(name: string, n: string, v: string)
    requires SplitForm(name, '_', ORIG_SUFFIX).None? && SplitForm(name, '-', TAR_SUFFIX) == Some((n, v))
    ensures var r := ParseTarball(name, None);
      r.Ok? && r.value.gemName == n && r.value.gemVersion == v &&
      r.value.sourcePackageName == NormaliseSourceName("ruby-" + StripRubyAffixes(n))
  {
  }

  lemma DotsExampleForms()
    ensures SplitForm("foo-1.0_tar_gz", '_', ORIG_SUFFIX).None?
    ensures SplitForm("foo-1.0_tar_gz", '-', TAR_SUFFIX) == Some(("foo", "1.0"))
  {
    var n, v, tail := "foo", "1.0", "_tar_gz";
    var name := n + "-" + v + tail;
    DotsExampleSpelling();
    assert name[|name| - |ORIG_SUFFIX|..][1] != ORIG_SUFFIX[1];
    assert Fits(tail, TAR_SUFFIX);
    assert '\n' !in n + v;
    SplitFormOf(n, '-', v, tail, TAR_SUFFIX);
  }

  lemma DotsExampleSpelling()
    ensures "foo" + "-" + "1.0" + "_tar_gz" == "foo-1.0_tar_gz"
  {
  }

  lemma NormaliseNoNewline(value: string)
    requires '\n' !in value
    ensures '\n' !in NormaliseSourceName(value)
  {
    var r := NormaliseSourceName(value);
    forall k | 0 <= k < |r| ensures r[k] != '\n' {
      assert value[k] in value;
    }
  }

  lemma StripNoNewline(n: string)
    requires '\n' !in n
    ensures '\n' !in "ruby-" + StripRubyAffixes(n)
  {
    var a := if StartsWith(n, "ruby-") || StartsWith(n, "ruby_") then n[5..] else n;
    assert forall c :: c in a ==> c in n;
    assert forall c :: c in StripRubyAffixes(n) ==> c in a;
  }

  /** Running on the orig tarball it names recovers the same source package
      name and version: the derived names are stable. */
  lemma OrigNameRoundTrip(n: string, v: string, given: Option<string>)
    requires '-' !in v && '_' !in v && '\n' !in n + v
    requires SplitForm(n + "-" + v + TAR_SUFFIX, '_', ORIG_SUFFIX).None?
    requires given.Some? ==> '\n' !in given.value
    ensures var first := ParseTarball(n + "-" + v + TAR_SUFFIX, given).value;
      var again := ParseTarball(first.origTarballName, None);
      && again.Ok?
      && again.value.gemName == first.sourcePackageName
      && again.value.gemVersion == v
      && again.value.sourcePackageName == first.sourcePackageName
      && again.value.origTarballName == first.origTarballName
  {
    TarForm(n, v, given);
    var raw := if given.Some? then given.value else "ruby-" + StripRubyAffixes(n);
    assert '\n' !in n by { assert forall c :: c in n ==> c in n + v; }
    if given.None? {
      StripNoNewline(n);
    }
    var src := NormaliseSourceName(raw);
    NormaliseNoNewline(raw);
    assert '\n' !in src + v by { assert forall c :: c in src + v ==> c in src || c in v; }
    OrigForm(src, v, None);
    NormaliseKeepsClean(src);
  }

  /** `[gem_name, gem_version].join('-')`. */
  function GemDirname(names: Names): (r: string)
    ensures r == names.gemName + "-" + names.gemVersion
  {
    JoinPair(names.gemName, names.gemVersion, "-");
    Join([names.gemName, names.gemVersion], "-")
  }

  /** `[source_package_name, gem_version].join('-')`. */
  function SourceDirname(names: Names): (r: string)
    ensures r == names.sourcePackageName + "-" + names.gemVersion
  {
    JoinPair(names.sourcePackageName, names.gemVersion, "-");
    Join([names.sourcePackageName, names.gemVersion], "-")
  }

  lemma JoinPair(a: string, b: string, sep: string)
    ensures Join([a, b], sep) == a + sep + b
  {
    assert [a, b][1..] == [b];
  }

  /** For an `N-V.tar.gz` tarball, the directory the extraction is expected
      to create is the tarball name without its suffix. */
  lemma GemDirnameOfTarball(basename: string, given: Option<string>)
    requires SplitForm(basename, '_', ORIG_SUFFIX).None? && SplitForm(basename, '-', TAR_SUFFIX).Some?
    ensures GemDirname(ParseTarball(basename, given).value) == basename[..|basename| - |TAR_SUFFIX|]
  {
    var (n, v) := SplitForm(basename, '-', TAR_SUFFIX).value;
    var r := ParseTarball(basename, given).value;
    assert r.gemName == n && r.gemVersion == v;
    JoinPair(n, v, "-");
    assert basename[..|basename| - |TAR_SUFFIX|] == n + "-" + v;
  }

  /** For an `N-V.tar.gz` tarball, the source directory is the derived
      source package name, a dash and `V`. */
  lemma SourceDirnameOfTarball(n: string, v: string, given: Option<string>)
    requires '-' !in v && '\n' !in n + v
    requires SplitForm(n + "-" + v + TAR_SUFFIX, '_', ORIG_SUFFIX).None?
    ensures var src := NormaliseSourceName(if given.Some? then given.value else "ruby-" + StripRubyAffixes(n));
      SourceDirname(ParseTarball(n + "-" + v + TAR_SUFFIX, given).value) == src + "-" + v
  {
    TarForm(n, v, given);
  }

  /** `File.dirname` of a path without repeated or trailing slashes. */
  function Dirname(path: string): (r: string)
    ensures '/' !in path ==> r == "."
  {
    match LastIndexOf(path, '/')
    case None => "."
    case Some(k) => if k == 0 then "/" else path[..k]
  }

  lemma {:induction false} LastSegmentAfterSlash(dir: string, file: string)
    requires '/' !in file
    ensures LastSegment(dir + "/" + file) == file
    decreases |file|
  {
    var path := dir + "/" + file;
    if file == [] {
      assert path == dir + "/";
    } else {
      var init := file[..|file| - 1];
      assert file[|file| - 1] in file;
      assert path[..|path| - 1] == dir + "/" + init;
      assert '/' !in init by { assert forall c :: c in init ==> c in file; }
      LastSegmentAfterSlash(dir, init);
      assert file == init + [file[|file| - 1]];
    }
  }

  /** The base name of `<dir>/<file>` is `<file>`. */
  lemma BasenameAfterSlash(dir: string, file: string)
    requires file != [] && '/' !in file
    ensures Basename(dir + "/" + file) == file
  {
    var path := dir + "/" + file;
    assert path[|path| - 1] == file[|file| - 1] && file[|file| - 1] in file;
    assert TrimTrailingSlashes(path) == path;
    LastSegmentAfterSlash(dir, file);
  }

  /** A trailing slash after the tarball's name is ignored, as
      `File.basename` does. */
  lemma BasenameTrailingSlashExample()
    ensures Basename("d/foo-1.0.tar.gz/") == "foo-1.0.tar.gz"
  {
    var file := "foo-1.0.tar.gz";
    var path := "d" + "/" + file;
    assert '/' !in file;
    BasenameAfterSlash("d", file);
    BasenameIgnoresTrailingSlash(path);
    assert path + "/" == "d/foo-1.0.tar.gz/";
  }

  /** A tarball path is its directory and its basename. */
  lemma DirnameBasename(dir: string, file: string)
    requires dir != [] && dir[|dir| - 1] != '/' && file != [] && '/' !in file
    ensures Dirname(dir + "/" + file) == dir && Basename(dir + "/" + file) == file
  {
    DirnameOfJoin(dir, file);
    BasenameAfterSlash(dir, file);
  }

  lemma DirnameOfJoin(dir: string, file: string)
    requires dir != [] && dir[|dir| - 1] != '/' && '/' !in file
    ensures Dirname(dir + "/" + file) == dir
  {
    var path := dir + "/" + file;
    assert path[|dir| + 1..] == file;
    LastIndexOfAt(path, '/', |dir|);
    assert path[..|dir|] == dir;
  }
}
