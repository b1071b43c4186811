/** The Ruby interpreters `dh_ruby` knows (SUPPORTED_RUBY_VERSIONS) and how a
    binary package name selects one. */
module Variants {
  import opened Text

  /** The keys of SUPPORTED_RUBY_VERSIONS, in the order the hash lists them. */
  const SUPPORTED_VERSIONS: seq<string> := ["ruby1.8", "ruby1.9.1"]

  const DEFAULT_RUBY_VERSION: string := "ruby1.8"

  const DEBIAN_GEMS_DIR: string := "/usr/lib/gems"

  /** SUPPORTED_RUBY_VERSIONS[version]: the interpreter binary, or nil. */
  function BinaryFor(version: string): (r: Option<string>)
    ensures r.Some? <==> version in SUPPORTED_VERSIONS
    ensures r.Some? ==> r.value == "/usr/bin/" + version
  {
    if version == "ruby1.8" then Some("/usr/bin/ruby1.8")
    else if version == "ruby1.9.1" then Some("/usr/bin/ruby1.9.1")
    else None
  }

  /** `"#{SUPPORTED_RUBY_VERSIONS[version]}"`: interpolating nil gives "". */
  function BinaryText(version: string): string {
    match BinaryFor(version)
    case Some(b) => b
    case None => ""
  }

  /** The run of characters other than `-` at the head of `s`. */
  function NonDashRun(s: string): (r: string)
    ensures StartsWith(s, r) && '-' !in r
    ensures |r| == |s| || s[|r|] == '-'
  {
    if s == [] || s[0] == '-' then [] else [s[0]] + NonDashRun(s[1..])
  }

  /** `ruby_version_for(package)`: `package =~ /^(ruby[^-]*)/ ? $1 : 'ruby'`.
      Package names come from a whitespace split, so they are single lines. */
  function RubyVersionFor(package: string): (r: string)
    ensures StartsWith(r, "ruby") && '-' !in r
    ensures StartsWith(package, "ruby") <==> StartsWith(package, r)
    ensures StartsWith(package, "ruby") ==> |r| == |package| || package[|r|] == '-'
    ensures !StartsWith(package, "ruby") ==> r == "ruby"
  {
    if StartsWith(package, "ruby") then
      var run := NonDashRun(package[4..]);
      assert package == "ruby" + package[4..];
      assert package[..4 + |run|] == "ruby" + run;
      "ruby" + run
    else "ruby"
  }

  /** `destdir_for(package)`, taken relative to the source tree. */
  function DestdirFor(package: string): (r: string)
    ensures StartsWith(r, "debian/") && r[|"debian/"|..] == package
  {
    "debian/" + package
  }

  /** `rubyver.sub(/^ruby/, '')` in `install_spec`. */
  function VersionNumber(rubyver: string): (r: string)
    ensures StartsWith(rubyver, "ruby") ==> "ruby" + r == rubyver
    ensures !StartsWith(rubyver, "ruby") ==> r == rubyver
  {
    if StartsWith(rubyver, "ruby") then
      assert rubyver == rubyver[..4] + rubyver[4..];
      rubyver[4..]
    else rubyver
  }

  /** `ruby_version_for` of `<version>-<rest>` is `version` when `version`
      starts with `ruby` and has no `-`. */
  lemma VersionOfPrefixed(version: string, rest: string)
    requires StartsWith(version, "ruby") && '-' !in version
    ensures RubyVersionFor(version + "-" + rest) == version
  {
    var p := version + "-" + rest;
    assert p[..|version|] == version;
    assert StartsWith(p, "ruby") by { assert p[..4] == version[..4]; }
    var r := RubyVersionFor(p);
    assert r == p[..|r|];
    assert p[|version|] == '-';
    if |r| < |version| {
      assert false;
    }
  }

  /** Examples of the variant rule: `ruby-foo` and `foo` are pure Ruby,
      `ruby1.9.1-foo` names its interpreter. */
  lemma VariantExamples()
    ensures RubyVersionFor("ruby-foo") == "ruby"
    ensures RubyVersionFor("foo") == "ruby"
    ensures RubyVersionFor("ruby1.9.1-foo") == "ruby1.9.1"
    ensures RubyVersionFor("ruby1.8-foo") == "ruby1.8"
  {
    assert !StartsWith("foo", "ruby");
    VariantSpelling();
    VersionOfPrefixed("ruby", "foo");
    VersionOfPrefixed("ruby1.9.1", "foo");
    VersionOfPrefixed("ruby1.8", "foo");
  }

  lemma VariantSpelling()
    ensures "ruby" + "-" + "foo" == "ruby-foo"
    ensures "ruby1.9.1" + "-" + "foo" == "ruby1.9.1-foo"
    ensures "ruby1.8" + "-" + "foo" == "ruby1.8-foo"
  {
  }

  /** The version number of every supported interpreter, with `ruby` put back,
      is that interpreter's name. */
  lemma VersionNumberOfSupported(version: string)
    requires version in SUPPORTED_VERSIONS
    ensures "ruby" + VersionNumber(version) == version && VersionNumber(version) != []
  {
  }
}
