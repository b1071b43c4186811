/** The binary packages `dh-make-ruby` declares in `debian/control`
    (`DhMakeRuby::Package`): a name, the gem dependencies noted beside it,
    and an architecture derived from the name. */
module Packages {
  import opened Text
  import opened Variants

  datatype Package = Package(name: string, gemDependencies: seq<string>)

  /** `Package#architecture`: `all` for `ruby-*` packages and for names
      without `ruby`, `any` otherwise. */
  function Architecture(name: string): (r: string)
    ensures r == "all" || r == "any"
    ensures StartsWith(name, "ruby-") ==> r == "all"
    ensures r == "any" <==> Contains(name, "ruby") && !StartsWith(name, "ruby-")
  {
    if StartsWith(name, "ruby-") || !Contains(name, "ruby") then "all" else "any"
  }

  lemma ArchitectureExamples()
    ensures Architecture("ruby-foo") == "all"
    ensures Architecture("foo") == "all"
    ensures Architecture("ruby1.8-foo") == "any"
  {
    assert HasAt("ruby1.8-foo", 0, "ruby");
    assert "ruby1.8-foo"[4] == '1';
    assert !Contains("foo", "ruby");
  }

  /** Every package `dh_ruby` builds per interpreter (`ruby_version_for`
      other than `ruby`) is declared architecture-dependent. */
  lemma VariantsAreArchitectureDependent(name: string)
    requires RubyVersionFor(name) != "ruby"
    ensures Architecture(name) == "any"
  {
    var r := RubyVersionFor(name);
    assert HasAt(name, 0, "ruby") by { assert name[..4] == r[..4]; }
    assert r == name[..|r|];
    assert |r| > 4 ==> r[4] == name[4];
  }

  /** A `<version>-<rest>` package for a version other than `ruby` is an
      architecture-dependent variant for that version. */
  lemma VariantNamed(version: string, rest: string)
    requires StartsWith(version, "ruby") && '-' !in version && version != "ruby"
    ensures Architecture(version + "-" + rest) == "any" && RubyVersionFor(version + "-" + rest) == version
  {
    VersionOfPrefixed(version, rest);
    VariantsAreArchitectureDependent(version + "-" + rest);
  }

  /** The packages `detect_needed_binary_packages` adds for the source
      package `source`: itself, and with native extensions a `ruby1.8-` and
      a `ruby1.9.1-` variant of it. */
  function NeededPackages(source: string, native: bool): seq<Package> {
    [Package(source, [])] +
    if native then
      [Package(ReplaceFirst(source, "ruby-", "ruby1.8-"), []),
       Package(ReplaceFirst(source, "ruby-", "ruby1.9.1-"), [])]
    else []
  }

  /** A source package name without `_` gives package names without `_`. */
  lemma NeededNamesClean(source: string, native: bool)
    requires '_' !in source
    ensures forall k :: 0 <= k < |NeededPackages(source, native)| ==> '_' !in NeededPackages(source, native)[k].name
  {
    if native {
      ReplaceFirstKeepsOut(source, "ruby-", "ruby1.8-", '_');
      ReplaceFirstKeepsOut(source, "ruby-", "ruby1.9.1-", '_');
    }
  }

  /** Every package with `deps` appended to its gem dependencies. */
  function WithDependencies(ps: seq<Package>, deps: seq<string>): (r: seq<Package>)
    ensures |r| == |ps|
  {
    seq(|ps|, k requires 0 <= k < |ps| => ps[k].(gemDependencies := ps[k].gemDependencies + deps))
  }

  /** With native extensions, a `ruby-<x>` source package gets the
      packages `ruby-<x>`, `ruby1.8-<x>` and `ruby1.9.1-<x>`, in that order,
      each carrying the gem's dependencies in their order. */
  lemma NativeNames(x: string, deps: seq<string>)
    ensures var ps := WithDependencies(NeededPackages("ruby-" + x, true), deps);
      && |ps| == 3
      && ps[0].name == "ruby-" + x && ps[1].name == "ruby1.8-" + x && ps[2].name == "ruby1.9.1-" + x
      && forall k :: 0 <= k < 3 ==> ps[k].gemDependencies == deps
  {
    var src := "ruby-" + x;
    assert StartsWith(src, "ruby-");
    ReplaceFirstAtHead(src, "ruby-", "ruby1.8-");
    ReplaceFirstAtHead(src, "ruby-", "ruby1.9.1-");
    assert src[5..] == x;
  }

  /** Those three packages are declared `all`, `any`, `any`, and `dh_ruby`
      maps them back to `ruby`, `ruby1.8` and `ruby1.9.1`. */
  lemma NativeVariants(x: string)
    ensures Architecture("ruby-" + x) == "all" && RubyVersionFor("ruby-" + x) == "ruby"
    ensures Architecture("ruby1.8-" + x) == "any" && RubyVersionFor("ruby1.8-" + x) == "ruby1.8"
    ensures Architecture("ruby1.9.1-" + x) == "any" && RubyVersionFor("ruby1.9.1-" + x) == "ruby1.9.1"
  {
    assert StartsWith("ruby-" + x, "ruby-");
    VersionOfPrefixed("ruby", x);
    VariantNamed("ruby1.8", x);
    assert "ruby1.8" + "-" + x == "ruby1.8-" + x;
    VariantNamed("ruby1.9.1", x);
    assert "ruby1.9.1" + "-" + x == "ruby1.9.1-" + x;
  }

  /** A gem without native extensions gets one package, named after the
      source package. */
  lemma PureSinglePackage(source: string, deps: seq<string>)
    ensures WithDependencies(NeededPackages(source, false), deps) == [Package(source, deps)]
  {
    assert WithDependencies(NeededPackages(source, false), deps)[0] == Package(source, [] + deps);
    assert [] + deps == deps;
  }
}
