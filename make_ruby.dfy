/** The `DhMakeRuby` generator object: the names settled from the tarball
    and the list of binary packages it declares. */
module MakeRuby {
  import opened Text
  import opened Tarball
  import opened Packages

  class DhMakeRuby {
    var sourceTarballName: string
    var origTarballDir: string
    var gemName: string
    var gemVersion: string
    var sourcePackageName: string
    var origTarballName: string
    var binaryPackages: seq<Package>

    /** What every value stored through `source_package_name=` satisfies. */
    predicate Valid()
      reads this
    {
      '_' !in sourcePackageName
    }

    function Names(): Names
      reads this
    {
      Tarball.Names(gemName, gemVersion, sourcePackageName, origTarballName)
    }

    /** The state `initialize` leaves once the tarball's base name and
        directory and the names are settled. */
    constructor (base: string, dir: string, names: Names)
      requires '_' !in names.sourcePackageName
      ensures Valid()
      ensures sourceTarballName == base && origTarballDir == dir
      ensures Names() == names && binaryPackages == []
    {
      sourceTarballName := base;
      origTarballDir := dir;
      gemName := names.gemName;
      gemVersion := names.gemVersion;
      sourcePackageName := names.sourcePackageName;
      origTarballName := names.origTarballName;
      binaryPackages := [];
    }

    /** `DhMakeRuby.new(tarball, :source_package_name => given)`: raises for a
        tarball name of neither form. */
    static method Create(tarball: string, given: Option<string>) returns (r: Result<DhMakeRuby>)
      ensures ParseTarball(Basename(tarball), given).Failure? ==>
        r.Failure? && r.error == ErrorFor(Basename(tarball))
      ensures ParseTarball(Basename(tarball), given).Ok? ==>
        && r.Ok? && fresh(r.value) && r.value.Valid()
        && r.value.Names() == ParseTarball(Basename(tarball), given).value
        && r.value.sourceTarballName == Basename(tarball) && r.value.origTarballDir == Dirname(tarball)
        && r.value.binaryPackages == []
    {
      var parsed := ParseTarball(Basename(tarball), given);
      if parsed.Failure? {
        return Failure(parsed.error);
      }
      var g := new DhMakeRuby(Basename(tarball), Dirname(tarball), parsed.value);
      return Ok(g);
    }

    /** `source_package_name=`. */
    method SetSourcePackageName(value: string)
      modifies this
      ensures sourcePackageName == NormaliseSourceName(value) && Valid()
      ensures gemName == old(gemName) && gemVersion == old(gemVersion)
      ensures origTarballName == old(origTarballName) && binaryPackages == old(binaryPackages)
      ensures sourceTarballName == old(sourceTarballName) && origTarballDir == old(origTarballDir)
    {
      sourcePackageName := NormaliseSourceName(value);
    }

    /** `detect_needed_binary_packages`: the source package, and its two
        interpreter variants when the gem has native extensions, are
        appended; then every package in the list receives each of the gem's
        dependencies in turn. */
    method DetectNeededBinaryPackages(native: bool, dependencies: seq<string>) returns (ps: seq<Package>)
      requires Valid()
      modifies this
      ensures Valid()
      ensures forall k :: |old(binaryPackages)| <= k < |ps| ==> '_' !in ps[k].name
      ensures binaryPackages == WithDependencies(old(binaryPackages) + NeededPackages(sourcePackageName, native), dependencies)
      ensures ps == binaryPackages
      ensures sourcePackageName == old(sourcePackageName) && Names() == old(Names())
      ensures sourceTarballName == old(sourceTarballName) && origTarballDir == old(origTarballDir)
    {
      binaryPackages := binaryPackages + [Package(sourcePackageName, [])];
      if native {
        binaryPackages := binaryPackages + [Package(ReplaceFirst(sourcePackageName, "ruby-", "ruby1.8-"), [])];
        binaryPackages := binaryPackages + [Package(ReplaceFirst(sourcePackageName, "ruby-", "ruby1.9.1-"), [])];
      }
      ghost var start := binaryPackages;
      assert start == old(binaryPackages) + NeededPackages(sourcePackageName, native);
      NeededNamesClean(sourcePackageName, native);
      assert forall k :: |old(binaryPackages)| <= k < |start| ==> '_' !in start[k].name by {
        forall k | |old(binaryPackages)| <= k < |start| ensures '_' !in start[k].name {
          assert start[k] == NeededPackages(sourcePackageName, native)[k - |old(binaryPackages)|];
        }
      }
      var i := 0;
      while i < |binaryPackages|
        invariant 0 <= i <= |binaryPackages| == |start|
        invariant forall k :: 0 <= k < i ==> binaryPackages[k] == start[k].(gemDependencies := start[k].gemDependencies + dependencies)
        invariant forall k :: i <= k < |start| ==> binaryPackages[k] == start[k]
        invariant Names() == old(Names()) && sourceTarballName == old(sourceTarballName) && origTarballDir == old(origTarballDir)
      {
        var p := AddDependencies(binaryPackages[i], dependencies);
        binaryPackages := binaryPackages[i := p];
        i := i + 1;
      }
      ps := binaryPackages;
    }
  }

  /** The inner loop of `detect_needed_binary_packages`: each dependency in
      turn appended to one package's gem dependencies. */
  method AddDependencies(p: Package, dependencies: seq<string>) returns (q: Package)
    ensures q.name == p.name
    ensures q.gemDependencies == p.gemDependencies + dependencies
  {
    q := p;
    var j := 0;
    while j < |dependencies|
      invariant 0 <= j <= |dependencies|
      invariant q == p.(gemDependencies := p.gemDependencies + dependencies[..j])
    {
      assert dependencies[..j + 1] == dependencies[..j] + [dependencies[j]];
      q := q.(gemDependencies := q.gemDependencies + [dependencies[j]]);
      j := j + 1;
    }
    assert dependencies[..|dependencies|] == dependencies;
  }
}
