/** scripts/release.cjs: either re-tag the current version, or bump it by a
    major, minor or patch step (never to an explicit version), write it into
    the project files and tag the release "v" + version. The git commands
    themselves are not modelled; the outcome names the tag they use. */
module Release {
  import opened Wrappers
  import opened Version
  import CargoToml

  const RetagFlag := "--retag"

  /** The git tag for a version. */
  function Tag(version: string): (t: string)
    ensures |t| == |version| + 1 && t[0] == 'v' && t[1..] == version
  {
    "v" + version
  }

  /** `args[0] || 'patch'`: a missing or empty first argument means a patch
      release. */
  function BumpType(args: seq<string>): (t: string)
    ensures |args| == 0 || args[0] == "" ==> t == Patch
    ensures |args| > 0 && args[0] != "" ==> t == args[0]
  {
    if |args| == 0 || args[0] == "" then Patch else args[0]
  }

  predicate IsBumpType(t: string) {
    t in {Patch, Minor, Major}
  }

  /** The script's own `switch` on the components of `split('.')` mapped
      through `Number`. */
  function NewVersion(current: string, bumpType: string): string
    requires IsBumpType(bumpType)
  {
    var p := ParseVersion(current);
    if bumpType == Major then Show(PlusOne(p.major)) + ".0.0"
    else if bumpType == Minor then Show(p.major) + "." + Show(PlusOne(p.minor)) + ".0"
    else Show(p.major) + "." + Show(p.minor) + "." + Show(PlusOne(p.patch))
  }

  /** For the three keywords the release script computes the same version
      as `bumpVersion` in scripts/version.js. */
  lemma NewVersionAgreesWithBumpVersion(current: string, bumpType: string)
    requires IsBumpType(bumpType)
    ensures BumpVersion(current, bumpType) == Ok(NewVersion(current, bumpType))
  {
  }

  /** On a well-formed version the release is the semantic-version bump:
      higher components kept, lower ones reset to 0. */
  lemma NewVersionOfRendered(v: SemVer, k: BumpKind)
    ensures NewVersion(Render(v), KindName(k)) == Render(Bump(v, k))
  {
    NewVersionAgreesWithBumpVersion(Render(v), KindName(k));
    BumpVersionOfRendered(v, k);
  }

  /** Unlike scripts/version.js, an explicit version is not a bump type
      here. */
  lemma ExplicitVersionRejected(v: SemVer, rest: seq<string>)
    ensures !IsBumpType(BumpType([Render(v)] + rest))
  {
    RenderIsNotKeyword(v);
  }

  datatype ReleaseOutcome = Retagged(tag: string) | Usage | Released(newVersion: string, tag: string)

  /** The script: `--retag` anywhere re-creates the current version's tag
      and changes no file; a bump type other than the three keywords prints
      the usage and changes nothing; otherwise the three files get the new
      version and the release is tagged with it. */
  method RunRelease(files: ProjectFiles, args: seq<string>) returns (outcome: ReleaseOutcome)
    modifies files
    ensures RetagFlag in args ==> outcome == Retagged(Tag(old(files.packageVersion)))
    ensures RetagFlag !in args && !IsBumpType(BumpType(args)) ==> outcome == Usage
    ensures !outcome.Released? ==>
              && files.packageVersion == old(files.packageVersion)
              && files.cargoToml == old(files.cargoToml)
              && files.tauriVersion == old(files.tauriVersion)
    ensures RetagFlag !in args && IsBumpType(BumpType(args)) ==>
              var nv := NewVersion(old(files.packageVersion), BumpType(args));
              && outcome == Released(nv, Tag(nv))
              && files.packageVersion == nv && files.tauriVersion == nv
              && files.cargoToml == CargoToml.ReplaceVersionLine(old(files.cargoToml), nv)
  {
    if RetagFlag in args {
      return Retagged(Tag(files.packageVersion));
    }
    var bumpType := BumpType(args);
    if !IsBumpType(bumpType) {
      return Usage;
    }
    var newVersion := NewVersion(files.packageVersion, bumpType);
    files.packageVersion := newVersion;
    files.cargoToml := CargoToml.ReplaceVersionLine(files.cargoToml, newVersion);
    files.tauriVersion := newVersion;
    outcome := Released(newVersion, Tag(newVersion));
  }

  /** With no argument, a 1.0.0 project is released as 1.0.1 under tag
      v1.0.1. */
  method DefaultReleaseExample(cargoToml: string) returns (outcome: ReleaseOutcome)
    ensures outcome == Released("1.0.1", "v1.0.1")
  {
    var files := new ProjectFiles("1.0.0", cargoToml, "1.0.0");
    UsageExamples();
    NewVersionAgreesWithBumpVersion("1.0.0", Patch);
    outcome := RunRelease(files, []);
  }
}
