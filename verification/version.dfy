/** The version computation of scripts/version.js: `parseVersion` splits on
    '.' and applies JavaScript's `Number` to each part, and `bumpVersion`
    applies a major, minor or patch bump, accepts an explicit `M.m.p`
    literal, or fails with "Invalid version type". `updateVersion` writes the
    new version into the three project files. */
module Version {
  import opened Wrappers
  import opened JsText
  import opened Decimal
  import CargoToml

  // ---------------------------------------------------------------------
  // `String.prototype.split('.')`

  /** The parts between the dots; there is always at least one, and a text
      without dots is its own only part. */
  function SplitDots(s: string): (parts: seq<string>)
    ensures |parts| >= 1
    ensures forall i :: 0 <= i < |parts| ==> '.' !in parts[i]
  {
    if |s| == 0 then [""]
    else
      var rest := SplitDots(s[1..]);
      if s[0] == '.' then [""] + rest
      else [[s[0]] + rest[0]] + rest[1..]
  }

  /** `parts.join('.')`. */
  function JoinDots(parts: seq<string>): string
    requires |parts| >= 1
  {
    if |parts| == 1 then parts[0] else parts[0] + "." + JoinDots(parts[1..])
  }

  /** Joining the parts of a split gives back the text. */
  lemma {:induction false} JoinSplitDots(s: string)
    ensures JoinDots(SplitDots(s)) == s
  {
    if |s| > 0 {
      var rest := SplitDots(s[1..]);
      JoinSplitDots(s[1..]);
      if s[0] == '.' {
        assert JoinDots([""] + rest) == "" + "." + JoinDots(rest);
        assert s == [s[0]] + s[1..];
      } else {
        var parts := [[s[0]] + rest[0]] + rest[1..];
        if |rest| == 1 {
          assert s == [s[0]] + rest[0];
        } else {
          assert parts[1..] == rest[1..];
          assert JoinDots(rest) == rest[0] + "." + JoinDots(rest[1..]);
          assert s == [s[0]] + (rest[0] + "." + JoinDots(rest[1..]));
        }
      }
    }
  }

  /** A dot-free text splits into itself. */
  lemma {:induction false} SplitDotFree(a: string)
    requires '.' !in a
    ensures SplitDots(a) == [a]
  {
    if |a| > 0 {
      assert '.' !in a[1..] by {
        forall c | c in a[1..] ensures c != '.' { assert c in a; }
      }
      SplitDotFree(a[1..]);
      assert a == [a[0]] + a[1..];
    }
  }

  /** A dot-free part followed by a dot splits off as the first part. */
  lemma {:induction false} SplitAfterPart(a: string, t: string)
    requires '.' !in a
    ensures SplitDots(a + "." + t) == [a] + SplitDots(t)
  {
    if |a| == 0 {
      assert a + "." + t == ['.'] + t;
      assert (a + "." + t)[1..] == t;
    } else {
      assert '.' !in a[1..] by {
        forall c | c in a[1..] ensures c != '.' { assert c in a; }
      }
      SplitAfterPart(a[1..], t);
      assert (a + "." + t)[1..] == a[1..] + "." + t;
      assert a == [a[0]] + a[1..];
    }
  }

  /** Splitting the join of dot-free parts gives back the parts. */
  lemma {:induction false} SplitJoinDots(parts: seq<string>)
    requires |parts| >= 1
    requires forall i :: 0 <= i < |parts| ==> '.' !in parts[i]
    ensures SplitDots(JoinDots(parts)) == parts
  {
    if |parts| == 1 {
      SplitDotFree(parts[0]);
    } else {
      SplitJoinDots(parts[1..]);
      SplitAfterPart(parts[0], JoinDots(parts[1..]));
      assert parts == [parts[0]] + parts[1..];
    }
  }

  /** A text with a dot has at least two parts. */
  lemma {:induction false} SplitWithDot(s: string)
    requires '.' in s
    ensures |SplitDots(s)| >= 2
  {
    if s[0] != '.' {
      assert '.' in s[1..] by {
        var k :| 0 <= k < |s| && s[k] == '.';
        assert s[1..][k - 1] == '.';
      }
      SplitWithDot(s[1..]);
    }
  }

  /** The split has a second part exactly when the text has a dot. */
  lemma SplitHasSecondPart(s: string)
    ensures |SplitDots(s)| >= 2 <==> '.' in s
  {
    if '.' in s {
      SplitWithDot(s);
    } else {
      SplitDotFree(s);
    }
  }

  // ---------------------------------------------------------------------
  // `Number(part)` and template rendering

  /** The JavaScript values a version component can take here: a number,
      `NaN` (from a non-numeric part or from `undefined + 1`), or
      `undefined` (a part the split did not produce). */
  datatype JsNum = Num(n: nat) | NaN | Undefined

  /** `Number(part)` on a dot-free part: a digit string (the empty one
      included) is its value, anything else is `NaN`. */
  function NumberOf(part: string): (r: JsNum)
    ensures r.Num? <==> AllDigits(part)
    ensures r.Num? ==> r.n == DigitsValue(part)
    ensures !r.Undefined?
  {
    if AllDigits(part) then Num(DigitsValue(part)) else NaN
  }

  /** `x + 1`. */
  function PlusOne(x: JsNum): (r: JsNum)
    ensures x.Num? ==> r == Num(x.n + 1)
    ensures !x.Num? ==> r == NaN
  {
    if x.Num? then Num(x.n + 1) else NaN
  }

  /** `${x}` in a template literal. */
  function Show(x: JsNum): string {
    match x
    case Num(n) => NatToString(n)
    case NaN => "NaN"
    case Undefined => "undefined"
  }

  // ---------------------------------------------------------------------
  // `parseVersion` and `bumpVersion`

  datatype Parsed = Parsed(major: JsNum, minor: JsNum, patch: JsNum)

  /** The `i`-th part as a number, `undefined` past the end. */
  function PartAt(parts: seq<string>, i: nat): JsNum {
    if i < |parts| then NumberOf(parts[i]) else Undefined
  }

  /** `parseVersion`: the first three parts as numbers. Major is never
      `undefined`; minor is `undefined` exactly when there is no dot. */
  function ParseVersion(version: string): (p: Parsed)
    ensures !p.major.Undefined?
    ensures p.minor.Undefined? <==> '.' !in version
  {
    var parts := SplitDots(version);
    SplitHasSecondPart(version);
    Parsed(PartAt(parts, 0), PartAt(parts, 1), PartAt(parts, 2))
  }

  /** A well-formed version. */
  datatype SemVer = SemVer(major: nat, minor: nat, patch: nat)

  function Render(v: SemVer): string {
    NatToString(v.major) + "." + NatToString(v.minor) + "." + NatToString(v.patch)
  }

  /** The three parts of a rendered version. */
  lemma SplitRender(v: SemVer)
    ensures SplitDots(Render(v)) == [NatToString(v.major), NatToString(v.minor), NatToString(v.patch)]
  {
    var parts := [NatToString(v.major), NatToString(v.minor), NatToString(v.patch)];
    forall i | 0 <= i < 3 ensures '.' !in parts[i] {
      assert AllDigits(parts[i]);
    }
    assert JoinDots(parts[2..]) == parts[2];
    assert JoinDots(parts[1..]) == parts[1] + "." + JoinDots(parts[2..]);
    assert JoinDots(parts) == Render(v);
    SplitJoinDots(parts);
  }

  /** Parsing a rendered version gives its three components. */
  lemma ParseRender(v: SemVer)
    ensures ParseVersion(Render(v)) == Parsed(Num(v.major), Num(v.minor), Num(v.patch))
  {
    SplitRender(v);
    DigitsValueOfNatToString(v.major);
    DigitsValueOfNatToString(v.minor);
    DigitsValueOfNatToString(v.patch);
  }

  /** `/^\d+\.\d+\.\d+$/`: three non-empty digit runs joined by dots. */
  predicate IsVersionLiteral(s: string) {
    var parts := SplitDots(s);
    |parts| == 3 && forall i :: 0 <= i < 3 ==> |parts[i]| > 0 && AllDigits(parts[i])
  }

  /** Every rendered version is a version literal. */
  lemma RenderIsLiteral(v: SemVer)
    ensures IsVersionLiteral(Render(v))
  {
    SplitRender(v);
  }

  const Major := "major"
  const Minor := "minor"
  const Patch := "patch"

  function InvalidTypeMessage(t: string): string {
    "Invalid version type: " + t + ". Use 'major', 'minor', 'patch', or a version like '1.2.3'"
  }

  /** `bumpVersion`: a keyword bumps the parsed components; otherwise a
      version literal is taken as it is and anything else is an error. */
  function BumpVersion(current: string, versionType: string): (r: Result<string, string>)
    ensures versionType in {Major, Minor, Patch} ==> r.Ok?
    ensures r.Err? <==> versionType !in {Major, Minor, Patch} && !IsVersionLiteral(versionType)
    ensures r.Err? ==> r.error == InvalidTypeMessage(versionType)
    ensures versionType !in {Major, Minor, Patch} && IsVersionLiteral(versionType) ==> r == Ok(versionType)
  {
    var p := ParseVersion(current);
    if versionType == Major then Ok(Show(PlusOne(p.major)) + ".0.0")
    else if versionType == Minor then Ok(Show(p.major) + "." + Show(PlusOne(p.minor)) + ".0")
    else if versionType == Patch then Ok(Show(p.major) + "." + Show(p.minor) + "." + Show(PlusOne(p.patch)))
    else if IsVersionLiteral(versionType) then Ok(versionType)
    else Err(InvalidTypeMessage(versionType))
  }

  // ---------------------------------------------------------------------
  // The bump on well-formed versions

  datatype BumpKind = MajorBump | MinorBump | PatchBump

  function KindName(k: BumpKind): string {
    match k
    case MajorBump => Major
    case MinorBump => Minor
    case PatchBump => Patch
  }

  /** Version order: by major, then minor, then patch. */
  predicate Less(a: SemVer, b: SemVer) {
    a.major < b.major
    || (a.major == b.major && a.minor < b.minor)
    || (a.major == b.major && a.minor == b.minor && a.patch < b.patch)
  }

  /** The semantic-version bump: the chosen component goes up by one, the
      higher ones are kept and the lower ones reset to 0, so the result is
      strictly later. */
  function Bump(v: SemVer, k: BumpKind): (w: SemVer)
    ensures Less(v, w)
    ensures k == MajorBump ==> w.major == v.major + 1 && w.minor == 0 && w.patch == 0
    ensures k == MinorBump ==> w.major == v.major && w.minor == v.minor + 1 && w.patch == 0
    ensures k == PatchBump ==> w.major == v.major && w.minor == v.minor && w.patch == v.patch + 1
  {
    match k
    case MajorBump => SemVer(v.major + 1, 0, 0)
    case MinorBump => SemVer(v.major, v.minor + 1, 0)
    case PatchBump => SemVer(v.major, v.minor, v.patch + 1)
  }

  /** On a well-formed current version, `bumpVersion` with a keyword is the
      semantic-version bump. */
  lemma BumpVersionOfRendered(v: SemVer, k: BumpKind)
    ensures BumpVersion(Render(v), KindName(k)) == Ok(Render(Bump(v, k)))
  {
    ParseRender(v);
    var p := ParseVersion(Render(v));
    assert NatToString(0) == "0";
    match k
    case MajorBump =>
      var x := NatToString(v.major + 1);
      assert Show(PlusOne(p.major)) == x;
      assert x + ".0.0" == x + "." + NatToString(0) + "." + NatToString(0);
      assert BumpVersion(Render(v), Major) == Ok(Show(PlusOne(p.major)) + ".0.0");
    case MinorBump =>
      var x := NatToString(v.major);
      var y := NatToString(v.minor + 1);
      assert Show(p.major) == x && Show(PlusOne(p.minor)) == y;
      assert x + "." + y + ".0" == x + "." + y + "." + NatToString(0);
      assert BumpVersion(Render(v), Minor) == Ok(Show(p.major) + "." + Show(PlusOne(p.minor)) + ".0");
    case PatchBump =>
      assert BumpVersion(Render(v), Patch) == Ok(Show(p.major) + "." + Show(p.minor) + "." + Show(PlusOne(p.patch)));
  }

  /** An explicit version literal replaces the current version whatever it
      is. */
  lemma BumpVersionToLiteral(current: string, v: SemVer)
    ensures BumpVersion(current, Render(v)) == Ok(Render(v))
  {
    RenderIsLiteral(v);
    RenderIsNotKeyword(v);
  }

  /** A rendered version starts with a digit, so it is none of the three
      keywords. */
  lemma RenderIsNotKeyword(v: SemVer)
    ensures Render(v) !in {Major, Minor, Patch}
  {
    assert AllDigits(NatToString(v.major));
    assert Render(v)[0] == NatToString(v.major)[0];
  }

  /** The usage examples: 1.0.0 becomes 1.0.1, 1.1.0 and 2.0.0. */
  lemma UsageExamples()
    ensures BumpVersion("1.0.0", Patch) == Ok("1.0.1")
    ensures BumpVersion("1.0.0", Minor) == Ok("1.1.0")
    ensures BumpVersion("1.0.0", Major) == Ok("2.0.0")
  {
    UsageExample(PatchBump, SemVer(1, 0, 1), "1.0.1");
    UsageExample(MinorBump, SemVer(1, 1, 0), "1.1.0");
    UsageExample(MajorBump, SemVer(2, 0, 0), "2.0.0");
  }

  /** One usage example: bumping 1.0.0 by `k` gives `expected`. */
  lemma UsageExample(k: BumpKind, w: SemVer, expected: string)
    requires Bump(SemVer(1, 0, 0), k) == w
    requires w.major < 10 && w.minor < 10 && w.patch < 10
    requires expected == [DigitChar(w.major), '.', DigitChar(w.minor), '.', DigitChar(w.patch)]
    ensures BumpVersion("1.0.0", KindName(k)) == Ok(expected)
  {
    RenderOneDigitParts(SemVer(1, 0, 0));
    RenderOneDigitParts(w);
    assert [DigitChar(1), '.', DigitChar(0), '.', DigitChar(0)] == "1.0.0";
    BumpVersionOfRendered(SemVer(1, 0, 0), k);
  }

  /** A version whose parts are single digits renders as five characters. */
  lemma RenderOneDigitParts(v: SemVer)
    requires v.major < 10 && v.minor < 10 && v.patch < 10
    ensures Render(v) == [DigitChar(v.major), '.', DigitChar(v.minor), '.', DigitChar(v.patch)]
  {
  }

  /** A current version with only two parts has an `undefined` patch, so a
      patch bump writes `NaN` into it. */
  lemma PatchOfTwoPartVersion()
    ensures BumpVersion("1.2", Patch) == Ok("1.2.NaN")
  {
    assert "1.2" == "1" + "." + "2";
    SplitAfterPart("1", "2");
    SplitDotFree("2");
    assert SplitDots("1.2") == ["1", "2"];
    assert DigitsValue("1") == 1 && DigitsValue("2") == 2;
    assert NatToString(1) == "1" && NatToString(2) == "2";
    var p := ParseVersion("1.2");
    assert p == Parsed(Num(1), Num(2), Undefined);
    assert Show(p.major) == "1" && Show(p.minor) == "2" && Show(PlusOne(p.patch)) == "NaN";
    assert "1" + "." + "2" + "." + "NaN" == "1.2.NaN";
    assert BumpVersion("1.2", Patch) == Ok(Show(p.major) + "." + Show(p.minor) + "." + Show(PlusOne(p.patch)));
  }

  // ---------------------------------------------------------------------
  // `updateVersion` and the script's top level

  /** The version fields of the three project files: `package.json`'s
      `version`, the text of `src-tauri/Cargo.toml`, and
      `tauri.conf.json`'s `package.version`. */
  class ProjectFiles {
    var packageVersion: string
    var cargoToml: string
    var tauriVersion: string

    constructor (packageVersion: string, cargoToml: string, tauriVersion: string)
      ensures this.packageVersion == packageVersion
      ensures this.cargoToml == cargoToml
      ensures this.tauriVersion == tauriVersion
    {
      this.packageVersion := packageVersion;
      this.cargoToml := cargoToml;
      this.tauriVersion := tauriVersion;
    }

    /** `updateVersion`: both JSON version fields become the new version
        and the first Cargo.toml version line is rewritten. */
    method UpdateVersion(newVersion: string)
      modifies this
      ensures packageVersion == newVersion && tauriVersion == newVersion
      ensures cargoToml == CargoToml.ReplaceVersionLine(old(cargoToml), newVersion)
    {
      packageVersion := newVersion;
      cargoToml := CargoToml.ReplaceVersionLine(cargoToml, newVersion);
      tauriVersion := newVersion;
    }
  }

  /** How the script ends: the usage text, an error, or the files updated. */
  datatype ScriptOutcome = ShowUsage | Failed(message: string) | Updated(newVersion: string)

  /** The script's top level: a falsy argument prints the usage and a
      rejected type the error, both exiting without touching the files;
      otherwise the files get the bumped version read from `package.json`. */
  method RunVersionScript(files: ProjectFiles, versionType: Option<string>) returns (outcome: ScriptOutcome)
    modifies files
    ensures !Truthy(versionType) ==> outcome == ShowUsage
    ensures Truthy(versionType) ==>
              var r := BumpVersion(old(files.packageVersion), versionType.value);
              && (r.Err? ==> outcome == Failed(r.error))
              && (r.Ok? ==> outcome == Updated(r.value))
    ensures !outcome.Updated? ==>
              && files.packageVersion == old(files.packageVersion)
              && files.cargoToml == old(files.cargoToml)
              && files.tauriVersion == old(files.tauriVersion)
    ensures outcome.Updated? ==>
              && files.packageVersion == outcome.newVersion && files.tauriVersion == outcome.newVersion
              && files.cargoToml == CargoToml.ReplaceVersionLine(old(files.cargoToml), outcome.newVersion)
  {
    if !Truthy(versionType) {
      return ShowUsage;
    }
    var r := BumpVersion(files.packageVersion, versionType.value);
    if r.Err? {
      return Failed(r.error);
    }
    files.UpdateVersion(r.value);
    outcome := Updated(r.value);
  }
}
