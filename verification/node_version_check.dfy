/**
 The stand-alone version-check script: `parseVersion` removes one leading
 `v` if there is one and splits on `.`; `compareVersions` compares the first
 three components as the server's gate does; the script fails with exit
 code 1 when the running version is below `18.0.0` and passes otherwise.
 */
module NodeVersionCheck {
  import opened StringOps
  import opened VersionOrder
  import ServerVersionGate

  const RequiredVersion: string := "18.0.0"

  /** Removes one leading `v` when the version starts with one, and nothing otherwise. */
  function StripV(version: string): (clean: string)
    ensures |version| > 0 && version[0] == 'v' ==> version == "v" + clean
    ensures !(|version| > 0 && version[0] == 'v') ==> clean == version
  {
    if |version| > 0 && version[0] == 'v' then version[1..] else version
  }

  /** The script's `parseVersion`: the numbered `.`-separated components after an optional leading `v`. */
  function ParseVersion(version: string): (parts: seq<JsNumber>)
    ensures |parts| >= 1
    ensures forall v :: version == Render(v) || version == "v" + Render(v) ==>
              parts == [Finite(v.major), Finite(v.minor), Finite(v.patch)]
  {
    var parts := NumbersOf(Split(StripV(version), '.'));
    assert forall v :: version == Render(v) || version == "v" + Render(v) ==>
             parts == [Finite(v.major), Finite(v.minor), Finite(v.patch)] by {
      forall v | version == Render(v) || version == "v" + Render(v)
        ensures parts == [Finite(v.major), Finite(v.minor), Finite(v.patch)]
      {
        StripVOfRendering(v);
        ParseRender(v);
      }
    }
    parts
  }

  /** The three components the script compares: a rendered version, with or without `v`, reads back as itself. */
  function VersionOfString(version: string): (r: Version)
    ensures version == "" || version == "v" ==> r == Version(0, 0, 0)
    ensures forall v :: version == Render(v) || version == "v" + Render(v) ==> r == v
  {
    VersionOf(ParseVersion(version))
  }

  /** The script's `compareVersions`: its sign is the lexicographic order of the parsed components. */
  function CompareVersions(a: string, b: string): (r: int)
    ensures r == 0 <==> VersionOfString(a) == VersionOfString(b)
    ensures r < 0 <==> VersionOfString(a).Before(VersionOfString(b))
    ensures r > 0 <==> VersionOfString(b).Before(VersionOfString(a))
  {
    CompareIsLexicographic(VersionOfString(a), VersionOfString(b));
    Compare(VersionOfString(a), VersionOfString(b))
  }

  /** A rendering starts with a digit, so only the `v` put in front of it is removed. */
  lemma StripVOfRendering(v: Version)
    ensures StripV(Render(v)) == Render(v)
    ensures StripV("v" + Render(v)) == Render(v)
  {
    RenderText(v);
    var s := Render(v);
    assert s[0] == Decimal(v.major)[0];
    assert IsDigit(s[0]);
    assert ("v" + s)[1..] == s;
  }

  lemma RequiredVersionValue()
    ensures VersionOfString(RequiredVersion) == Version(18, 0, 0)
  {
    RenderText(Version(18, 0, 0));
    assert Decimal(1) == "1" && Decimal(8) == "8";
    assert RequiredVersion == Render(Version(18, 0, 0));
  }

  /** The script's verdict: exit code 1 exactly when the running major version is below 18, else 0. */
  function CheckExitCode(currentVersion: string): (code: int)
    ensures code == 1 <==> CompareVersions(currentVersion, RequiredVersion) < 0
    ensures code == 1 <==> VersionOfString(currentVersion).major < 18
    ensures code == 0 || code == 1
  {
    RequiredVersionValue();
    if CompareVersions(currentVersion, RequiredVersion) < 0 then 1 else 0
  }

  /** Equal strings compare equal, and swapping the arguments negates the result. */
  lemma CompareVersionsAntisymmetric(a: string, b: string)
    ensures CompareVersions(a, a) == 0
    ensures CompareVersions(a, b) == -CompareVersions(b, a)
  {
    CompareAntisymmetric(VersionOfString(a), VersionOfString(b));
  }

  /** The induced order is transitive. */
  lemma CompareVersionsTransitive(a: string, b: string, c: string)
    ensures CompareVersions(a, b) < 0 && CompareVersions(b, c) < 0 ==> CompareVersions(a, c) < 0
    ensures CompareVersions(a, b) <= 0 && CompareVersions(b, c) <= 0 ==> CompareVersions(a, c) <= 0
  {
    CompareTransitive(VersionOfString(a), VersionOfString(b), VersionOfString(c));
  }

  /** One leading `v` is optional: with or without it the same components are read. */
  lemma LeadingVOptional(s: string)
    requires !(|s| > 0 && s[0] == 'v')
    ensures ParseVersion("v" + s) == ParseVersion(s)
    ensures CompareVersions("v" + s, s) == 0
  {
    assert ("v" + s)[1..] == s;
  }

  /** A dotted list of digit strings parses to the numbers of its pieces. */
  lemma ParseDottedDigits(pieces: seq<string>)
    requires |pieces| >= 1
    requires forall k :: 0 <= k < |pieces| ==> AllDigits(pieces[k])
    ensures ParseVersion(Join(pieces, '.')) == NumbersOf(pieces)
  {
    SplitJoin(pieces, '.');
  }

  /** The major component of the required version is read as the number 18. */
  lemma NumberOf18()
    ensures ToNumber("18") == Finite(18)
  {
    assert Decimal(1) == "1" && Decimal(8) == "8";
    assert Decimal(18) == "18";
    NumberOfDecimal(18);
  }

  /** A missing minor and patch count as 0: `18` reads as 18.0.0. */
  lemma MajorOnlyComparesEqual()
    ensures CompareVersions("18", RequiredVersion) == 0
  {
    NumberOf18();
    ParseDottedDigits(["18"]);
    assert Join(["18"], '.') == "18";
    var numbers := NumbersOf(["18"]);
    assert numbers == [Finite(18)];
    assert VersionOfString("18") == Version(18, 0, 0);
    RequiredVersionValue();
  }

  /** A missing patch counts as 0: `18.0` reads as 18.0.0. */
  lemma MajorMinorComparesEqual()
    ensures CompareVersions("18.0", RequiredVersion) == 0
  {
    NumberOf18();
    var pieces := ["18", "0"];
    assert pieces[1..] == ["0"];
    assert Join(pieces, '.') == "18.0";
    ParseDottedDigits(pieces);
    var numbers := NumbersOf(pieces);
    assert numbers[0] == Finite(18) && numbers[1] == Finite(0);
    assert VersionOfString("18.0") == Version(18, 0, 0);
    RequiredVersionValue();
  }

  /** Components after the third are ignored: `18.0.0.7` reads as 18.0.0. */
  lemma ExtraComponentsCompareEqual()
    ensures CompareVersions("18.0.0.7", RequiredVersion) == 0
  {
    NumberOf18();
    var pieces := ["18", "0", "0", "7"];
    assert pieces[1..] == ["0", "0", "7"] && pieces[1..][1..] == ["0", "7"];
    assert pieces[1..][1..][1..] == ["7"];
    assert Join(pieces[1..][1..], '.') == "0.7";
    assert Join(pieces[1..], '.') == "0.0.7";
    assert Join(pieces, '.') == "18.0.0.7";
    ParseDottedDigits(pieces);
    var numbers := NumbersOf(pieces);
    assert numbers[0] == Finite(18) && numbers[1] == Finite(0) && numbers[2] == Finite(0);
    assert VersionOfString("18.0.0.7") == Version(18, 0, 0);
    RequiredVersionValue();
  }

  /** Because the `v` strip is conditional, `v18.0.0` and `18.0.0` compare equal. */
  lemma PrefixedRequiredCompareEqual()
    ensures CompareVersions("v18.0.0", RequiredVersion) == 0
  {
    LeadingVOptional(RequiredVersion);
  }

  /**
   On versions that carry a leading `v`, as Node's own version string does,
   the script and the server's gate read the same components and agree.
   */
  lemma AgreesWithServerOnNodeVersions(a: string, b: string)
    requires |a| > 0 && a[0] == 'v' && |b| > 0 && b[0] == 'v'
    ensures CompareVersions(a, b) == ServerVersionGate.CompareVersions(a, b)
  {
  }

  /** The script and the server reach the same verdict on a Node version string. */
  lemma VerdictAgreesWithServerGate(nodeVersion: string)
    requires |nodeVersion| > 0 && nodeVersion[0] == 'v'
    ensures CheckExitCode(nodeVersion) == 1 <==> ServerVersionGate.StartupGate(nodeVersion).Exit?
  {
  }
}
