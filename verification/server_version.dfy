/**
 The server's own version gate, run once before it starts listening: its
 `compareVersions` drops the first character of each version string
 (whatever it is, expecting the `v` of a Node version) and compares the
 rest as dotted components; the process exits with code 1 when the running
 version is below `v18.0.0`.
 */
module ServerVersionGate {
  import opened StringOps
  import opened VersionOrder

  const RequiredVersion: string := "v18.0.0"

  /** What the server does at startup. */
  datatype GateDecision = Listen | Exit(code: int)

  /** The components the server reads: drop the first character, split on `.`, number each piece, keep three. */
  function VersionOfString(s: string): (r: Version)
    ensures |s| <= 1 ==> r == Version(0, 0, 0)
    ensures forall v :: |s| > 0 && s[1..] == Render(v) ==> r == v
  {
    var r := VersionOf(NumbersOf(Split(SubstringFrom(s, 1), '.')));
    assert forall v :: |s| > 0 && s[1..] == Render(v) ==> r == v by {
      forall v | |s| > 0 && s[1..] == Render(v)
        ensures r == v
      {
        ParseRender(v);
      }
    }
    r
  }

  /** The server's `compareVersions`: its sign is the lexicographic order of the read components. */
  function CompareVersions(a: string, b: string): (r: int)
    ensures r == 0 <==> VersionOfString(a) == VersionOfString(b)
    ensures r < 0 <==> VersionOfString(a).Before(VersionOfString(b))
    ensures r > 0 <==> VersionOfString(b).Before(VersionOfString(a))
  {
    CompareIsLexicographic(VersionOfString(a), VersionOfString(b));
    Compare(VersionOfString(a), VersionOfString(b))
  }

  /**
   A rendering behind any one prefix character is read back as the version
   it renders. The prefix is a single UTF-16 code unit, as `substring` counts.
   */
  lemma ReadsPrefixedRendering(prefix: char, v: Version)
    requires prefix as int < 0x10000
    ensures VersionOfString([prefix] + Render(v)) == v
  {
    assert ([prefix] + Render(v))[1..] == Render(v);
  }

  lemma RequiredVersionValue()
    ensures VersionOfString(RequiredVersion) == Version(18, 0, 0)
  {
    RenderText(Version(18, 0, 0));
    assert Decimal(1) == "1" && Decimal(8) == "8";
    assert RequiredVersion == ['v'] + Render(Version(18, 0, 0));
    ReadsPrefixedRendering('v', Version(18, 0, 0));
  }

  /** The startup check: exit with code 1 exactly when the running major version is below 18. */
  function StartupGate(nodeVersion: string): (d: GateDecision)
    ensures d.Exit? <==> CompareVersions(nodeVersion, RequiredVersion) < 0
    ensures d.Exit? <==> VersionOfString(nodeVersion).major < 18
    ensures d.Exit? ==> d.code == 1
  {
    RequiredVersionValue();
    if CompareVersions(nodeVersion, RequiredVersion) < 0 then Exit(1) else Listen
  }

  /** Equal strings compare equal, and swapping the arguments negates the result. */
  lemma CompareVersionsAntisymmetric(a: string, b: string)
    ensures CompareVersions(a, a) == 0
    ensures CompareVersions(a, b) == -CompareVersions(b, a)
  {
    CompareAntisymmetric(VersionOfString(a), VersionOfString(b));
  }

  /** The first character is dropped whatever it is, `v` or not (one UTF-16 code unit). */
  lemma FirstCharacterIgnored(c1: char, c2: char, s: string)
    requires c1 as int < 0x10000 && c2 as int < 0x10000
    ensures CompareVersions([c1] + s, [c2] + s) == 0
  {
    assert SubstringFrom([c1] + s, 1) == s;
    assert SubstringFrom([c2] + s, 1) == s;
  }

  /** So an unprefixed version loses its leading digit: `18.0.0` reads as 8.0.0 and fails the gate. */
  lemma UnprefixedVersionLosesLeadingDigit()
    ensures VersionOfString("18.0.0") == Version(8, 0, 0)
    ensures StartupGate("18.0.0") == Exit(1)
  {
    RenderText(Version(8, 0, 0));
    assert "18.0.0" == ['1'] + Render(Version(8, 0, 0));
    ReadsPrefixedRendering('1', Version(8, 0, 0));
  }

  /** A Node version `vM.m.p` is refused exactly when M < 18. */
  lemma GateOnNodeVersion(v: Version)
    ensures StartupGate("v" + Render(v)) == (if v.major < 18 then Exit(1) else Listen)
  {
    ReadsPrefixedRendering('v', v);
  }

  lemma GateAcceptsNode20()
    ensures StartupGate("v20.11.1") == Listen
  {
    assert Decimal(2) == "2" && Decimal(0) == "0" && Decimal(1) == "1";
    assert Decimal(20) == "20" && Decimal(11) == "11";
    RenderText(Version(20, 11, 1));
    assert "v20.11.1" == "v" + Render(Version(20, 11, 1));
    GateOnNodeVersion(Version(20, 11, 1));
  }

  lemma GateRefusesNode16()
    ensures StartupGate("v16.20.2") == Exit(1)
  {
    assert Decimal(1) == "1" && Decimal(6) == "6" && Decimal(2) == "2" && Decimal(0) == "0";
    assert Decimal(16) == "16" && Decimal(20) == "20";
    RenderText(Version(16, 20, 2));
    assert "v16.20.2" == "v" + Render(Version(16, 20, 2));
    GateOnNodeVersion(Version(16, 20, 2));
  }
}
