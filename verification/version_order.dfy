/**
 The version arithmetic shared by the server's startup gate and the
 stand-alone version-check script: each `.`-separated component goes
 through JavaScript's `Number`, a falsy component (NaN or a missing index)
 becomes 0 through `x || 0`, and the first three components are compared
 left to right, answering the difference of the first pair that differs.
 */
module VersionOrder {
  import opened StringOps

  /**
   What `Number(component)` yields for a version component. Only the
   decimal-digit case is modelled exactly; every other string is NaN here
   (JavaScript would also accept surrounding blanks, signs, hex and exponents).
   */
  datatype JsNumber = Finite(value: nat) | NaN

  predicate IsDigit(ch: char) {
    '0' <= ch <= '9'
  }

  predicate AllDigits(s: string) {
    forall k :: 0 <= k < |s| ==> IsDigit(s[k])
  }

  function DigitValue(ch: char): nat
    requires IsDigit(ch)
  {
    ch as int - '0' as int
  }

  function DigitChar(d: nat): (ch: char)
    requires d < 10
    ensures IsDigit(ch) && DigitValue(ch) == d
  {
    ('0' as int + d) as char
  }

  /** The value of a string of decimal digits, most significant first; `""` is 0. */
  function DecimalValue(s: string): nat
    requires AllDigits(s)
    decreases |s|
  {
    if |s| == 0 then 0
    else DecimalValue(s[..|s| - 1]) * 10 + DigitValue(s[|s| - 1])
  }

  /** JavaScript's `Number` on a version component: the empty string is 0, digits are their decimal value. */
  function ToNumber(s: string): (r: JsNumber)
    ensures r.NaN? <==> !AllDigits(s)
    ensures s == "" ==> r == Finite(0)
  {
    if AllDigits(s) then Finite(DecimalValue(s)) else NaN
  }

  /** The canonical decimal rendering of `n`, with no leading zeros. */
  function Decimal(n: nat): (s: string)
    ensures |s| >= 1 && AllDigits(s)
    ensures |s| > 1 ==> s[0] != '0'
  {
    if n < 10 then [DigitChar(n)]
    else Decimal(n / 10) + [DigitChar(n % 10)]
  }

  /** `Number` reads back every rendered natural number. */
  lemma {:induction false} NumberOfDecimal(n: nat)
    ensures ToNumber(Decimal(n)) == Finite(n)
    decreases n
  {
    var s := Decimal(n);
    if n >= 10 {
      NumberOfDecimal(n / 10);
      assert s[..|s| - 1] == Decimal(n / 10);
      assert DecimalValue(s) == DecimalValue(Decimal(n / 10)) * 10 + n % 10;
    }
  }

  /** Each piece converted by `Number`, in place. */
  function NumbersOf(pieces: seq<string>): (r: seq<JsNumber>)
    ensures |r| == |pieces|
    ensures forall i :: 0 <= i < |r| ==> r[i] == ToNumber(pieces[i])
  {
    seq(|pieces|, i requires 0 <= i < |pieces| => ToNumber(pieces[i]))
  }

  /**
   The component at index `i` with the zero default for falsy values: NaN and
   an index past the end (JavaScript's `undefined`) both read as 0.
   */
  function PartOrZero(parts: seq<JsNumber>, i: nat): (r: nat)
    ensures i < |parts| && parts[i].Finite? ==> r == parts[i].value
    ensures i >= |parts| || parts[i].NaN? ==> r == 0
  {
    if i < |parts| && parts[i].Finite? then parts[i].value else 0
  }

  /** The three components the comparison looks at. */
  datatype Version = Version(major: nat, minor: nat, patch: nat) {

    function At(i: nat): nat
      requires i < 3
    {
      if i == 0 then major else if i == 1 then minor else patch
    }

    /** Strict lexicographic order on (major, minor, patch). */
    predicate Before(other: Version) {
      || major < other.major
      || (major == other.major && minor < other.minor)
      || (major == other.major && minor == other.minor && patch < other.patch)
    }
  }

  /** The components a comparison reads from a parsed component list. */
  function VersionOf(parts: seq<JsNumber>): (v: Version)
    ensures forall i :: 0 <= i < 3 ==> v.At(i) == PartOrZero(parts, i)
  {
    Version(PartOrZero(parts, 0), PartOrZero(parts, 1), PartOrZero(parts, 2))
  }

  /** `k` is the leftmost component at or after `from` where `a` and `b` differ. */
  predicate FirstDifferenceAt(a: Version, b: Version, from: nat, k: nat) {
    && from <= k < 3
    && a.At(k) != b.At(k)
    && forall j :: from <= j < k ==> a.At(j) == b.At(j)
  }

  /**
   The comparison loop from iteration `i` on: zero when components `i..2`
   all agree, otherwise the difference of the leftmost pair that differs.
   */
  function CompareFrom(a: Version, b: Version, i: nat): (r: int)
    requires i <= 3
    ensures r == 0 <==> forall j :: i <= j < 3 ==> a.At(j) == b.At(j)
    ensures r != 0 ==> exists k :: FirstDifferenceAt(a, b, i, k) && r == a.At(k) - b.At(k)
    decreases 3 - i
  {
    if i == 3 then 0
    else if a.At(i) != b.At(i) then
      assert FirstDifferenceAt(a, b, i, i);
      a.At(i) - b.At(i)
    else
      var r := CompareFrom(a, b, i + 1);
      assert r != 0 ==> exists k :: FirstDifferenceAt(a, b, i, k) && r == a.At(k) - b.At(k) by {
        if r != 0 {
          var k :| FirstDifferenceAt(a, b, i + 1, k) && r == a.At(k) - b.At(k);
          assert FirstDifferenceAt(a, b, i, k);
        }
      }
      r
  }

  /** The whole three-iteration loop. */
  function Compare(a: Version, b: Version): int {
    CompareFrom(a, b, 0)
  }

  /** Zero exactly on equal versions, and the sign is the lexicographic order. */
  lemma CompareIsLexicographic(a: Version, b: Version)
    ensures Compare(a, b) == 0 <==> a == b
    ensures Compare(a, b) < 0 <==> a.Before(b)
    ensures Compare(a, b) > 0 <==> b.Before(a)
  {
    var r := Compare(a, b);
    if r != 0 {
      var k :| FirstDifferenceAt(a, b, 0, k) && r == a.At(k) - b.At(k);
      assert k == 0 || a.At(0) == b.At(0);
      assert k <= 1 || a.At(1) == b.At(1);
    } else {
      assert a.At(0) == b.At(0) && a.At(1) == b.At(1) && a.At(2) == b.At(2);
    }
  }

  /** Swapping the arguments negates the result. */
  lemma {:induction false} CompareFromAntisymmetric(a: Version, b: Version, i: nat)
    requires i <= 3
    ensures CompareFrom(a, b, i) == -CompareFrom(b, a, i)
    decreases 3 - i
  {
    if i < 3 && a.At(i) == b.At(i) {
      CompareFromAntisymmetric(a, b, i + 1);
    }
  }

  lemma CompareAntisymmetric(a: Version, b: Version)
    ensures Compare(a, b) == -Compare(b, a)
    ensures Compare(a, a) == 0
  {
    CompareFromAntisymmetric(a, b, 0);
  }

  /** The order the comparison induces is transitive. */
  lemma CompareTransitive(a: Version, b: Version, c: Version)
    ensures Compare(a, b) < 0 && Compare(b, c) < 0 ==> Compare(a, c) < 0
    ensures Compare(a, b) <= 0 && Compare(b, c) <= 0 ==> Compare(a, c) <= 0
  {
    CompareIsLexicographic(a, b);
    CompareIsLexicographic(b, c);
    CompareIsLexicographic(a, c);
  }

  /** Components after the third are never read. */
  lemma VersionOfIgnoresExtraParts(parts: seq<JsNumber>, extra: seq<JsNumber>)
    requires |parts| >= 3
    ensures VersionOf(parts + extra) == VersionOf(parts)
  {
  }

  /** A missing component reads as 0, so appending a zero part changes nothing. */
  lemma VersionOfMissingPartIsZero(parts: seq<JsNumber>)
    ensures VersionOf(parts + [Finite(0)]) == VersionOf(parts)
  {
  }

  /** A non-numeric component reads as 0 too. */
  lemma VersionOfNaNPartIsZero(parts: seq<JsNumber>, i: nat)
    requires i < |parts|
    ensures VersionOf(parts[i := NaN]) == VersionOf(parts[i := Finite(0)])
  {
  }

  /** The dotted decimal text of a version, `major.minor.patch`, without prefix. */
  function Render(v: Version): string {
    Join([Decimal(v.major), Decimal(v.minor), Decimal(v.patch)], '.')
  }

  lemma RenderText(v: Version)
    ensures Render(v) == Decimal(v.major) + "." + Decimal(v.minor) + "." + Decimal(v.patch)
  {
    var pieces := [Decimal(v.major), Decimal(v.minor), Decimal(v.patch)];
    assert pieces[1..][1..] == [Decimal(v.patch)];
    assert Join(pieces[1..], '.') == Decimal(v.minor) + "." + Decimal(v.patch);
  }

  /** Splitting, numbering and reading a rendered version gives the version back. */
  lemma ParseRender(v: Version)
    ensures NumbersOf(Split(Render(v), '.')) == [Finite(v.major), Finite(v.minor), Finite(v.patch)]
    ensures VersionOf(NumbersOf(Split(Render(v), '.'))) == v
  {
    var pieces := [Decimal(v.major), Decimal(v.minor), Decimal(v.patch)];
    assert forall k :: 0 <= k < |pieces| ==> AllDigits(pieces[k]);
    SplitJoin(pieces, '.');
    NumberOfDecimal(v.major);
    NumberOfDecimal(v.minor);
    NumberOfDecimal(v.patch);
  }
}
