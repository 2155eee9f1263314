/** API microversions: their order, which of them an interval matches, and their text form. */
module ApiVersions {

  import opened Options

  /** APIVersionRequest; 0.0 is the null version. */
  datatype Version = Version(major: nat, minor: nat) {
    predicate IsNull() { major == 0 && minor == 0 }

    predicate Lt(that: Version) { major < that.major || (major == that.major && minor < that.minor) }

    predicate Le(that: Version) { Lt(that) || this == that }

    /** matches, for a version that is not null; a null bound is no bound. */
    predicate Matches(min: Version, max: Version)
    {
      if max.IsNull() && min.IsNull() then true
      else if max.IsNull() then min.Le(this)
      else if min.IsNull() then Le(max)
      else min.Le(this) && Le(max)
    }
  }

  /** What a match means, in numbers: the version is not below a minimum and not above a maximum that is
      given, minor numbers counting only between equal major ones; 0.0 gives neither. */
  lemma MatchesMeans(v: Version, min: Version, max: Version)
    ensures v.Matches(min, max) <==>
              && ((min.major == 0 && min.minor == 0) || v.major > min.major || (v.major == min.major && v.minor >= min.minor))
              && ((max.major == 0 && max.minor == 0) || v.major < max.major || (v.major == max.major && v.minor <= max.minor))
  {
  }

  // ----- Text form -----

  function Digit(d: nat): char requires d < 10 { ['0', '1', '2', '3', '4', '5', '6', '7', '8', '9'][d] }

  predicate IsDigit(c: char) { '0' <= c <= '9' }

  function Decimal(n: nat): (s: string)
    ensures s != [] && (forall i | 0 <= i < |s| :: IsDigit(s[i])) && (s[0] == '0' <==> n == 0) && (n == 0 ==> s == "0")
  {
    if n < 10 then [Digit(n)] else Decimal(n / 10) + [Digit(n % 10)]
  }

  function DigitValue(c: char): (d: nat)
    requires IsDigit(c)
    ensures d < 10 && Digit(d) == c
  {
    c as int - '0' as int
  }

  function Number(s: string): nat
    requires forall i | 0 <= i < |s| :: IsDigit(s[i])
  {
    if s == [] then 0 else 10 * Number(s[..|s| - 1]) + DigitValue(s[|s| - 1])
  }

  lemma {:induction false} NumberOfDecimal(n: nat)
    ensures Number(Decimal(n)) == n
  {
    if n >= 10 {
      NumberOfDecimal(n / 10);
      assert Decimal(n)[..|Decimal(n)| - 1] == Decimal(n / 10);
    } else {
      assert Decimal(n)[..0] == [];
    }
  }

  /** A number as the regular expression wants it: no leading zero but in "0" itself. */
  predicate Canonical(s: string)
  {
    s != [] && (forall i | 0 <= i < |s| :: IsDigit(s[i])) && (s[0] == '0' ==> |s| == 1)
  }

  lemma DecimalStep(q: nat, d: nat)
    requires q > 0 && d < 10
    ensures Decimal(10 * q + d) == Decimal(q) + [Digit(d)]
  {
    assert (10 * q + d) / 10 == q && (10 * q + d) % 10 == d;
  }

  lemma DecimalOfDigit(c: char)
    requires IsDigit(c)
    ensures Decimal(DigitValue(c)) == [c] && (DigitValue(c) == 0 <==> c == '0')
  {
  }

  lemma NumberStep(s: string)
    requires s != [] && forall i | 0 <= i < |s| :: IsDigit(s[i])
    ensures Number(s) == 10 * Number(s[..|s| - 1]) + DigitValue(s[|s| - 1]) && Number([]) == 0
  {
  }

  lemma {:induction false} DecimalOfNumber(s: string)
    requires Canonical(s)
    ensures Decimal(Number(s)) == s
    ensures Number(s) == 0 <==> s == "0"
  {
    hide Decimal, Number, Digit, DigitValue;
    var last := |s| - 1;
    NumberStep(s);
    if last == 0 {
      assert s[..0] == [] && s == [s[0]];
      DecimalOfDigit(s[0]);
    } else {
      assert Canonical(s[..last]) && s[..last] != "0" by { assert s[..last][0] == s[0]; }
      DecimalOfNumber(s[..last]);
      DecimalStep(Number(s[..last]), DigitValue(s[last]));
      assert s == s[..last] + [s[last]];
    }
  }

  /** get_string; null has none. */
  function GetString(v: Version): Option<string>
  {
    if v.IsNull() then None else Some(Decimal(v.major) + "." + Decimal(v.minor))
  }

  /** Where the dot is, or the length of the text. */
  function Dot(s: string): (i: nat)
    ensures i <= |s| && (i < |s| ==> s[i] == '.') && forall k | 0 <= k < i :: s[k] != '.'
  {
    if s == [] then 0 else if s[0] == '.' then 0 else 1 + Dot(s[1..])
  }

  /** The text without the newline that the regular expression allows at its end. */
  function Text(s: string): string { if s != [] && s[|s| - 1] == '\n' then s[..|s| - 1] else s }

  /** The constructor, for a version string; None for InvalidAPIVersionString. As in the regular
      expression, the end may be followed by one newline. */
  function Parse(s: string): Option<Version>
  {
    var text := Text(s);
    var i := Dot(text);
    if i < |text| && Canonical(text[..i]) && text[0] != '0' && Canonical(text[i + 1..])
    then Some(Version(Number(text[..i]), Number(text[i + 1..])))
    else None
  }

  lemma DotOf(major: nat, minor: nat)
    ensures Dot(Decimal(major) + "." + Decimal(minor)) == |Decimal(major)|
  {
    var s := Decimal(major) + "." + Decimal(minor);
    assert s[|Decimal(major)|] == '.';
    assert forall k | 0 <= k < |Decimal(major)| :: s[k] == Decimal(major)[k];
  }

  lemma CanonicalDecimal(n: nat)
    ensures Canonical(Decimal(n))
  {
  }

  lemma StringOfText(text: string, i: nat)
    requires i < |text| && text[i] == '.' && Canonical(text[..i]) && text[0] != '0' && Canonical(text[i + 1..])
    ensures Number(text[..i]) > 0
    ensures Decimal(Number(text[..i])) + "." + Decimal(Number(text[i + 1..])) == text
  {
    DecimalOfNumber(text[..i]);
    DecimalOfNumber(text[i + 1..]);
    assert text[..i][0] == text[0];
    assert text == text[..i] + "." + text[i + 1..];
  }

  /** A text that parses is the string of the version it gives, but for a newline at the end. */
  lemma StringOfParse(s: string)
    requires Parse(s).Some?
    ensures Parse(s).value.major > 0
    ensures var t := GetString(Parse(s).value); t == Some(s) || (t.Some? && s == t.value + "\n")
  {
    hide Number, Decimal, Canonical;
    StringOfText(Text(s), Dot(Text(s)));
    if s != Text(s) { assert s == Text(s) + "\n"; }
  }

  /** For instance, "1.10" is the tenth minor version of the first major one, and "01.1" is none. */
  lemma ParseTenthMinor()
    ensures Parse("1.10") == Some(Version(1, 10)) && Parse("01.1") == None
  {
    assert "1.10"[..1] == "1" && "1.10"[2..] == "10" && "10"[..1] == "1" && "1"[..0] == "";
    assert Number("10") == 10 && Number("1") == 1;
    assert "1.10"[1..] == ".10" && Dot("1.10") == 1;
  }

  /** get_string gives a text that, parsed again, is the same version, for exactly the versions that
      some text denotes: those with a major number. */
  lemma ParseOfString(v: Version)
    requires !v.IsNull()
    ensures GetString(v).Some?
    ensures Parse(GetString(v).value) == Some(v) <==> v.major > 0
  {
    if v.major > 0 {
      ParseOfDecimals(v);
    } else if Parse(GetString(v).value).Some? {
      StringOfParse(GetString(v).value);
    }
  }

  lemma ParseOfDecimals(v: Version)
    requires v.major > 0
    ensures Parse(Decimal(v.major) + "." + Decimal(v.minor)) == Some(v)
  {
    hide Number, Decimal, Canonical, Dot;
    var s := Decimal(v.major) + "." + Decimal(v.minor);
    DotOf(v.major, v.minor);
    CanonicalDecimal(v.major);
    CanonicalDecimal(v.minor);
    NumberOfDecimal(v.major);
    NumberOfDecimal(v.minor);
    assert s[|s| - 1] == Decimal(v.minor)[|Decimal(v.minor)| - 1];
    assert s[..|Decimal(v.major)|] == Decimal(v.major) && s[|Decimal(v.major)| + 1..] == Decimal(v.minor);
  }

  /** The pattern also takes a text with one newline after it, for the same version. */
  lemma ParseWithNewline(v: Version)
    requires v.major > 0
    ensures Parse(GetString(v).value + "\n") == Some(v)
  {
    hide Number, Decimal, Canonical, Dot;
    var s := Decimal(v.major) + "." + Decimal(v.minor);
    ParseOfDecimals(v);
    assert s[|s| - 1] == Decimal(v.minor)[|Decimal(v.minor)| - 1];
    assert Text(s) == s && Text(s + "\n") == s;
  }
}
