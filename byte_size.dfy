/**
 * `To_Byte_Size` of the upload filters: a size string such as "1mb" or
 * "2KB" to a number of bytes. The string is cut where a digit is followed by
 * one of the letters T G B M K (either case); the piece after the first cut is
 * matched against the unit patterns TB, GB, MB, KB in that order, each an
 * unanchored two-character class pattern. With no cut or no matching unit the
 * whole string goes through `parseInt`. `None` stands for JavaScript's NaN.
 */
module ByteSize {
  import opened Wrappers
  import opened Strings

  /** `parseInt(s)`: an optional sign, then the longest run of decimal digits; NaN when there is none. */
  function ParseInt(s: string): (r: Option<int>)
    ensures AllDigits(s) && |s| > 0 ==> r == Some(DecimalValue(s))
  {
    var negative := |s| > 0 && s[0] == '-';
    var body := if |s| > 0 && (s[0] == '-' || s[0] == '+') then s[1..] else s;
    var digits := LeadingDigits(body);
    var n: int := DecimalValue(digits);
    if |digits| == 0 then None
    else if negative then Some(-n)
    else Some(n)
  }

  /** The longest prefix of `s` made of decimal digits. */
  function LeadingDigits(s: string): (d: string)
    ensures AllDigits(d) && d <= s
    ensures |d| < |s| ==> !IsDigit(s[|d|])
    ensures AllDigits(s) ==> d == s
  {
    if |s| == 0 || !IsDigit(s[0]) then ""
    else
      var rest := LeadingDigits(s[1..]);
      assert AllDigits(s) ==> AllDigits(s[1..]);
      [s[0]] + rest
  }

  predicate IsUnitLetter(c: char) {
    c in "TtGgBbMmKk"
  }

  /** The split regex `(?<=[0-9])(?=[TtGgBbMmKk])` cuts between `s[i-1]` and `s[i]`. */
  predicate CutAt(s: string, i: nat) {
    0 < i < |s| && IsDigit(s[i - 1]) && IsUnitLetter(s[i])
  }

  /** The first cut at or after `from`. */
  function NextCut(s: string, from: nat): (r: Option<nat>)
    ensures r.Some? ==> from <= r.value < |s| && CutAt(s, r.value)
    ensures r.Some? ==> forall j :: from <= j < r.value ==> !CutAt(s, j)
    ensures r.None? ==> forall j :: from <= j ==> !CutAt(s, j)
    decreases |s| - from
  {
    if from >= |s| then None
    else if CutAt(s, from) then Some(from)
    else NextCut(s, from + 1)
  }

  /** `binarySplit[0]` and `binarySplit[1]`, when the split produced at least two pieces. */
  function NumberAndUnit(s: string): Option<(string, string)> {
    match NextCut(s, 0)
    case None => None
    case Some(p) =>
      var q := match NextCut(s, p + 1) case Some(q) => q case None => |s|;
      Some((s[..p], s[p..q]))
  }

  /** A two-character regex pattern `[first][second]` matched anywhere in a string. */
  datatype Unit = Unit(first: string, second: string, power: nat)

  /** `pattern.test(s)` for an unanchored two-class pattern. */
  predicate Occurs(s: string, u: Unit) {
    |s| >= 2 && ((s[0] in u.first && s[1] in u.second) || Occurs(s[1..], u))
  }

  /** The unit table as the source writes it: the gigabyte pattern is `[Gb][Bb]`. */
  const UnitsAsWritten: seq<Unit> := [Unit("Tt", "Bb", 4), Unit("Gb", "Bb", 3), Unit("Mm", "Bb", 2), Unit("Kk", "Bb", 1)]

  /** The unit table with the gigabyte pattern `[Gg][Bb]`, case-insensitive like the other three. */
  const Units: seq<Unit> := [Unit("Tt", "Bb", 4), Unit("Gg", "Bb", 3), Unit("Mm", "Bb", 2), Unit("Kk", "Bb", 1)]

  /** The power of 1024 of the first unit in `units` whose pattern occurs in `s`. */
  function MatchUnit(units: seq<Unit>, s: string): (k: Option<nat>)
    ensures k.Some? <==> exists i :: 0 <= i < |units| && Occurs(s, units[i])
    ensures k.Some? ==> exists i :: 0 <= i < |units| && Occurs(s, units[i]) && k.value == units[i].power &&
                          forall j :: 0 <= j < i ==> !Occurs(s, units[j])
  {
    if |units| == 0 then None
    else if Occurs(s, units[0]) then Some(units[0].power)
    else MatchUnit(units[1..], s)
  }

  /** On a two-character unit the pattern test is a test of its two characters. */
  lemma OccursInPair(u: string, unit: Unit)
    requires |u| == 2
    ensures Occurs(u, unit) <==> u[0] in unit.first && u[1] in unit.second
  {
    assert !Occurs(u[1..], unit);
  }

  function Pow1024(k: nat): nat {
    if k == 0 then 1 else 1024 * Pow1024(k - 1)
  }

  /** `To_Byte_Size` with a given unit table; NaN exactly when `parseInt` finds no number in the input. */
  function ToByteSizeWith(units: seq<Unit>, s: string): (r: Option<int>)
    ensures r.None? <==> ParseInt(s).None?
  {
    var fallback := ParseInt(s);
    match NumberAndUnit(s)
    case None => fallback
    case Some((number, unit)) =>
      match MatchUnit(units, unit)
      case None => fallback
      case Some(k) =>
        NumberParses(s);
        match ParseInt(number)
        case None => None
        case Some(n) => Some(n * Pow1024(k))
  }

  /** `parseInt` sees a number in a prefix that ends with a digit iff it sees one in the whole string. */
  lemma ParseIntPrefix(s: string, p: nat)
    requires 0 < p <= |s| && IsDigit(s[p - 1])
    ensures ParseInt(s[..p]).None? <==> ParseInt(s).None?
  {
    var t := s[..p];
    assert t[0] == s[0];
    if s[0] == '-' || s[0] == '+' {
      assert p >= 2;
      assert t[1..][0] == s[1..][0];
    } else {
      assert t[0] == s[0];
    }
  }

  /** The number before the unit reads as a number iff the whole input does. */
  lemma NumberParses(s: string)
    requires NumberAndUnit(s).Some?
    ensures ParseInt(NumberAndUnit(s).value.0).None? <==> ParseInt(s).None?
  {
    ParseIntPrefix(s, NextCut(s, 0).value);
  }

  /** `To_Byte_Size` exactly as the source writes it. */
  function ToByteSizeAsWritten(s: string): Option<int> {
    ToByteSizeWith(UnitsAsWritten, s)
  }

  /** `To_Byte_Size` with the gigabyte pattern corrected; this is what the rest of the model uses. */
  function ToByteSize(s: string): Option<int> {
    ToByteSizeWith(Units, s)
  }

  /** A run of digits followed by a two-letter unit is cut exactly between number and unit. */
  lemma NumberThenUnit(d: string, u: string)
    requires |d| > 0 && AllDigits(d)
    requires |u| == 2 && IsUnitLetter(u[0]) && !IsDigit(u[1])
    ensures NumberAndUnit(d + u) == Some((d, u))
  {
    var s := d + u;
    assert CutAt(s, |d|);
    forall j | 0 <= j < |d| ensures !CutAt(s, j) {
      assert IsDigit(s[j]);
    }
    assert !CutAt(s, |d| + 1);
    assert NextCut(s, 0) == Some(|d|);
    assert NextCut(s, |d| + 1) == None;
    assert s[..|d|] == d && s[|d|..|s|] == u;
  }

  /**
   * A number followed by a unit is that many bytes times the unit's power of
   * 1024, whenever the unit matches a pattern of the table.
   */
  lemma {:induction false} SizeWithUnit(units: seq<Unit>, d: string, u: string, k: nat)
    requires |d| > 0 && AllDigits(d)
    requires |u| == 2 && IsUnitLetter(u[0]) && !IsDigit(u[1])
    requires MatchUnit(units, u) == Some(k)
    ensures ToByteSizeWith(units, d + u) == Some(DecimalValue(d) * Pow1024(k))
  {
    NumberThenUnit(d, u);
  }

  /** A bare run of digits is read as that many bytes. */
  lemma {:induction false} SizeWithoutUnit(units: seq<Unit>, d: string)
    requires |d| > 0 && AllDigits(d)
    ensures ToByteSizeWith(units, d) == Some(DecimalValue(d))
  {
    forall j | 0 <= j ensures !CutAt(d, j) {
      if 0 < j < |d| {
        assert IsDigit(d[j]);
      }
    }
    assert NextCut(d, 0) == None;
  }

  /** "1mb" is 1048576 bytes. */
  lemma OneMegabyte()
    ensures ToByteSize("1mb") == Some(1048576)
  {
    assert "1mb" == "1" + "mb";
    OccursInPair("mb", Units[0]);
    OccursInPair("mb", Units[1]);
    OccursInPair("mb", Units[2]);
    assert Units[1..][1..] == Units[2..];
    assert MatchUnit(Units, "mb") == Some(2);
    assert Pow1024(2) == 1048576;
    assert DecimalValue("1") == 1;
    SizeWithUnit(Units, "1", "mb", 2);
  }

  /** "2KB" is 2048 bytes. */
  lemma TwoKilobytes()
    ensures ToByteSize("2KB") == Some(2048)
  {
    assert "2KB" == "2" + "KB";
    OccursInPair("KB", Units[0]);
    OccursInPair("KB", Units[1]);
    OccursInPair("KB", Units[2]);
    OccursInPair("KB", Units[3]);
    assert Units[1..][1..] == Units[2..] && Units[2..][1..] == Units[3..];
    assert MatchUnit(Units, "KB") == Some(1);
    assert Pow1024(1) == 1024;
    assert DecimalValue("2") == 2;
    SizeWithUnit(Units, "2", "KB", 1);
  }

  /** "500" is 500 bytes. */
  lemma FiveHundredBytes()
    ensures ToByteSize("500") == Some(500)
  {
    assert AllDigits("500");
    assert DecimalValue("500") == 500 by {
      assert "500"[..2] == "50" && "50"[..1] == "5";
    }
    SizeWithoutUnit(Units, "500");
  }

  /** As written, "1gb" misses the gigabyte pattern and falls back to `parseInt`: 1 byte. */
  lemma GigabyteLowercaseAsWritten()
    ensures ToByteSizeAsWritten("1gb") == Some(1)
  {
    var s := "1gb";
    assert s == "1" + "gb";
    NumberThenUnit("1", "gb");
    LowercaseGigabyteUnmatched();
    UnmatchedUnitFallsBack(UnitsAsWritten, s);
    OneDigitThenLetter(s);
    assert s[..1] == "1" && DecimalValue("1") == 1;
  }

  /** `parseInt` of a digit followed by a non-digit reads that one digit. */
  lemma OneDigitThenLetter(s: string)
    requires |s| >= 2 && IsDigit(s[0]) && !IsDigit(s[1])
    ensures ParseInt(s) == Some(DecimalValue(s[..1]))
  {
    assert LeadingDigits(s[1..]) == "";
    assert LeadingDigits(s) == s[..1];
    ParseIntUnsigned(s);
  }

  /** Without a sign, `parseInt` reads the leading digits. */
  lemma ParseIntUnsigned(s: string)
    requires |s| > 0 && IsDigit(s[0])
    ensures ParseInt(s) == Some(DecimalValue(LeadingDigits(s)))
  {
    assert s[0] != '-' && s[0] != '+';
  }

  /** No pattern of the table as written matches "gb". */
  lemma LowercaseGigabyteUnmatched()
    ensures MatchUnit(UnitsAsWritten, "gb") == None
  {
    OccursInPair("gb", UnitsAsWritten[0]);
    OccursInPair("gb", UnitsAsWritten[1]);
    OccursInPair("gb", UnitsAsWritten[2]);
    OccursInPair("gb", UnitsAsWritten[3]);
  }

  /** A unit that no pattern of the table matches leaves the whole string to `parseInt`. */
  lemma UnmatchedUnitFallsBack(units: seq<Unit>, s: string)
    requires NumberAndUnit(s).Some? && MatchUnit(units, NumberAndUnit(s).value.1).None?
    ensures ToByteSizeWith(units, s) == ParseInt(s)
  {
  }

  /** With the corrected table, "1gb" is 1073741824 bytes. */
  lemma GigabyteLowercase()
    ensures ToByteSize("1gb") == Some(1073741824)
  {
    assert "1gb" == "1" + "gb";
    OccursInPair("gb", Units[0]);
    OccursInPair("gb", Units[1]);
    assert MatchUnit(Units, "gb") == Some(3);
    assert Pow1024(3) == 1073741824;
    assert DecimalValue("1") == 1;
    SizeWithUnit(Units, "1", "gb", 3);
  }

  /**
   * With the corrected table a two-letter unit ending in B or b is a power of
   * 1024 by its first letter, either case: T 4, G 3, M 2, K 1; any other
   * unit matches nothing.
   */
  lemma UnitPower(u: string)
    requires |u| == 2
    ensures MatchUnit(Units, u) ==
      if u[1] !in "Bb" then None
      else if u[0] in "Tt" then Some(4)
      else if u[0] in "Gg" then Some(3)
      else if u[0] in "Mm" then Some(2)
      else if u[0] in "Kk" then Some(1)
      else None
  {
    OccursInPair(u, Units[0]);
    OccursInPair(u, Units[1]);
    OccursInPair(u, Units[2]);
    OccursInPair(u, Units[3]);
    assert Units[1..][1..] == Units[2..] && Units[2..][1..] == Units[3..] && Units[3..][1..] == [];
  }

  /** As written the gigabyte entry takes G or b, not g, as its first letter. */
  lemma UnitPowerAsWritten(u: string)
    requires |u| == 2
    ensures MatchUnit(UnitsAsWritten, u) ==
      if u[1] !in "Bb" then None
      else if u[0] in "Tt" then Some(4)
      else if u[0] in "Gb" then Some(3)
      else if u[0] in "Mm" then Some(2)
      else if u[0] in "Kk" then Some(1)
      else None
  {
    OccursInPair(u, UnitsAsWritten[0]);
    OccursInPair(u, UnitsAsWritten[1]);
    OccursInPair(u, UnitsAsWritten[2]);
    OccursInPair(u, UnitsAsWritten[3]);
    assert UnitsAsWritten[1..][1..] == UnitsAsWritten[2..] && UnitsAsWritten[2..][1..] == UnitsAsWritten[3..]
      && UnitsAsWritten[3..][1..] == [];
  }

  /** "<n>TB", "<n>GB", "<n>MB" and "<n>KB", in either case, are n times 1024 to the 4th, 3rd, 2nd and 1st power. */
  lemma UnitSizes(d: string, u: string)
    requires |d| > 0 && AllDigits(d)
    requires |u| == 2 && u[1] in "Bb"
    requires u[0] in "TtGgMmKk"
    ensures ToByteSize(d + u) == Some(DecimalValue(d) *
      if u[0] in "Tt" then 1099511627776
      else if u[0] in "Gg" then 1073741824
      else if u[0] in "Mm" then 1048576
      else 1024)
  {
    UnitPower(u);
    if u[0] in "Tt" {
      assert Pow1024(4) == 1099511627776;
      SizeWithUnit(Units, d, u, 4);
    } else if u[0] in "Gg" {
      assert Pow1024(3) == 1073741824;
      SizeWithUnit(Units, d, u, 3);
    } else if u[0] in "Mm" {
      assert Pow1024(2) == 1048576;
      SizeWithUnit(Units, d, u, 2);
    } else if u[0] in "Kk" {
      SizeWithUnit(Units, d, u, 1);
    }
  }

  /** As written, "1bb" matches the gigabyte entry `[Gb][Bb]`: 1073741824 bytes. */
  lemma DoubleBAsWritten()
    ensures ToByteSizeAsWritten("1bb") == Some(1073741824)
  {
    assert "1bb" == "1" + "bb";
    UnitPowerAsWritten("bb");
    assert Pow1024(3) == 1073741824;
    assert DecimalValue("1") == 1;
    SizeWithUnit(UnitsAsWritten, "1", "bb", 3);
  }
}
