/**
 * 2020/04.2.rb: the same scanned passport, now checked by nine registered
 * validations. Each validation names an attribute and options (presence,
 * a range its to_i must fall in, possibly only when the attribute's text
 * includes a unit, a list of allowed values, an anchored format), and the
 * passport is valid when every validation holds.
 */
module PassportRules {
  import opened Wrappers
  import opened RubyText
  import opened Passports

  /** A Ruby range first..last, both ends included. */
  datatype Range = Range(first: int, last: int)

  predicate Covers(r: Range, n: int) { r.first <= n <= r.last }

  /** The :if option of the height rules: passport.<attribute>.to_s.include?(text). */
  datatype Condition = Includes(attribute: string, text: string)

  /** The three formats, each written \A...\Z and compiled with /i. */
  datatype Format = HeightFormat | HairColorFormat | PassportIdFormat

  datatype Options = Options(presence: bool, within: Option<Range>, condition: Option<Condition>, oneOf: Option<seq<string>>, format: Option<Format>)

  /** One call of Passport.validate. */
  datatype Validation = Validation(attribute: string, opts: Options)

  const EyeColors: seq<string> := ["amb", "blu", "brn", "gry", "grn", "hzl", "oth"]

  // The nine calls of Passport.validate in the class body.
  const BirthYearRule := Validation("byr", Options(true, Some(Range(1920, 2002)), None, None, None))
  const IssueYearRule := Validation("iyr", Options(true, Some(Range(2010, 2020)), None, None, None))
  const ExpirationYearRule := Validation("eyr", Options(true, Some(Range(2020, 2030)), None, None, None))
  const HeightFormatRule := Validation("hgt", Options(true, None, None, None, Some(HeightFormat)))
  const HeightCmRule := Validation("hgt", Options(false, Some(Range(150, 193)), Some(Includes("hgt", "cm")), None, None))
  const HeightInRule := Validation("hgt", Options(false, Some(Range(59, 76)), Some(Includes("hgt", "in")), None, None))
  const HairColorRule := Validation("hcl", Options(true, None, None, None, Some(HairColorFormat)))
  const EyeColorRule := Validation("ecl", Options(true, None, None, Some(EyeColors), None))
  const PassportIdRule := Validation("pid", Options(true, None, None, None, Some(PassportIdFormat)))

  /** to_s and string interpolation: nil becomes the empty string. */
  function ToS(value: Option<string>): string
  {
    if value.Some? then value.value else ""
  }

  /** String#include? */
  predicate Contains(s: string, t: string)
    decreases |s|
  {
    t <= s || (s != [] && Contains(s[1..], t))
  }

  predicate IsHexDigit(c: char) { IsDigit(c) || 'a' <= c <= 'f' || 'A' <= c <= 'F' }

  /** (in|cm) under /i. */
  predicate IsUnit(u: string)
  {
    |u| == 2 && ((u[0] in "iI" && u[1] in "nN") || (u[0] in "cC" && u[1] in "mM"))
  }

  /** What a format requires between \A and \Z. */
  predicate FormatBody(f: Format, s: string)
  {
    match f
    case HeightFormat => (|s| == 4 || |s| == 5) && All(s[..|s| - 2], IsDigit) && IsUnit(s[|s| - 2..])
    case HairColorFormat => |s| == 7 && s[0] == '#' && All(s[1..], IsHexDigit)
    case PassportIdFormat => |s| == 9 && All(s, IsDigit)
  }

  /** value =~ format: \A anchors at the start; \Z at the end or before a final newline. */
  predicate Matches(f: Format, s: string)
  {
    FormatBody(f, s) || (s != [] && s[|s| - 1] == '\n' && FormatBody(f, s[..|s| - 1]))
  }

  predicate ConditionHolds(p: Passport, condition: Option<Condition>)
  {
    condition.None? || Contains(ToS(Lookup(p, condition.value.attribute)), condition.value.text)
  }

  /**
   * The proc Passport.validate registers: valid starts true; presence sets
   * it to whether the interpolated value is non-empty; within (when its
   * condition holds) and one_of and format are each and-ed on. nil.to_i is
   * 0, include?(nil) is false and nil =~ format is nil.
   */
  predicate Check(p: Passport, v: Validation)
  {
    var value := Lookup(p, v.attribute);
    var o := v.opts;
    var afterPresence := if o.presence then ToS(value) != [] else true;
    var afterWithin :=
      if o.within.Some? && ConditionHolds(p, o.condition) then afterPresence && Covers(o.within.value, ToI(ToS(value)))
      else afterPresence;
    var afterOneOf := if o.oneOf.Some? then afterWithin && value.Some? && value.value in o.oneOf.value else afterWithin;
    if o.format.Some? then afterOneOf && value.Some? && Matches(o.format.value, value.value) else afterOneOf
  }

  /** valid?: every registered validation holds (the registry is a set, so their order does not matter). */
  predicate Valid(p: Passport)
  {
    && Check(p, BirthYearRule) && Check(p, IssueYearRule) && Check(p, ExpirationYearRule)
    && Check(p, HeightFormatRule) && Check(p, HeightCmRule) && Check(p, HeightInRule)
    && Check(p, HairColorRule) && Check(p, EyeColorRule) && Check(p, PassportIdRule)
  }

  // ---------------------------------------------------------------------------
  // The rules field by field, written directly

  predicate YearIn(value: Option<string>, first: int, last: int)
  {
    value.Some? && value.value != [] && first <= ToI(value.value) <= last
  }

  /** A height in the format; its number in 150..193 when it says cm, in 59..76 when it says in. */
  predicate HeightOk(value: Option<string>)
  {
    && value.Some? && Matches(HeightFormat, value.value)
    && (Contains(value.value, "cm") ==> 150 <= ToI(value.value) <= 193)
    && (Contains(value.value, "in") ==> 59 <= ToI(value.value) <= 76)
  }

  predicate HairColorOk(value: Option<string>) { value.Some? && Matches(HairColorFormat, value.value) }

  predicate EyeColorOk(value: Option<string>) { value.Some? && value.value in EyeColors }

  predicate PassportIdOk(value: Option<string>) { value.Some? && Matches(PassportIdFormat, value.value) }

  /** A string that matches a format is not empty. */
  lemma MatchesNonEmpty(f: Format, s: string)
    requires Matches(f, s)
    ensures s != []
  {
  }

  lemma BirthYearCheck(p: Passport)
    ensures Check(p, BirthYearRule) <==> YearIn(Lookup(p, "byr"), 1920, 2002)
  {
  }

  lemma IssueYearCheck(p: Passport)
    ensures Check(p, IssueYearRule) <==> YearIn(Lookup(p, "iyr"), 2010, 2020)
  {
  }

  lemma ExpirationYearCheck(p: Passport)
    ensures Check(p, ExpirationYearRule) <==> YearIn(Lookup(p, "eyr"), 2020, 2030)
  {
  }

  lemma HeightChecks(p: Passport)
    ensures Check(p, HeightFormatRule) && Check(p, HeightCmRule) && Check(p, HeightInRule) <==> HeightOk(Lookup(p, "hgt"))
  {
    var hgt := Lookup(p, "hgt");
    if hgt.Some? && Matches(HeightFormat, hgt.value) {
      MatchesNonEmpty(HeightFormat, hgt.value);
    }
  }

  lemma OtherChecks(p: Passport)
    ensures Check(p, HairColorRule) <==> HairColorOk(Lookup(p, "hcl"))
    ensures Check(p, EyeColorRule) <==> EyeColorOk(Lookup(p, "ecl"))
    ensures Check(p, PassportIdRule) <==> PassportIdOk(Lookup(p, "pid"))
  {
    var hcl := Lookup(p, "hcl");
    if hcl.Some? && Matches(HairColorFormat, hcl.value) {
      MatchesNonEmpty(HairColorFormat, hcl.value);
    }
    var pid := Lookup(p, "pid");
    if pid.Some? && Matches(PassportIdFormat, pid.value) {
      MatchesNonEmpty(PassportIdFormat, pid.value);
    }
  }

  /** The registered validations amount to one rule per required attribute; cid is not among them. */
  lemma ValidIff(p: Passport)
    ensures Valid(p) <==>
      && YearIn(Lookup(p, "byr"), 1920, 2002) && YearIn(Lookup(p, "iyr"), 2010, 2020) && YearIn(Lookup(p, "eyr"), 2020, 2030)
      && HeightOk(Lookup(p, "hgt")) && HairColorOk(Lookup(p, "hcl")) && EyeColorOk(Lookup(p, "ecl"))
      && PassportIdOk(Lookup(p, "pid"))
  {
    BirthYearCheck(p);
    IssueYearCheck(p);
    ExpirationYearCheck(p);
    HeightChecks(p);
    OtherChecks(p);
  }

  /** Every passport these rules accept also has every attribute 2020/04.rb requires. */
  lemma RulesImplyPresence(p: Passport)
    requires Valid(p)
    ensures Passports.Valid(p)
  {
    ValidIff(p);
    Passports.ValidIff(p);
  }

  /** Only the seven required attributes are checked: cid, or any other key, changes nothing. */
  lemma OnlyRequiredAttributes(p: Passport, key: string, value: Option<string>)
    requires key !in RequiredAttributes
    ensures Valid(Passport(p.attributes[key := value])) == Valid(p)
  {
    var q := Passport(p.attributes[key := value]);
    assert forall a :: a in RequiredAttributes ==> Lookup(q, a) == Lookup(p, a);
    assert "byr" in RequiredAttributes && "iyr" in RequiredAttributes && "eyr" in RequiredAttributes;
    assert "hgt" in RequiredAttributes && "hcl" in RequiredAttributes && "ecl" in RequiredAttributes;
    assert "pid" in RequiredAttributes;
    ValidIff(p);
    ValidIff(q);
  }

  // ---------------------------------------------------------------------------
  // What the rules mean for values written as the puzzle writes them

  /** String#to_i of digits followed by text that cannot extend the number. */
  lemma {:induction false} NumeralDigitsThen(ds: string, rest: string)
    requires All(ds, IsDigit)
    requires rest == [] || (!IsDigit(rest[0]) && rest[0] != '_')
    ensures NumeralDigits(ds + rest) == ds
  {
    if ds == [] {
      assert ds + rest == rest;
    } else {
      var s := ds + rest;
      assert s[1..] == ds[1..] + rest;
      assert |s| >= 2 ==> s[1] != '_';
      NumeralDigitsThen(ds[1..], rest);
    }
  }

  lemma ToIDigitsThen(ds: string, rest: string)
    requires ds != [] && All(ds, IsDigit)
    requires rest == [] || (!IsDigit(rest[0]) && rest[0] != '_')
    requires ds == "0" ==> rest == [] || (rest[0] != 'd' && rest[0] != 'D')
    ensures ToI(ds + rest) == DecimalValue(ds)
  {
    assert Span(ds + rest, IsSpace) == 0;
    assert (ds + rest)[0..] == ds + rest;
    NumeralDigitsThen(ds, rest);
  }

  /** A string includes any text it ends with. */
  lemma {:induction false} ContainsSuffix(s: string, t: string)
    ensures Contains(s + t, t)
  {
    if s != [] {
      assert (s + t)[1..] == s[1..] + t;
      ContainsSuffix(s[1..], t);
    }
  }

  /** A string does not include a text whose first character it lacks. */
  lemma {:induction false} LacksFirstChar(s: string, t: string)
    requires t != [] && forall i :: 0 <= i < |s| ==> s[i] != t[0]
    ensures !Contains(s, t)
  {
    if s != [] {
      assert !(t <= s) by {
        assert s[0] != t[0];
      }
      LacksFirstChar(s[1..], t);
    }
  }

  /** A year written in decimal passes its rule exactly when it lies in the rule's range. */
  lemma YearText(n: nat, first: int, last: int)
    ensures YearIn(Some(NatDigits(n)), first, last) <==> first <= n <= last
  {
    ToIOfDigits(NatDigits(n));
    DecimalValueOfNatDigits(n);
  }

  /** Two or three digits and a unit match the height format, and to_i reads the digits. */
  lemma HeightWithUnit(ds: string, unit: string)
    requires 2 <= |ds| <= 3 && All(ds, IsDigit) && IsUnit(unit)
    ensures Matches(HeightFormat, ds + unit) && ToI(ds + unit) == DecimalValue(ds)
  {
    var v := ds + unit;
    assert v[..|v| - 2] == ds && v[|v| - 2..] == unit;
    ToIDigitsThen(ds, unit);
  }

  /** Digits followed by a unit do not include a text that starts with a letter the unit lacks. */
  lemma LacksLetter(ds: string, unit: string, t: string)
    requires All(ds, IsDigit) && t != [] && !IsDigit(t[0]) && t[0] !in unit
    ensures !Contains(ds + unit, t)
  {
    var v := ds + unit;
    forall i | 0 <= i < |v| ensures v[i] != t[0] {
      if i >= |ds| {
        assert v[i] == unit[i - |ds|];
      }
    }
    LacksFirstChar(v, t);
  }

  /** A height in centimetres passes exactly when its number is in 150..193. */
  lemma HeightCm(ds: string)
    requires 2 <= |ds| <= 3 && All(ds, IsDigit)
    ensures HeightOk(Some(ds + "cm")) <==> 150 <= DecimalValue(ds) <= 193
  {
    HeightWithUnit(ds, "cm");
    ContainsSuffix(ds, "cm");
    LacksLetter(ds, "cm", "in");
  }

  /** A height in inches passes exactly when its number is in 59..76. */
  lemma HeightIn(ds: string)
    requires 2 <= |ds| <= 3 && All(ds, IsDigit)
    ensures HeightOk(Some(ds + "in")) <==> 59 <= DecimalValue(ds) <= 76
  {
    HeightWithUnit(ds, "in");
    ContainsSuffix(ds, "in");
    LacksLetter(ds, "in", "cm");
  }

  /**
   * With the unit in capitals the format, compiled with /i, still matches,
   * but include? is case-sensitive, so no range applies and any two or
   * three digits pass.
   */
  lemma HeightCapitals(ds: string)
    requires 2 <= |ds| <= 3 && All(ds, IsDigit)
    ensures HeightOk(Some(ds + "CM")) && HeightOk(Some(ds + "IN"))
  {
    HeightWithUnit(ds, "CM");
    HeightWithUnit(ds, "IN");
    LacksLetter(ds, "CM", "cm");
    LacksLetter(ds, "CM", "in");
    LacksLetter(ds, "IN", "cm");
    LacksLetter(ds, "IN", "in");
  }

  /** A height without a unit fails. */
  lemma HeightWithoutUnit(ds: string)
    requires All(ds, IsDigit)
    ensures !HeightOk(Some(ds))
  {
    if ds != [] {
      assert IsDigit(ds[|ds| - 1]);
    }
    if |ds| >= 2 {
      var u := ds[|ds| - 2..];
      assert u[0] == ds[|ds| - 2] && IsDigit(u[0]);
    }
  }

  // ---------------------------------------------------------------------------
  // TestPassport (2020/04.2.rb): each input is the text Render writes for a
  // test record, and Passport.scan reads the record back.

  /** A test record passes exactly when each of its values passes its rule. */
  lemma ScanTestRecordValid(fs: seq<Field>, ecl: string, pid: string, eyr: string, hcl: string, byr: string, iyr: string, hgt: string)
    requires fs == TestRecord(ecl, pid, eyr, hcl, byr, iyr, hgt)
    requires ValueText(ecl) && ValueText(pid) && ValueText(eyr) && ValueText(hcl)
    requires ValueText(byr) && ValueText(iyr) && ValueText(hgt)
    ensures Valid(Scan(Render(fs))) <==>
      && YearIn(Some(byr), 1920, 2002) && YearIn(Some(iyr), 2010, 2020) && YearIn(Some(eyr), 2020, 2030)
      && HeightOk(Some(hgt)) && HairColorOk(Some(hcl)) && EyeColorOk(Some(ecl)) && PassportIdOk(Some(pid))
  {
    ScanTestRecord(fs, ecl, pid, eyr, hcl, byr, iyr, hgt);
    ValidIff(Scan(Render(fs)));
  }

  /** A year as the tests write it. */
  lemma Year(text: string, n: nat, first: int, last: int)
    requires text == NatDigits(n)
    ensures YearIn(Some(text), first, last) <==> first <= n <= last
  {
    YearText(n, first, last);
  }

  /** A height as the tests write it: a two- or three-digit number and cm or in. */
  lemma Height(text: string, n: nat, unit: string)
    requires 10 <= n <= 999 && unit in ["cm", "in"] && text == NatDigits(n) + unit
    ensures HeightOk(Some(text)) <==> if unit == "cm" then 150 <= n <= 193 else 59 <= n <= 76
  {
    var ds := NatDigits(n);
    assert 2 <= |ds| <= 3 by {
      assert n / 10 < 10 ==> |ds| == 2;
      assert n / 10 >= 10 ==> |NatDigits(n / 10)| == 2;
    }
    DecimalValueOfNatDigits(n);
    if unit == "cm" {
      HeightCm(ds);
    } else {
      HeightIn(ds);
    }
  }

  /** The birth years the tests use: 1937 and 2001 pass, 1919 and 2003 do not. */
  lemma BirthYears(byr: string)
    requires byr in ["1937", "2001", "1919", "2003"]
    ensures YearIn(Some(byr), 1920, 2002) <==> byr == "1937" || byr == "2001"
  {
    if byr == "1937" {
      Year(byr, 1937, 1920, 2002);
    } else if byr == "2001" {
      Year(byr, 2001, 1920, 2002);
    } else if byr == "1919" {
      Year(byr, 1919, 1920, 2002);
    } else {
      Year(byr, 2003, 1920, 2002);
    }
  }

  /** The issue years the tests use: 2017 and 2020 pass, 2009 and 2021 do not. */
  lemma IssueYears(iyr: string)
    requires iyr in ["2017", "2020", "2009", "2021"]
    ensures YearIn(Some(iyr), 2010, 2020) <==> iyr == "2017" || iyr == "2020"
  {
    if iyr == "2017" {
      Year(iyr, 2017, 2010, 2020);
    } else if iyr == "2020" {
      Year(iyr, 2020, 2010, 2020);
    } else if iyr == "2009" {
      Year(iyr, 2009, 2010, 2020);
    } else {
      Year(iyr, 2021, 2010, 2020);
    }
  }

  /** The expiration years the tests use: 2020 and 2030 pass, 2019 and 2031 do not. */
  lemma ExpirationYears(eyr: string)
    requires eyr in ["2020", "2030", "2019", "2031"]
    ensures YearIn(Some(eyr), 2020, 2030) <==> eyr == "2020" || eyr == "2030"
  {
    if eyr == "2020" {
      Year(eyr, 2020, 2020, 2030);
    } else if eyr == "2030" {
      Year(eyr, 2030, 2020, 2030);
    } else if eyr == "2019" {
      Year(eyr, 2019, 2020, 2030);
    } else {
      Year(eyr, 2031, 2020, 2030);
    }
  }

  /** The heights the tests use: 183cm and 76in pass; 183 (no unit), 149cm, 194cm, 58in and 77in do not. */
  lemma Heights(hgt: string)
    requires hgt in ["183cm", "76in", "183", "149cm", "194cm", "58in", "77in"]
    ensures HeightOk(Some(hgt)) <==> hgt == "183cm" || hgt == "76in"
  {
    if hgt == "183" {
      HeightWithoutUnit(hgt);
    } else if hgt == "183cm" {
      Height(hgt, 183, "cm");
    } else if hgt == "149cm" {
      Height(hgt, 149, "cm");
    } else if hgt == "194cm" {
      Height(hgt, 194, "cm");
    } else if hgt == "76in" {
      Height(hgt, 76, "in");
    } else if hgt == "58in" {
      Height(hgt, 58, "in");
    } else {
      Height(hgt, 77, "in");
    }
  }

  /** The hair colours the tests use: #fffffd and #fffffa pass; #fffffz, #fffff and fffffa do not. */
  lemma HairColors(hcl: string)
    requires hcl in ["#fffffd", "#fffffa", "#fffffz", "#fffff", "fffffa"]
    ensures HairColorOk(Some(hcl)) <==> hcl == "#fffffd" || hcl == "#fffffa"
  {
    if hcl == "#fffffz" {
      assert !IsHexDigit(hcl[1..][5]);
    }
  }

  /** gray, which the tests try, is not one of the colours. */
  lemma NotAnEyeColor(ecl: string)
    requires ecl == "gray"
    ensures !EyeColorOk(Some(ecl))
  {
    assert ecl[1] == 'r';
  }

  /** The passport ids the tests use: nine digits pass, leading zeros included; ten digits, eight digits or a letter do not. */
  lemma PassportIds(pid: string)
    requires pid in ["860033327", "000000000", "0000000010", "00000001", "a00000001"]
    ensures PassportIdOk(Some(pid)) <==> pid == "860033327" || pid == "000000000"
  {
    if pid == "a00000001" {
      assert !IsDigit(pid[0]);
    }
  }

  /** test_all_required_attributes_present */
  lemma AllRequiredAttributesPresent(fs: seq<Field>)
    requires fs == TestRecord("gry", "860033327", "2020", "#fffffd", "1937", "2017", "183cm")
    ensures Valid(Scan(Render(fs)))
  {
    ScanTestRecordValid(fs, "gry", "860033327", "2020", "#fffffd", "1937", "2017", "183cm");
    BirthYears("1937");
    IssueYears("2017");
    ExpirationYears("2020");
    Heights("183cm");
    HairColors("#fffffd");
    PassportIds("860033327");
    assert "gry" in EyeColors;
  }

  /** test_optional_attribute: the same passport without cid. */
  lemma OptionalAttribute(fs: seq<Field>)
    requires fs == RecordWithoutCid("gry", "860033327", "2020", "#fffffd", "1937", "2017", "183cm")
    ensures Valid(Scan(Render(fs)))
  {
    ScanRecordWithoutCid(fs, "gry", "860033327", "2020", "#fffffd", "1937", "2017", "183cm");
    ValidIff(Scan(Render(fs)));
    BirthYears("1937");
    IssueYears("2017");
    ExpirationYears("2020");
    Heights("183cm");
    HairColors("#fffffd");
    PassportIds("860033327");
  }


  /** test_missing_one_required_attribute: no byr. */
  lemma MissingOneRequiredAttribute(fs: seq<Field>)
    requires fs == [Field("ecl", Some("gry")), Field("pid", Some("860033327")), Field("eyr", Some("2020")), Field("hcl", Some("#fffffd")),
                    Field("iyr", Some("2017")), Field("cid", Some("147")), Field("hgt", Some("183cm"))]
    ensures !Valid(Scan(Render(fs)))
  {
    assert AllWellFormed(fs) by {
      forall k | 0 <= k < |fs| ensures WellFormed(fs[k]) {
        assert All(fs[k].key, IsWordChar);
        assert All(fs[k].value.value, IsValueChar);
      }
    }
    ScanAbsent(fs, "byr");
    ValidIff(Scan(Render(fs)));
  }

  /** test_missing_more_than_one_required_attribute: ecl misspelt elc, and no pid. */
  lemma MissingMoreThanOneRequiredAttribute(fs: seq<Field>)
    requires fs == [Field("elc", Some("gry")), Field("eyr", Some("2020")), Field("hcl", Some("#fffffd")),
                    Field("byr", Some("1937")), Field("iyr", Some("2017")), Field("cid", Some("147")), Field("hgt", Some("183cm"))]
    ensures !Valid(Scan(Render(fs)))
  {
    assert AllWellFormed(fs) by {
      forall k | 0 <= k < |fs| ensures WellFormed(fs[k]) {
        assert All(fs[k].key, IsWordChar);
        assert All(fs[k].value.value, IsValueChar);
      }
    }
    ScanAbsent(fs, "ecl");
    ValidIff(Scan(Render(fs)));
  }

  /** test_min_birth_year */
  lemma MinBirthYear(fs: seq<Field>)
    requires fs == TestRecord("gry", "860033327", "2020", "#fffffd", "1919", "2017", "183cm")
    ensures !Valid(Scan(Render(fs)))
  {
    ScanTestRecordValid(fs, "gry", "860033327", "2020", "#fffffd", "1919", "2017", "183cm");
    BirthYears("1919");
  }

  /** test_max_birth_year */
  lemma MaxBirthYear(fs: seq<Field>)
    requires fs == TestRecord("gry", "860033327", "2020", "#fffffd", "2003", "2017", "183cm")
    ensures !Valid(Scan(Render(fs)))
  {
    ScanTestRecordValid(fs, "gry", "860033327", "2020", "#fffffd", "2003", "2017", "183cm");
    BirthYears("2003");
  }

  /** test_min_issue_year */
  lemma MinIssueYear(fs: seq<Field>)
    requires fs == TestRecord("gry", "860033327", "2020", "#fffffd", "2001", "2009", "183cm")
    ensures !Valid(Scan(Render(fs)))
  {
    ScanTestRecordValid(fs, "gry", "860033327", "2020", "#fffffd", "2001", "2009", "183cm");
    IssueYears("2009");
  }

  /** test_max_issue_year */
  lemma MaxIssueYear(fs: seq<Field>)
    requires fs == TestRecord("gry", "860033327", "2020", "#fffffd", "2001", "2021", "183cm")
    ensures !Valid(Scan(Render(fs)))
  {
    ScanTestRecordValid(fs, "gry", "860033327", "2020", "#fffffd", "2001", "2021", "183cm");
    IssueYears("2021");
  }

  /** test_min_expiration_year */
  lemma MinExpirationYear(fs: seq<Field>)
    requires fs == TestRecord("gry", "860033327", "2019", "#fffffd", "2001", "2020", "183cm")
    ensures !Valid(Scan(Render(fs)))
  {
    ScanTestRecordValid(fs, "gry", "860033327", "2019", "#fffffd", "2001", "2020", "183cm");
    ExpirationYears("2019");
  }

  /** test_max_expiration_year */
  lemma MaxExpirationYear(fs: seq<Field>)
    requires fs == TestRecord("gry", "860033327", "2031", "#fffffd", "2001", "2020", "183cm")
    ensures !Valid(Scan(Render(fs)))
  {
    ScanTestRecordValid(fs, "gry", "860033327", "2031", "#fffffd", "2001", "2020", "183cm");
    ExpirationYears("2031");
  }

  /** test_height_unit_presence */
  lemma HeightUnitPresence(fs: seq<Field>)
    requires fs == TestRecord("gry", "860033327", "2030", "#fffffd", "2001", "2020", "183")
    ensures !Valid(Scan(Render(fs)))
  {
    ScanTestRecordValid(fs, "gry", "860033327", "2030", "#fffffd", "2001", "2020", "183");
    Heights("183");
  }

  /** test_min_cm_height */
  lemma MinCmHeight(fs: seq<Field>)
    requires fs == TestRecord("gry", "860033327", "2030", "#fffffd", "2001", "2020", "149cm")
    ensures !Valid(Scan(Render(fs)))
  {
    ScanTestRecordValid(fs, "gry", "860033327", "2030", "#fffffd", "2001", "2020", "149cm");
    Heights("149cm");
  }

  /** test_max_cm_height */
  lemma MaxCmHeight(fs: seq<Field>)
    requires fs == TestRecord("gry", "860033327", "2030", "#fffffd", "2001", "2020", "194cm")
    ensures !Valid(Scan(Render(fs)))
  {
    ScanTestRecordValid(fs, "gry", "860033327", "2030", "#fffffd", "2001", "2020", "194cm");
    Heights("194cm");
  }

  /** test_min_in_height */
  lemma MinInHeight(fs: seq<Field>)
    requires fs == TestRecord("gry", "860033327", "2030", "#fffffd", "2001", "2020", "58in")
    ensures !Valid(Scan(Render(fs)))
  {
    ScanTestRecordValid(fs, "gry", "860033327", "2030", "#fffffd", "2001", "2020", "58in");
    Heights("58in");
  }

  /** test_max_in_height */
  lemma MaxInHeight(fs: seq<Field>)
    requires fs == TestRecord("gry", "860033327", "2030", "#fffffd", "2001", "2020", "77in")
    ensures !Valid(Scan(Render(fs)))
  {
    ScanTestRecordValid(fs, "gry", "860033327", "2030", "#fffffd", "2001", "2020", "77in");
    Heights("77in");
  }

  /** test_hair_color, first input: a character that is not a hex digit */
  lemma HairColorNotHex(fs: seq<Field>)
    requires fs == TestRecord("gry", "860033327", "2030", "#fffffz", "2001", "2020", "76in")
    ensures !Valid(Scan(Render(fs)))
  {
    ScanTestRecordValid(fs, "gry", "860033327", "2030", "#fffffz", "2001", "2020", "76in");
    HairColors("#fffffz");
  }

  /** test_hair_color, second input: five hex digits */
  lemma HairColorTooShort(fs: seq<Field>)
    requires fs == TestRecord("gry", "860033327", "2030", "#fffff", "2001", "2020", "76in")
    ensures !Valid(Scan(Render(fs)))
  {
    ScanTestRecordValid(fs, "gry", "860033327", "2030", "#fffff", "2001", "2020", "76in");
    HairColors("#fffff");
  }

  /** test_hair_color, third input: no leading # */
  lemma HairColorNoHash(fs: seq<Field>)
    requires fs == TestRecord("gry", "860033327", "2030", "fffffa", "2001", "2020", "76in")
    ensures !Valid(Scan(Render(fs)))
  {
    ScanTestRecordValid(fs, "gry", "860033327", "2030", "fffffa", "2001", "2020", "76in");
    HairColors("fffffa");
  }

  /** test_eye_color, the loop over VALID_EYE_COLORS: each colour passes. */
  lemma EyeColor(fs: seq<Field>, color: string)
    requires color in EyeColors
    requires fs == TestRecord(color, "860033327", "2030", "#fffffa", "2001", "2020", "76in")
    ensures Valid(Scan(Render(fs)))
  {
    assert ValueText(color);
    ScanTestRecordValid(fs, color, "860033327", "2030", "#fffffa", "2001", "2020", "76in");
    BirthYears("2001");
    IssueYears("2020");
    ExpirationYears("2030");
    Heights("76in");
    HairColors("#fffffa");
    PassportIds("860033327");
  }

  /** test_eye_color, last input: gray is not one of the colours */
  lemma EyeColorGray(fs: seq<Field>)
    requires fs == TestRecord("gray", "860033327", "2030", "#fffffa", "2001", "2020", "76in")
    ensures !Valid(Scan(Render(fs)))
  {
    ScanTestRecordValid(fs, "gray", "860033327", "2030", "#fffffa", "2001", "2020", "76in");
    NotAnEyeColor("gray");
  }

  /** test_passport_id, first input: nine zeros */
  lemma PassportIdLeadingZeros(fs: seq<Field>)
    requires fs == TestRecord("gry", "000000000", "2020", "#fffffd", "1937", "2017", "183cm")
    ensures Valid(Scan(Render(fs)))
  {
    ScanTestRecordValid(fs, "gry", "000000000", "2020", "#fffffd", "1937", "2017", "183cm");
    BirthYears("1937");
    IssueYears("2017");
    ExpirationYears("2020");
    Heights("183cm");
    HairColors("#fffffd");
    PassportIds("000000000");
    assert "gry" in EyeColors;
  }

  /** test_passport_id, second input: ten digits */
  lemma PassportIdTooLong(fs: seq<Field>)
    requires fs == TestRecord("gry", "0000000010", "2020", "#fffffd", "1937", "2017", "183cm")
    ensures !Valid(Scan(Render(fs)))
  {
    ScanTestRecordValid(fs, "gry", "0000000010", "2020", "#fffffd", "1937", "2017", "183cm");
    PassportIds("0000000010");
  }

  /** test_passport_id, third input: eight digits */
  lemma PassportIdTooShort(fs: seq<Field>)
    requires fs == TestRecord("gry", "00000001", "2020", "#fffffd", "1937", "2017", "183cm")
    ensures !Valid(Scan(Render(fs)))
  {
    ScanTestRecordValid(fs, "gry", "00000001", "2020", "#fffffd", "1937", "2017", "183cm");
    PassportIds("00000001");
  }

  /** test_passport_id, fourth input: a letter */
  lemma PassportIdNotDigits(fs: seq<Field>)
    requires fs == TestRecord("gry", "a00000001", "2020", "#fffffd", "1937", "2017", "183cm")
    ensures !Valid(Scan(Render(fs)))
  {
    ScanTestRecordValid(fs, "gry", "a00000001", "2020", "#fffffd", "1937", "2017", "183cm");
    PassportIds("a00000001");
  }
}
