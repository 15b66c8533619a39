/**
 * 2020/04.rb: a passport is the key:value tokens of one record, kept in an
 * OpenStruct; it is valid when the seven required attributes are present.
 * Passport.scan (the same code in 2020/04.2.rb) feeds
 * raw_data.scan(/(\w+):([\w#]+)*\/) to Hash[]: a key is a run of word
 * characters right before a ':', its value the run of word characters and
 * '#' right after it, nil when that run is empty; a later key overrides an
 * earlier one.
 */
module Passports {
  import opened Wrappers
  import opened RubyText

  /** [\w#] */
  predicate IsValueChar(c: char) { IsWordChar(c) || c == '#' }

  /** One [key, value] pair of the scan. */
  datatype Field = Field(key: string, value: Option<string>)

  /** A pair the scan can produce: a non-empty word key and, if any, a non-empty [\w#] value. */
  predicate WellFormed(f: Field)
  {
    f.key != [] && All(f.key, IsWordChar) && (f.value.Some? ==> f.value.value != [] && All(f.value.value, IsValueChar))
  }

  /**
   * String#scan: the leftmost match, then the next match after it. A match
   * needs the whole word run at its start to be followed by ':'; the value
   * group, repeated with *, captures the greedy [\w#]+ run or nothing.
   */
  function ScanFields(s: string): (r: seq<Field>)
    ensures forall k :: 0 <= k < |r| ==> WellFormed(r[k])
    decreases |s|
  {
    if s == [] then []
    else if !IsWordChar(s[0]) then ScanFields(s[1..])
    else
      var n := Span(s, IsWordChar);
      if n < |s| && s[n] == ':' then
        var rest := s[n + 1..];
        var v := Span(rest, IsValueChar);
        [Field(s[..n], if v == 0 then None else Some(rest[..v]))] + ScanFields(rest[v..])
      else ScanFields(s[1..])
  }

  /** Hash[pairs]: each pair in order, a later pair overriding an earlier one with the same key. */
  function ToMap(fields: seq<Field>): map<string, Option<string>>
  {
    if fields == [] then map[]
    else
      var last := fields[|fields| - 1];
      ToMap(fields[..|fields| - 1])[last.key := last.value]
  }

  /**
   * A key is in the hash exactly when some pair has it, and its value is
   * that of the last pair with that key.
   */
  lemma {:induction false} ToMapLastWins(fields: seq<Field>, i: int)
    requires 0 <= i < |fields|
    requires forall j :: i < j < |fields| ==> fields[j].key != fields[i].key
    ensures fields[i].key in ToMap(fields) && ToMap(fields)[fields[i].key] == fields[i].value
  {
    if i < |fields| - 1 {
      ToMapLastWins(fields[..|fields| - 1], i);
    }
  }

  lemma {:induction false} ToMapKeys(fields: seq<Field>, key: string)
    ensures key in ToMap(fields) <==> exists j :: 0 <= j < |fields| && fields[j].key == key
  {
    if fields != [] {
      var init := fields[..|fields| - 1];
      ToMapKeys(init, key);
      if exists j :: 0 <= j < |init| && init[j].key == key {
        var j :| 0 <= j < |init| && init[j].key == key;
        assert fields[j].key == key;
      }
      if exists j :: 0 <= j < |fields| && fields[j].key == key {
        var j :| 0 <= j < |fields| && fields[j].key == key;
        if j < |init| {
          assert init[j].key == key;
        }
      }
    }
  }

  /** The OpenStruct built from the scanned hash. */
  datatype Passport = Passport(attributes: map<string, Option<string>>)

  /** Passport.scan */
  function Scan(rawData: string): Passport
  {
    Passport(ToMap(ScanFields(rawData)))
  }

  /** public_send(attribute): the value, or nil for an attribute the record does not have. */
  function Lookup(p: Passport, attribute: string): Option<string>
  {
    if attribute in p.attributes then p.attributes[attribute] else None
  }

  const RequiredAttributes: seq<string> := ["byr", "iyr", "eyr", "hgt", "hcl", "ecl", "pid"]

  /** valid?: every required attribute has a non-nil value. */
  predicate Valid(p: Passport)
  {
    forall k :: 0 <= k < |RequiredAttributes| ==> Lookup(p, RequiredAttributes[k]).Some?
  }

  /** valid? spelled out attribute by attribute. */
  lemma ValidIff(p: Passport)
    ensures Valid(p) <==>
      && Lookup(p, "byr").Some? && Lookup(p, "iyr").Some? && Lookup(p, "eyr").Some? && Lookup(p, "hgt").Some?
      && Lookup(p, "hcl").Some? && Lookup(p, "ecl").Some? && Lookup(p, "pid").Some?
  {
    assert RequiredAttributes[0] == "byr" && RequiredAttributes[1] == "iyr" && RequiredAttributes[2] == "eyr";
    assert RequiredAttributes[3] == "hgt" && RequiredAttributes[4] == "hcl" && RequiredAttributes[5] == "ecl";
    assert RequiredAttributes[6] == "pid";
  }

  /**
   * Validity depends only on the required attributes: a record missing one
   * of them, or holding nil for it, is invalid, and adding, changing or
   * removing any other attribute (cid among them) changes nothing.
   */
  lemma ValidOnlyRequired(p: Passport, key: string, value: Option<string>)
    ensures key in RequiredAttributes && value.None? ==> !Valid(Passport(p.attributes[key := value]))
    ensures key in RequiredAttributes && key !in p.attributes ==> !Valid(p)
    ensures key !in RequiredAttributes ==> Valid(Passport(p.attributes[key := value])) == Valid(p)
    ensures key !in RequiredAttributes ==> Valid(Passport(p.attributes - {key})) == Valid(p)
  {
    if key in RequiredAttributes {
      var k :| 0 <= k < |RequiredAttributes| && RequiredAttributes[k] == key;
      assert Lookup(Passport(p.attributes[key := value]), RequiredAttributes[k]) == value;
    } else {
      assert forall k :: 0 <= k < |RequiredAttributes| ==> RequiredAttributes[k] != key;
    }
  }

  /** The text of one pair as a record writes it: key:value. */
  function FieldText(f: Field): string
  {
    f.key + ":" + (if f.value.Some? then f.value.value else "")
  }

  /** Pairs written out, separated by single spaces. */
  function Render(fields: seq<Field>): string
  {
    if fields == [] then []
    else if |fields| == 1 then FieldText(fields[0])
    else FieldText(fields[0]) + " " + Render(fields[1..])
  }

  /** Scanning one written pair followed by text that starts with neither a word character nor '#'. */
  lemma ScanFieldText(f: Field, rest: string)
    requires WellFormed(f)
    requires rest == [] || !IsValueChar(rest[0])
    ensures ScanFields(FieldText(f) + rest) == [f] + ScanFields(rest)
  {
    var vt := if f.value.Some? then f.value.value else "";
    assert FieldText(f) + rest == f.key + (":" + vt + rest);
    ScanKeyValue(f.key, vt, rest);
  }

  /** key:value followed by text that cannot continue the value. */
  lemma ScanKeyValue(key: string, vt: string, rest: string)
    requires key != [] && All(key, IsWordChar) && All(vt, IsValueChar)
    requires rest == [] || !IsValueChar(rest[0])
    ensures ScanFields(key + (":" + vt + rest)) == [Field(key, if vt == [] then None else Some(vt))] + ScanFields(rest)
  {
    var s := key + (":" + vt + rest);
    KeySplit(key, vt, rest);
    ValueSplit(vt, rest);
    ScanMatch(s, |key|, |vt|);
  }

  lemma KeySplit(key: string, vt: string, rest: string)
    requires key != [] && All(key, IsWordChar)
    ensures var s := key + (":" + vt + rest);
      |key| < |s| && IsWordChar(s[0]) && Span(s, IsWordChar) == |key| && s[|key|] == ':' && s[..|key|] == key && s[|key| + 1..] == vt + rest
  {
    var s := key + (":" + vt + rest);
    SpanAll(key, ":" + vt + rest, IsWordChar);
    assert s[|key| + 1..] == vt + rest;
  }

  lemma ValueSplit(vt: string, rest: string)
    requires All(vt, IsValueChar)
    requires rest == [] || !IsValueChar(rest[0])
    ensures Span(vt + rest, IsValueChar) == |vt| && (vt + rest)[..|vt|] == vt && (vt + rest)[|vt|..] == rest
  {
    SpanAll(vt, rest, IsValueChar);
    assert (vt + rest)[..|vt|] == vt;
  }

  /** A match at the start: the key run, the ':' after it, and the value run after that. */
  lemma ScanMatch(s: string, n: nat, v: nat)
    requires 0 < n < |s| && IsWordChar(s[0]) && Span(s, IsWordChar) == n && s[n] == ':'
    requires Span(s[n + 1..], IsValueChar) == v
    ensures ScanFields(s) == [Field(s[..n], if v == 0 then None else Some(s[n + 1..][..v]))] + ScanFields(s[n + 1..][v..])
  {
  }

  /** Scanning written pairs gives them back, in order. */
  lemma {:induction false} ScanRender(fields: seq<Field>)
    requires forall k :: 0 <= k < |fields| ==> WellFormed(fields[k])
    ensures ScanFields(Render(fields)) == fields
  {
    if |fields| == 1 {
      ScanFieldText(fields[0], []);
      assert FieldText(fields[0]) + [] == FieldText(fields[0]);
    } else if |fields| > 1 {
      var tail := Render(fields[1..]);
      var rest := " " + tail;
      assert Render(fields) == FieldText(fields[0]) + rest;
      ScanFieldText(fields[0], rest);
      SkipSpace(tail);
      ScanRender(fields[1..]);
    }
  }

  lemma SkipSpace(s: string)
    ensures ScanFields(" " + s) == ScanFields(s)
  {
    assert (" " + s)[1..] == s;
  }

  /** Pairs whose keys are pairwise different. */
  predicate DistinctKeys(fields: seq<Field>)
  {
    forall j, k :: 0 <= j < k < |fields| ==> fields[j].key != fields[k].key
  }

  predicate AllWellFormed(fields: seq<Field>)
  {
    forall k :: 0 <= k < |fields| ==> WellFormed(fields[k])
  }

  /** Pairs with distinct keys, written out and scanned: each value is found under its key. */
  lemma ScanDistinct(fields: seq<Field>, i: int)
    requires AllWellFormed(fields) && DistinctKeys(fields) && 0 <= i < |fields|
    ensures Lookup(Scan(Render(fields)), fields[i].key) == fields[i].value
  {
    ScanRender(fields);
    ToMapLastWins(fields, i);
  }

  /** Pairs written out and scanned: a key none of them has reads as nil. */
  lemma ScanAbsent(fields: seq<Field>, key: string)
    requires AllWellFormed(fields)
    requires forall k :: 0 <= k < |fields| ==> fields[k].key != key
    ensures Lookup(Scan(Render(fields)), key) == None
  {
    ScanRender(fields);
    ToMapKeys(fields, key);
  }

  /**
   * With distinct keys the order of the pairs does not matter: pairs that
   * are the same up to order give the same hash, hence the same validity.
   */
  lemma ToMapOrder(a: seq<Field>, b: seq<Field>)
    requires DistinctKeys(a) && DistinctKeys(b)
    requires forall f :: f in a <==> f in b
    ensures ToMap(a) == ToMap(b)
    ensures Valid(Passport(ToMap(a))) == Valid(Passport(ToMap(b)))
  {
    forall key ensures key in ToMap(a) <==> key in ToMap(b) {
      ToMapKeys(a, key);
      ToMapKeys(b, key);
      if exists i :: 0 <= i < |a| && a[i].key == key {
        var i :| 0 <= i < |a| && a[i].key == key;
        assert a[i] in b;
      }
      if exists j :: 0 <= j < |b| && b[j].key == key {
        var j :| 0 <= j < |b| && b[j].key == key;
        assert b[j] in a;
      }
    }
    forall key | key in ToMap(a) ensures ToMap(a)[key] == ToMap(b)[key] {
      ToMapKeys(a, key);
      var i :| 0 <= i < |a| && a[i].key == key;
      ToMapLastWins(a, i);
      assert a[i] in b;
      var j :| 0 <= j < |b| && b[j] == a[i];
      ToMapLastWins(b, j);
    }
  }

  /** A value the scan can produce. */
  predicate ValueText(v: string)
  {
    v != [] && All(v, IsValueChar)
  }

  /**
   * The records of the test cases: the eight pairs in the order the tests
   * write them, cid:147 among them; a test input is the text Render writes
   * for its pairs.
   */
  function TestRecord(ecl: string, pid: string, eyr: string, hcl: string, byr: string, iyr: string, hgt: string): seq<Field>
  {
    [Field("ecl", Some(ecl)), Field("pid", Some(pid)), Field("eyr", Some(eyr)), Field("hcl", Some(hcl)),
     Field("byr", Some(byr)), Field("iyr", Some(iyr)), Field("cid", Some("147")), Field("hgt", Some(hgt))]
  }

  /** A test record written out and scanned holds each of its values under its key. */
  lemma ScanTestRecord(fs: seq<Field>, ecl: string, pid: string, eyr: string, hcl: string, byr: string, iyr: string, hgt: string)
    requires fs == TestRecord(ecl, pid, eyr, hcl, byr, iyr, hgt)
    requires ValueText(ecl) && ValueText(pid) && ValueText(eyr) && ValueText(hcl)
    requires ValueText(byr) && ValueText(iyr) && ValueText(hgt)
    ensures var p := Scan(Render(fs));
      && Lookup(p, "ecl") == Some(ecl) && Lookup(p, "pid") == Some(pid) && Lookup(p, "eyr") == Some(eyr)
      && Lookup(p, "hcl") == Some(hcl) && Lookup(p, "byr") == Some(byr) && Lookup(p, "iyr") == Some(iyr)
      && Lookup(p, "hgt") == Some(hgt) && Lookup(p, "cid") == Some("147")
  {
    assert AllWellFormed(fs) by {
      assert ValueText("147");
      forall k | 0 <= k < |fs| ensures WellFormed(fs[k]) {
        assert All(fs[k].key, IsWordChar);
        assert ValueText(fs[k].value.value);
      }
    }
    assert DistinctKeys(fs);
    ScanDistinct(fs, 0);
    ScanDistinct(fs, 1);
    ScanDistinct(fs, 2);
    ScanDistinct(fs, 3);
    ScanDistinct(fs, 4);
    ScanDistinct(fs, 5);
    ScanDistinct(fs, 6);
    ScanDistinct(fs, 7);
  }

  /** The same passport without the optional cid, in the same order. */
  function RecordWithoutCid(ecl: string, pid: string, eyr: string, hcl: string, byr: string, iyr: string, hgt: string): seq<Field>
  {
    [Field("ecl", Some(ecl)), Field("pid", Some(pid)), Field("eyr", Some(eyr)), Field("hcl", Some(hcl)),
     Field("byr", Some(byr)), Field("iyr", Some(iyr)), Field("hgt", Some(hgt))]
  }

  /** Scanning a rendered passport without cid gives back every value it holds. */
  lemma ScanRecordWithoutCid(fs: seq<Field>, ecl: string, pid: string, eyr: string, hcl: string, byr: string, iyr: string, hgt: string)
    requires fs == RecordWithoutCid(ecl, pid, eyr, hcl, byr, iyr, hgt)
    requires ValueText(ecl) && ValueText(pid) && ValueText(eyr) && ValueText(hcl)
    requires ValueText(byr) && ValueText(iyr) && ValueText(hgt)
    ensures var p := Scan(Render(fs));
      && Lookup(p, "ecl") == Some(ecl) && Lookup(p, "pid") == Some(pid) && Lookup(p, "eyr") == Some(eyr)
      && Lookup(p, "hcl") == Some(hcl) && Lookup(p, "byr") == Some(byr) && Lookup(p, "iyr") == Some(iyr)
      && Lookup(p, "hgt") == Some(hgt)
  {
    assert AllWellFormed(fs) by {
      forall k | 0 <= k < |fs| ensures WellFormed(fs[k]) {
        assert All(fs[k].key, IsWordChar);
        assert ValueText(fs[k].value.value);
      }
    }
    assert DistinctKeys(fs);
    ScanDistinct(fs, 0);
    ScanDistinct(fs, 1);
    ScanDistinct(fs, 2);
    ScanDistinct(fs, 3);
    ScanDistinct(fs, 4);
    ScanDistinct(fs, 5);
    ScanDistinct(fs, 6);
  }

  /** TestPassport#test_all_required_attributes_present (2020/04.rb) */
  lemma AllRequiredAttributesPresent(fs: seq<Field>)
    requires fs == TestRecord("gry", "860033327", "2020", "#fffffd", "1937", "2017", "183cm")
    ensures Valid(Scan(Render(fs)))
  {
    ScanTestRecord(fs, "gry", "860033327", "2020", "#fffffd", "1937", "2017", "183cm");
    ValidIff(Scan(Render(fs)));
  }

  /** TestPassport#test_optional_attribute: the same record without cid. */
  lemma OptionalAttribute(fs: seq<Field>)
    requires fs == RecordWithoutCid("gry", "860033327", "2020", "#fffffd", "1937", "2017", "183cm")
    ensures Valid(Scan(Render(fs)))
  {
    ScanRecordWithoutCid(fs, "gry", "860033327", "2020", "#fffffd", "1937", "2017", "183cm");
    ValidIff(Scan(Render(fs)));
  }


  /** TestPassport#test_missing_one_required_attribute: ecl misspelt elc. */
  lemma MissingOneRequiredAttribute(fs: seq<Field>)
    requires fs == [Field("elc", Some("gry")), Field("pid", Some("860033327")), Field("eyr", Some("2020")), Field("hcl", Some("#fffffd")),
                    Field("byr", Some("1937")), Field("iyr", Some("2017")), Field("cid", Some("147")), Field("hgt", Some("183cm"))]
    ensures !Valid(Scan(Render(fs)))
  {
    assert AllWellFormed(fs) by {
      forall k | 0 <= k < |fs| ensures WellFormed(fs[k]) {
        assert All(fs[k].key, IsWordChar);
        assert All(fs[k].value.value, IsValueChar);
      }
    }
    ScanAbsent(fs, "ecl");
    ValidIff(Scan(Render(fs)));
  }

  /** TestPassport#test_missing_more_than_one_required_attribute: ecl misspelt elc, and no pid. */
  lemma MissingMoreThanOneRequiredAttribute(fs: seq<Field>)
    requires fs == [Field("elc", Some("gry")), Field("eyr", Some("2020")), Field("hcl", Some("#fffffd")),
                    Field("byr", Some("1937")), Field("iyr", Some("2017")), Field("cid", Some("147")), Field("hgt", Some("183cm"))]
    ensures !Valid(Scan(Render(fs)))
  {
    NoEclNoPid(fs);
    ScanAbsent(fs, "ecl");
    ScanAbsent(fs, "pid");
    ValidIff(Scan(Render(fs)));
  }

  /** The record above is well formed, and neither ecl nor pid is among its keys. */
  lemma NoEclNoPid(fs: seq<Field>)
    requires fs == [Field("elc", Some("gry")), Field("eyr", Some("2020")), Field("hcl", Some("#fffffd")),
                    Field("byr", Some("1937")), Field("iyr", Some("2017")), Field("cid", Some("147")), Field("hgt", Some("183cm"))]
    ensures AllWellFormed(fs)
    ensures forall k :: 0 <= k < |fs| ==> fs[k].key != "ecl" && fs[k].key != "pid"
  {
    forall k | 0 <= k < |fs| ensures WellFormed(fs[k]) {
      assert All(fs[k].key, IsWordChar);
      assert All(fs[k].value.value, IsValueChar);
    }
  }
}
