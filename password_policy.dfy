/**
 * 2020/02.rb: a password line is valid when the number of times the policy
 * letters occur in the password lies between the two numbers, inclusive.
 */
module PasswordPolicy {
  import opened Wrappers
  import opened RubyText
  import opened PasswordLines

  /** password.count(character).between?(min.to_i, max.to_i) */
  predicate CountRule(p: Policy)
  {
    ToI(p.first) <= Count(p.password, p.letters) <= ToI(p.second)
  }

  /** valid_password?: None when the line does not match, since password is then nil and nil.count raises. */
  function ValidPassword(line: string): Option<bool>
  {
    match ParsePolicy(line)
    case None => None
    case Some(p) => Some(CountRule(p))
  }

  /** The positions of the password that hold one of the policy letters. */
  function Hits(password: string, letters: string): set<int>
  {
    set i | 0 <= i < |password| && password[i] in letters
  }

  /** String#count with a list of letters counts the positions holding any of them. */
  lemma {:induction false} CountIsHits(password: string, letters: string)
    ensures Count(password, letters) == |Hits(password, letters)|
    decreases |password|
  {
    if password != [] {
      var n := |password| - 1;
      var init := password[..n];
      assert password == init + [password[n]];
      CountAppend(init, [password[n]], letters);
      CountIsHits(init, letters);
      var last := if password[n] in letters then {n} else {};
      assert Hits(password, letters) == Hits(init, letters) + last;
      assert Hits(init, letters) !! last;
    }
  }

  /** Only which letters the policy lists matters, not their order or repetition. */
  lemma CountDependsOnLetterSet(password: string, a: string, b: string)
    requires forall c :: c in a <==> c in b
    ensures Count(password, a) == Count(password, b)
  {
    CountIsHits(password, a);
    CountIsHits(password, b);
    assert Hits(password, a) == Hits(password, b);
  }

  /**
   * A line fails exactly when the pattern matches nowhere in it; otherwise
   * it is valid iff the number of password positions holding a policy letter
   * lies between the two numbers.
   */
  lemma ValidPasswordMeaning(line: string)
    ensures ValidPassword(line).None? <==> forall i :: 0 <= i <= |line| ==> PolicyAt(line[i..]).None?
    ensures ParsePolicy(line).Some? ==>
      var p := ParsePolicy(line).value;
      ValidPassword(line) == Some(DecimalValue(p.first) <= |Hits(p.password, p.letters)| <= DecimalValue(p.second))
  {
    if ParsePolicy(line).Some? {
      var p := ParsePolicy(line).value;
      ToIOfDigits(p.first);
      ToIOfDigits(p.second);
      CountIsHits(p.password, p.letters);
    }
  }

  /** A policy written out is judged by its own numbers, letters and password. */
  lemma ValidPasswordText(p: Policy, rest: string)
    requires WellFormed(p)
    requires rest == [] || !IsWordChar(rest[0])
    ensures ValidPassword(PolicyText(p) + rest) == Some(DecimalValue(p.first) <= |Hits(p.password, p.letters)| <= DecimalValue(p.second))
  {
    ParsePolicyText(p, rest);
    ValidPasswordMeaning(PolicyText(p) + rest);
  }

  /** A policy whose minimum is above its maximum accepts no password. */
  lemma MinAboveMax(p: Policy)
    requires ToI(p.first) > ToI(p.second)
    ensures !CountRule(p)
  {
  }

  /** The script's answer: how many lines are valid; it raises on a line that does not match. */
  method ValidPasswordCount(lines: seq<string>) returns (count: Option<nat>)
    ensures count.None? <==> Selected(lines, ValidPassword).None?
    ensures count.None? <==> exists k :: 0 <= k < |lines| && ValidPassword(lines[k]).None?
    ensures count.Some? ==> count.value <= |lines|
    ensures count.Some? ==> forall line :: line in Selected(lines, ValidPassword).value <==> line in lines && ValidPassword(line) == Some(true)
    ensures count.Some? ==> count.value == |Selected(lines, ValidPassword).value|
    ensures count.Some? ==> count.value == |ValidIndices(lines, ValidPassword)|
  {
    count := CountValid(lines, ValidPassword);
    SelectedProperties(lines, ValidPassword);
    SelectedCount(lines, ValidPassword);
  }
}
