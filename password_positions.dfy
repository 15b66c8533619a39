/**
 * 2020/02.2.rb: a password line is valid when exactly one of the two
 * 1-based positions of the password holds a policy letter.
 */
module PasswordPositions {
  import opened Wrappers
  import opened RubyText
  import opened PasswordLines

  /**
   * (password[first.to_i.pred] + password[second.to_i.pred]).count(character) == 1;
   * None when either index is past the end, since nil + ... and ... + nil raise.
   */
  function PositionsRule(p: Policy): Option<bool>
  {
    ExactlyOneAt(p.password, p.letters, ToI(p.first) - 1, ToI(p.second) - 1)
  }

  /** (password[i] + password[j]).count(letters) == 1, with Ruby's indexing. */
  function ExactlyOneAt(password: string, letters: string, i: int, j: int): Option<bool>
  {
    var a := At(password, i);
    var b := At(password, j);
    if a.None? || b.None? then None
    else Some(Count([a.value, b.value], letters) == 1)
  }

  /** valid_password?: None when the line does not match, since password is then nil. */
  function ValidPositions(line: string): Option<bool>
  {
    match ParsePolicy(line)
    case None => None
    case Some(p) => PositionsRule(p)
  }

  /**
   * For positions 1..length the rule holds iff exactly one of the two
   * positions holds a policy letter; position 0 reads the last character;
   * a position past the end raises.
   */
  lemma {:induction false} PositionsRuleMeaning(p: Policy)
    requires WellFormed(p)
    ensures PositionsRule(p).None? <==> DecimalValue(p.first) > |p.password| || DecimalValue(p.second) > |p.password|
    ensures 1 <= DecimalValue(p.first) <= |p.password| && 1 <= DecimalValue(p.second) <= |p.password| ==>
      PositionsRule(p) == Some((p.password[DecimalValue(p.first) - 1] in p.letters) != (p.password[DecimalValue(p.second) - 1] in p.letters))
    ensures DecimalValue(p.first) == 0 ==> At(p.password, ToI(p.first) - 1) == Some(p.password[|p.password| - 1])
  {
    ToIOfDigits(p.first);
    ToIOfDigits(p.second);
    var a := At(p.password, ToI(p.first) - 1);
    var b := At(p.password, ToI(p.second) - 1);
    if a.Some? && b.Some? {
      TwoCount(a.value, b.value, p.letters);
    }
  }

  /** Two characters hold one policy letter iff exactly one of them is a policy letter. */
  lemma TwoCount(a: char, b: char, letters: string)
    ensures Count([a, b], letters) == 1 <==> (a in letters) != (b in letters)
  {
    assert [a, b][1..] == [b];
    assert [b][1..] == [];
  }

  /** Naming the same position twice never gives a valid line: the count is 0 or 2. */
  lemma SamePositionNeverValid(p: Policy)
    requires ToI(p.first) == ToI(p.second)
    ensures PositionsRule(p) != Some(true)
  {
    var a := At(p.password, ToI(p.first) - 1);
    if a.Some? {
      TwoCount(a.value, a.value, p.letters);
    }
  }

  /** Swapping the two positions does not change the verdict. */
  lemma SwapPositions(p: Policy)
    ensures PositionsRule(p) == PositionsRule(p.(first := p.second, second := p.first))
  {
    SwapIndices(p.password, p.letters, ToI(p.first) - 1, ToI(p.second) - 1);
  }

  lemma SwapIndices(password: string, letters: string, i: int, j: int)
    ensures ExactlyOneAt(password, letters, i, j) == ExactlyOneAt(password, letters, j, i)
  {
    var a := At(password, i);
    var b := At(password, j);
    if a.Some? && b.Some? {
      TwoCount(a.value, b.value, letters);
      TwoCount(b.value, a.value, letters);
    }
  }

  /** A policy written out is judged by its own positions, letters and password. */
  lemma ValidPositionsText(p: Policy, rest: string)
    requires WellFormed(p)
    requires rest == [] || !IsWordChar(rest[0])
    ensures ValidPositions(PolicyText(p) + rest) == PositionsRule(p)
  {
    ParsePolicyText(p, rest);
  }

  /** The script's answer: how many lines are valid; it raises on a line that does not match or names a position past the end. */
  method ValidPositionsCount(lines: seq<string>) returns (count: Option<nat>)
    ensures count.None? <==> Selected(lines, ValidPositions).None?
    ensures count.None? <==> exists k :: 0 <= k < |lines| && ValidPositions(lines[k]).None?
    ensures count.Some? ==> count.value <= |lines|
    ensures count.Some? ==> forall line :: line in Selected(lines, ValidPositions).value <==> line in lines && ValidPositions(line) == Some(true)
    ensures count.Some? ==> count.value == |Selected(lines, ValidPositions).value|
    ensures count.Some? ==> count.value == |ValidIndices(lines, ValidPositions)|
  {
    count := CountValid(lines, ValidPositions);
    SelectedProperties(lines, ValidPositions);
    SelectedCount(lines, ValidPositions);
  }
}
