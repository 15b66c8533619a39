/**
 * What 2020/02.rb and 2020/02.2.rb share: the scan of a password line such
 * as "1-3 a: abcde" with /(\d+)-(\d+) ([a-z]+): (\w+)/, and the driver that
 * keeps the lines a policy accepts and counts them.
 */
module PasswordLines {
  import opened Wrappers
  import opened RubyText

  /** The four captures of the first match: two numbers, the policy letters and the password. */
  datatype Policy = Policy(first: string, second: string, letters: string, password: string)

  predicate WellFormed(p: Policy)
  {
    && p.first != [] && All(p.first, IsDigit)
    && p.second != [] && All(p.second, IsDigit)
    && p.letters != [] && All(p.letters, IsLower)
    && p.password != [] && All(p.password, IsWordChar)
  }

  /** The text a policy is written as. */
  function PolicyText(p: Policy): string
  {
    p.first + "-" + p.second + " " + p.letters + ": " + p.password
  }

  /**
   * A non-empty run of `p` characters at the start of `t`, followed by the
   * literal `sep`: the run and what follows `sep`. The first character of
   * `sep` is outside the class, so the longest run is the only one that can
   * match.
   */
  function Token(t: string, p: char -> bool, sep: string): (r: Option<(string, string)>)
    ensures r.Some? ==> r.value.0 != [] && All(r.value.0, p) && t == r.value.0 + sep + r.value.1
  {
    var n := Span(t, p);
    if n == 0 || |t| < n + |sep| || t[n..n + |sep|] != sep then None
    else
      assert t == t[..n] + t[n..n + |sep|] + t[n + |sep|..];
      Some((t[..n], t[n + |sep|..]))
  }

  lemma TokenText(run: string, p: char -> bool, sep: string, rest: string)
    requires run != [] && All(run, p)
    requires sep != [] && !p(sep[0])
    ensures Token(run + sep + rest, p, sep) == Some((run, rest))
  {
    var t := run + sep + rest;
    assert t == run + (sep + rest);
    SpanAll(run, sep + rest, p);
    assert t[..|run|] == run;
    assert t[|run|..|run| + |sep|] == sep;
    assert t[|run| + |sep|..] == rest;
  }

  /** The pattern matched at the start of `t`. */
  function PolicyAt(t: string): (r: Option<Policy>)
    ensures r.Some? ==> WellFormed(r.value) && PolicyText(r.value) <= t
  {
    match Token(t, IsDigit, "-")
    case None => None
    case Some((first, t1)) =>
      match Token(t1, IsDigit, " ")
      case None => None
      case Some((second, t2)) => LettersAndPassword(t, first, t1, second, t2)
  }

  /** The rest of the match once the two numbers are read: the letters, ": " and the password. */
  function LettersAndPassword(t: string, first: string, t1: string, second: string, t2: string): (r: Option<Policy>)
    requires t == first + "-" + t1 && t1 == second + " " + t2
    requires first != [] && All(first, IsDigit) && second != [] && All(second, IsDigit)
    ensures r.Some? ==> WellFormed(r.value) && PolicyText(r.value) <= t
  {
    match Token(t2, IsLower, ": ")
    case None => None
    case Some((letters, t3)) =>
      var d := Span(t3, IsWordChar);
      if d == 0 then None
      else
        Assemble(t, first, t1, second, t2, letters, t3, d);
        Some(Policy(first, second, letters, t3[..d]))
  }

  /** The three tokens and a password taken from the front of what follows them put back together are the policy's text. */
  lemma Assemble(t: string, first: string, t1: string, second: string, t2: string, letters: string, t3: string, d: nat)
    requires t == first + "-" + t1 && t1 == second + " " + t2 && t2 == letters + ": " + t3 && d <= |t3|
    ensures t == PolicyText(Policy(first, second, letters, t3[..d])) + t3[d..]
    ensures PolicyText(Policy(first, second, letters, t3[..d])) <= t
  {
    var password, rest := t3[..d], t3[d..];
    assert t3 == password + rest;
    assert t2 == letters + ": " + password + rest;
    assert t1 == second + " " + letters + ": " + password + rest;
  }

  /** String#scan(...).flatten destructured into four: the captures of the leftmost match at or after `from`, or nil. */
  function ScanPolicy(line: string, from: nat): (r: Option<Policy>)
    ensures r.Some? ==> WellFormed(r.value)
    ensures r.None? <==> forall i :: from <= i <= |line| ==> PolicyAt(line[i..]).None?
    decreases |line| - from
  {
    if from > |line| then None
    else if PolicyAt(line[from..]).Some? then PolicyAt(line[from..])
    else ScanPolicy(line, from + 1)
  }

  /** The policy a line is scanned into; nil when the pattern matches nowhere. */
  function ParsePolicy(line: string): (r: Option<Policy>)
    ensures r.Some? ==> WellFormed(r.value)
    ensures r.None? <==> forall i :: 0 <= i <= |line| ==> PolicyAt(line[i..]).None?
  {
    ScanPolicy(line, 0)
  }

  /** A policy written out is scanned back, whatever follows the password that is not a word character. */
  lemma ParsePolicyText(p: Policy, rest: string)
    requires WellFormed(p)
    requires rest == [] || !IsWordChar(rest[0])
    ensures ParsePolicy(PolicyText(p) + rest) == Some(p)
  {
    PolicyAtText(p, rest);
    var t := PolicyText(p) + rest;
    assert t[0..] == t;
  }

  lemma PolicyAtText(p: Policy, rest: string)
    requires WellFormed(p)
    requires rest == [] || !IsWordChar(rest[0])
    ensures PolicyAt(PolicyText(p) + rest) == Some(p)
  {
    var t3 := p.password + rest;
    var t2 := p.letters + ": " + t3;
    var t1 := p.second + " " + t2;
    assert t3[..|p.password|] == p.password && t3[|p.password|..] == rest;
    Assemble(p.first + "-" + t1, p.first, t1, p.second, t2, p.letters, t3, |p.password|);
    TokenText(p.first, IsDigit, "-", t1);
    TokenText(p.second, IsDigit, " ", t2);
    TokenText(p.letters, IsLower, ": ", t3);
    SpanAll(p.password, rest, IsWordChar);
    assert t3[..|p.password|] == p.password;
  }

  // ---------------------------------------------------------------------------
  // The driver: valid_passwords << line if valid_password?(line), then .size

  /**
   * The lines a check keeps, in order; None when the check raises on some
   * line (a line the pattern does not match, an index past the password).
   */
  function Selected(lines: seq<string>, valid: string -> Option<bool>): Option<seq<string>>
  {
    if lines == [] then Some([])
    else
      var last := lines[|lines| - 1];
      match Selected(lines[..|lines| - 1], valid)
      case None => None
      case Some(kept) =>
        match valid(last)
        case None => None
        case Some(ok) => Some(if ok then kept + [last] else kept)
  }

  /** The positions of the lines the check accepts; a line repeated in the input counts once per position. */
  ghost function ValidIndices(lines: seq<string>, valid: string -> Option<bool>): set<int>
  {
    set k | 0 <= k < |lines| && valid(lines[k]) == Some(true)
  }

  /** Adding a line adds its position exactly when the check accepts it. */
  lemma ValidIndicesLast(lines: seq<string>, valid: string -> Option<bool>)
    requires lines != []
    ensures var n := |lines| - 1;
      ValidIndices(lines, valid) == ValidIndices(lines[..n], valid) + (if valid(lines[n]) == Some(true) then {n} else {})
  {
    var n := |lines| - 1;
    forall k | 0 <= k < n
      ensures lines[..n][k] == lines[k]
    {
    }
  }

  /**
   * The driver keeps one line per position the check accepts: a valid line
   * that occurs twice is counted twice.
   */
  lemma {:induction false} SelectedCount(lines: seq<string>, valid: string -> Option<bool>)
    ensures Selected(lines, valid).Some? ==> |Selected(lines, valid).value| == |ValidIndices(lines, valid)|
  {
    if lines != [] {
      var n := |lines| - 1;
      SelectedCount(lines[..n], valid);
      ValidIndicesLast(lines, valid);
      assert n !in ValidIndices(lines[..n], valid);
    }
  }

  /**
   * The driver fails exactly when the check fails on some line; otherwise it
   * keeps every line the check accepts and nothing else, so it keeps at most
   * all the lines (SelectedCount gives how many).
   */
  lemma {:induction false} SelectedProperties(lines: seq<string>, valid: string -> Option<bool>)
    ensures Selected(lines, valid).None? <==> exists k :: 0 <= k < |lines| && valid(lines[k]).None?
    ensures Selected(lines, valid).Some? ==>
      var kept := Selected(lines, valid).value;
      && |kept| <= |lines|
      && (forall line :: line in kept <==> line in lines && valid(line) == Some(true))
  {
    if lines != [] {
      var init := lines[..|lines| - 1];
      var last := lines[|lines| - 1];
      SelectedProperties(init, valid);
      assert lines == init + [last];
      if (exists k :: 0 <= k < |init| && valid(init[k]).None?) {
        var k :| 0 <= k < |init| && valid(init[k]).None?;
        assert lines[k] == init[k];
      }
      if (exists k :: 0 <= k < |lines| && valid(lines[k]).None?) {
        var k :| 0 <= k < |lines| && valid(lines[k]).None?;
        if k < |init| {
          assert init[k] == lines[k];
        }
      }
    }
  }

  /** The loop over the lines: appends each accepted line and answers with how many there are. */
  method CountValid(lines: seq<string>, valid: string -> Option<bool>) returns (count: Option<nat>)
    ensures count.None? <==> Selected(lines, valid).None?
    ensures count.Some? ==> count.value == |Selected(lines, valid).value|
  {
    var validPasswords: seq<string> := [];
    for i := 0 to |lines|
      invariant Selected(lines[..i], valid) == Some(validPasswords)
    {
      assert lines[..i + 1][..i] == lines[..i];
      var ok := valid(lines[i]);
      if ok.None? {
        PrefixFails(lines, i + 1, valid);
        return None;
      }
      if ok.value {
        validPasswords := validPasswords + [lines[i]];
      }
    }
    assert lines[..|lines|] == lines;
    count := Some(|validPasswords|);
  }

  /** Once a prefix fails, the whole list does. */
  lemma {:induction false} PrefixFails(lines: seq<string>, n: nat, valid: string -> Option<bool>)
    requires n <= |lines|
    requires Selected(lines[..n], valid).None?
    ensures Selected(lines, valid).None?
    decreases |lines| - n
  {
    if n < |lines| {
      assert lines[..n + 1][..n] == lines[..n];
      PrefixFails(lines, n + 1, valid);
    } else {
      assert lines[..n] == lines;
    }
  }
}
