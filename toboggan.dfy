/**
 * 2020/03.rb: a map of open squares (.) and trees (#), one row per line,
 * repeated to the right as far as needed. A toboggan starts at the top left
 * and goes down one row and right three columns at a time; the answer is how
 * many trees it meets.
 */
module Toboggan {
  import opened Wrappers

  const Tree := '#'

  /** String#* : the line written `times` times. */
  function Repeat(line: string, times: nat): (r: string)
    ensures |r| == times * |line|
    ensures forall i :: 0 <= i < |r| ==> r[i] == line[i % |line|]
  {
    if times == 0 then []
    else
      var r := Repeat(line, times - 1) + line;
      assert forall i :: (times - 1) * |line| <= i < |r| ==> i % |line| == i - (times - 1) * |line| by {
        forall i | (times - 1) * |line| <= i < |r| ensures i % |line| == i - (times - 1) * |line| {
          ModOfLastCopy(i, |line|, times - 1);
        }
      }
      r
  }

  lemma ModOfLastCopy(i: int, n: int, k: nat)
    requires n > 0 && k * n <= i < k * n + n
    ensures i % n == i - k * n
  {
    DivModUnique(i, n, k, i - k * n);
  }

  /** A quotient and remainder with the remainder in 0..n-1 are the ones / and % give. */
  lemma DivModUnique(x: int, n: int, q: int, r: int)
    requires n > 0 && 0 <= r < n && x == n * q + r
    ensures x / n == q && x % n == r
  {
    var d := x / n;
    assert x == n * d + x % n;
    MulLtCancel(n, d, q + 1);
    MulLtCancel(n, q, d + 1);
  }

  lemma MulLtCancel(n: int, a: int, b: int)
    requires n > 0 && n * a < n * b
    ensures a < b
  {
    assert n * b - n * a == n * (b - a);
  }

  /** (a.to_f / b).ceil for positive integers, without floating point. */
  function CeilDiv(a: nat, b: nat): (q: nat)
    requires b > 0
    ensures q * b >= a && (q == 0 || (q - 1) * b < a)
  {
    if a == 0 then 0
    else
      var q := (a - 1) / b + 1;
      assert (a - 1) == b * ((a - 1) / b) + (a - 1) % b;
      q
  }

  /**
   * tree_at?: at position 0 the line is read as it is (nil on an empty line,
   * which is not a tree); otherwise it is first repeated
   * (position / (length - 1)).ceil times. A line of length 1 divides by zero
   * and a line of length 0 repeats a negative number of times: both raise.
   */
  function TreeAt(line: string, position: nat): (r: Option<bool>)
    ensures r.None? <==> position > 0 && |line| <= 1
  {
    if position == 0 then Some(|line| > 0 && line[0] == Tree)
    else if |line| <= 1 then None
    else
      var extended := Repeat(line, CeilDiv(position, |line| - 1));
      Some(position < |extended| && extended[position] == Tree)
  }

  /** The repeated line always reaches the position, so tree_at? reads the line at the position modulo its width. */
  lemma TreeAtWraps(line: string, position: nat)
    requires |line| >= 2
    ensures TreeAt(line, position) == Some(line[position % |line|] == Tree)
  {
    if position > 0 {
      var times := CeilDiv(position, |line| - 1);
      assert times * (|line| - 1) >= position;
      assert times * |line| == times * (|line| - 1) + times;
      assert times >= 1;
    }
  }

  /** The trees met going down every row and `right` columns per row; None if some row raises. */
  function Encounters(rows: seq<string>, right: nat): Option<nat>
  {
    if rows == [] then Some(0)
    else
      var i := |rows| - 1;
      match Encounters(rows[..i], right)
      case None => None
      case Some(trees) =>
        match TreeAt(rows[i], right * i)
        case None => None
        case Some(hit) => Some(if hit then trees + 1 else trees)
  }

  /** The rows whose column, right × row, wraps to a tree. */
  function WrappedHits(rows: seq<string>, right: nat): set<int>
    requires forall i :: 0 <= i < |rows| ==> |rows[i]| >= 2
  {
    set i | 0 <= i < |rows| && rows[i][(right * i) % |rows[i]|] == Tree
  }

  /** The walk raises exactly when it reaches a row of width 0 or 1 past the first. */
  lemma {:induction false} EncountersFailIff(rows: seq<string>, right: nat)
    ensures Encounters(rows, right).None? <==> exists i :: 0 <= i < |rows| && right * i > 0 && |rows[i]| <= 1
  {
    if rows != [] {
      var i := |rows| - 1;
      var init := rows[..i];
      EncountersFailIff(init, right);
      if exists j :: 0 <= j < |init| && right * j > 0 && |init[j]| <= 1 {
        var j :| 0 <= j < |init| && right * j > 0 && |init[j]| <= 1;
        assert rows[j] == init[j];
      }
      if exists j :: 0 <= j < |rows| && right * j > 0 && |rows[j]| <= 1 {
        var j :| 0 <= j < |rows| && right * j > 0 && |rows[j]| <= 1;
        if j < i {
          assert init[j] == rows[j];
        }
      }
    }
  }

  /** The count never exceeds the number of rows. */
  lemma {:induction false} EncountersBound(rows: seq<string>, right: nat)
    ensures Encounters(rows, right).Some? ==> Encounters(rows, right).value <= |rows|
  {
    if rows != [] {
      EncountersBound(rows[..|rows| - 1], right);
    }
  }

  /** When every row is at least two wide, the count is the number of rows whose wrapped column holds a tree. */
  lemma {:induction false} EncountersWrapped(rows: seq<string>, right: nat)
    requires forall i :: 0 <= i < |rows| ==> |rows[i]| >= 2
    ensures Encounters(rows, right) == Some(|WrappedHits(rows, right)|)
  {
    if rows != [] {
      var i := |rows| - 1;
      var column: nat := right * i;
      var init := rows[..i];
      assert forall j :: 0 <= j < |init| ==> |init[j]| >= 2;
      WrappedHitsLast(rows, right);
      EncountersWrapped(init, right);
      TreeAtWraps(rows[i], column);
    }
  }

  /** Adding a row adds it to the hits exactly when its wrapped column holds a tree. */
  lemma WrappedHitsLast(rows: seq<string>, right: nat)
    requires rows != []
    requires forall i :: 0 <= i < |rows| ==> |rows[i]| >= 2
    ensures var i := |rows| - 1;
      |WrappedHits(rows, right)| == |WrappedHits(rows[..i], right)| + (if rows[i][(right * i) % |rows[i]|] == Tree then 1 else 0)
  {
    var i := |rows| - 1;
    var init := rows[..i];
    assert forall j :: 0 <= j < i ==> rows[j] == init[j];
    var last := if rows[i][(right * i) % |rows[i]|] == Tree then {i} else {};
    assert WrappedHits(rows, right) == WrappedHits(init, right) + last;
    assert WrappedHits(init, right) !! last;
  }

  /** The script: trees += 1 if tree_at?(...), position += 3, for every line in turn. */
  method CountTrees(rows: seq<string>) returns (trees: Option<nat>)
    ensures trees == Encounters(rows, 3)
  {
    var count := 0;
    var position := 0;
    for i := 0 to |rows|
      invariant position == 3 * i
      invariant Encounters(rows[..i], 3) == Some(count)
    {
      assert rows[..i + 1][..i] == rows[..i];
      var hit := TreeAt(rows[i], position);
      if hit.None? {
        EncountersFails(rows, i + 1, 3);
        return None;
      }
      if hit.value {
        count := count + 1;
      }
      position := position + 3;
    }
    assert rows[..|rows|] == rows;
    trees := Some(count);
  }

  /** Once the walk raises on a prefix of the rows it raises on all of them. */
  lemma {:induction false} EncountersFails(rows: seq<string>, n: nat, right: nat)
    requires n <= |rows|
    requires Encounters(rows[..n], right).None?
    ensures Encounters(rows, right).None?
    decreases |rows| - n
  {
    if n < |rows| {
      assert rows[..n + 1][..n] == rows[..n];
      EncountersFails(rows, n + 1, right);
    } else {
      assert rows[..n] == rows;
    }
  }
}
