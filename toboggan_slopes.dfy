/**
 * 2020/03.2.rb: the same map crossed along five slopes, each a number of
 * columns right and rows down per move; the answer is the product of the
 * trees met on each slope. Rows between two moves are skipped with a
 * down_remaining countdown.
 */
module TobogganSlopes {
  import opened Wrappers
  import opened Toboggan

  /** The slopes as [right, down] pairs. */
  const Slopes: seq<(nat, nat)> := [(1, 1), (3, 1), (5, 1), (7, 1), (1, 2)]

  // ---------------------------------------------------------------------------
  // Which rows the countdown checks

  /** Rows between two checked rows, plus one; a down of 0 behaves as 1. */
  function Stride(down: nat): nat
  {
    if down == 0 then 1 else down
  }

  /**
   * The first checked row. down_remaining starts at down - 1 and a row is
   * skipped while it is above 1, so down - 2 rows are skipped before the
   * first check when down is 2 or more.
   */
  function FirstRow(down: nat): nat
  {
    if down >= 2 then down - 2 else 0
  }

  /** The rows that reach tree_at?: the first row and every Stride-th row after it. */
  predicate Checked(down: nat, row: nat)
  {
    row >= FirstRow(down) && (row - FirstRow(down)) % Stride(down) == 0
  }

  /** How many rows above `row` are checked; the position when `row` is reached is this times right. */
  function CheckedBefore(down: nat, row: nat): nat
  {
    if row <= FirstRow(down) then 0 else (row - FirstRow(down) - 1) / Stride(down) + 1
  }

  /** The value of down_remaining when `row` is read. */
  function Countdown(down: nat, row: nat): int
  {
    if row <= FirstRow(down) then down - 1 - row
    else down - (row - FirstRow(down) - 1) % Stride(down)
  }

  /** One more than a number either stays under the same quotient or starts the next one. */
  lemma DivModNext(q: nat, n: nat)
    requires n > 0
    ensures q % n < n - 1 ==> (q + 1) % n == q % n + 1 && (q + 1) / n == q / n
    ensures q % n == n - 1 ==> (q + 1) % n == 0 && (q + 1) / n == q / n + 1
  {
    assert q == n * (q / n) + q % n;
    if q % n < n - 1 {
      DivModUnique(q + 1, n, q / n, q % n + 1);
    } else {
      DivModUnique(q + 1, n, q / n + 1, 0);
    }
  }

  /**
   * A row is skipped exactly when down_remaining is above 1 on reaching it.
   * A skip lowers down_remaining by one and leaves the position; a check
   * resets down_remaining to down and moves the position on by one step.
   */
  lemma CountdownStep(down: nat, row: nat)
    ensures Countdown(down, 0) == down - 1
    ensures Countdown(down, row) > 1 <==> !Checked(down, row)
    ensures Countdown(down, row) > 1 ==>
      Countdown(down, row + 1) == Countdown(down, row) - 1 && CheckedBefore(down, row + 1) == CheckedBefore(down, row)
    ensures Countdown(down, row) <= 1 ==>
      Countdown(down, row + 1) == down && CheckedBefore(down, row + 1) == CheckedBefore(down, row) + 1
  {
    var first, n := FirstRow(down), Stride(down);
    if row == first {
      assert (row - first) % n == 0;
      assert (row + 1 - first - 1) == 0;
    } else if row > first {
      var q := row - first - 1;
      DivModNext(q, n);
    }
  }

  /** The trees met along one slope; None if a checked row raises. */
  function SlopeTrees(rows: seq<string>, right: nat, down: nat): Option<nat>
  {
    if rows == [] then Some(0)
    else
      var i := |rows| - 1;
      match SlopeTrees(rows[..i], right, down)
      case None => None
      case Some(trees) =>
        if !Checked(down, i) then Some(trees)
        else
          match TreeAt(rows[i], right * CheckedBefore(down, i))
          case None => None
          case Some(hit) => Some(if hit then trees + 1 else trees)
  }

  /** The per-slope loop over the lines, with the down_remaining countdown. */
  method SlopeWalk(rows: seq<string>, right: nat, down: nat) returns (trees: Option<nat>)
    ensures trees == SlopeTrees(rows, right, down)
  {
    var downRemaining: int := down - 1;
    var count := 0;
    var position := 0;
    CountdownStep(down, 0);
    for i := 0 to |rows|
      invariant downRemaining == Countdown(down, i)
      invariant position == right * CheckedBefore(down, i)
      invariant SlopeTrees(rows[..i], right, down) == Some(count)
    {
      SlopeTreesNext(rows, i, right, down, count);
      CountdownStep(down, i);
      if downRemaining > 1 {
        downRemaining := downRemaining - 1;
        continue;
      }
      var hit := TreeAt(rows[i], position);
      if hit.None? {
        SlopeTreesFails(rows, i + 1, right, down);
        return None;
      }
      if hit.value {
        count := count + 1;
      }
      assert position + right == right * (CheckedBefore(down, i) + 1);
      position := position + right;
      downRemaining := down;
    }
    assert rows[..|rows|] == rows;
    trees := Some(count);
  }

  /** One more row: unchanged when the row is skipped, one more tree when a checked row holds one. */
  lemma SlopeTreesNext(rows: seq<string>, i: nat, right: nat, down: nat, count: nat)
    requires i < |rows| && SlopeTrees(rows[..i], right, down) == Some(count)
    ensures !Checked(down, i) ==> SlopeTrees(rows[..i + 1], right, down) == Some(count)
    ensures Checked(down, i) ==>
      var hit := TreeAt(rows[i], right * CheckedBefore(down, i));
      hit.Some? ==> SlopeTrees(rows[..i + 1], right, down) == Some(if hit.value then count + 1 else count)
  {
    assert rows[..i + 1][..i] == rows[..i];
  }

  /** Once a slope raises on a prefix of the rows it raises on all of them. */
  lemma {:induction false} SlopeTreesFails(rows: seq<string>, n: nat, right: nat, down: nat)
    requires n <= |rows|
    requires SlopeTrees(rows[..n], right, down).None?
    ensures SlopeTrees(rows, right, down).None?
    decreases |rows| - n
  {
    if n < |rows| {
      assert rows[..n + 1][..n] == rows[..n];
      SlopeTreesFails(rows, n + 1, right, down);
    } else {
      assert rows[..n] == rows;
    }
  }

  // ---------------------------------------------------------------------------
  // What the countdown amounts to

  /** The k-th checked row is FirstRow + k × Stride, and it is tested at column k × right. */
  lemma KthCheckedRow(down: nat, k: nat)
    ensures Checked(down, FirstRow(down) + k * Stride(down))
    ensures CheckedBefore(down, FirstRow(down) + k * Stride(down)) == k
  {
    var n := Stride(down);
    DivModUnique(k * n, n, k, 0);
    if k > 0 {
      DivModUnique(k * n - 1, n, k - 1, n - 1);
    }
  }

  /** With down 1 every row is checked, row i at column right × i: the walk of 2020/03.rb. */
  lemma {:induction false} DownOneEveryRow(rows: seq<string>, right: nat)
    ensures SlopeTrees(rows, right, 1) == Encounters(rows, right)
  {
    if rows != [] {
      var i := |rows| - 1;
      DownOneEveryRow(rows[..i], right);
      assert Checked(1, i) && CheckedBefore(1, i) == i;
    }
  }

  /** With down 2 exactly the rows 0, 2, 4, … are checked, row 2k at column right × k. */
  lemma DownTwoEvenRows(row: nat)
    ensures Checked(2, row) <==> row % 2 == 0
    ensures row % 2 == 0 ==> CheckedBefore(2, row) == row / 2
  {
    if row % 2 == 0 && row > 0 {
      DivModUnique(row - 1, 2, row / 2 - 1, 1);
    }
  }

  /** A slope of down 3 or more never checks the first row: the countdown starts at down - 1, not at 1. */
  lemma DownThreeSkipsFirstRow(down: nat)
    requires down >= 3
    ensures !Checked(down, 0) && Checked(down, down - 2)
  {
  }

  /** The script's own slopes have down 1 or 2, so each checks exactly the rows 0, down, 2 × down, …. */
  lemma ListedSlopesCheckEveryDownthRow(k: nat, row: nat)
    requires k < |Slopes|
    ensures Checked(Slopes[k].1, row) <==> row % Slopes[k].1 == 0
  {
    DownTwoEvenRows(row);
  }

  /** A slope meets no more trees than it checks rows. */
  lemma {:induction false} SlopeTreesBound(rows: seq<string>, right: nat, down: nat)
    ensures SlopeTrees(rows, right, down).Some? ==> SlopeTrees(rows, right, down).value <= CheckedBefore(down, |rows|) <= |rows|
  {
    if rows != [] {
      var i := |rows| - 1;
      SlopeTreesBound(rows[..i], right, down);
      CountdownStep(down, i);
      CheckedBeforeBound(down, i);
    } else {
      CheckedBeforeBound(down, 0);
    }
  }

  lemma CheckedBeforeBound(down: nat, row: nat)
    ensures CheckedBefore(down, row) <= row
  {
    if row > FirstRow(down) {
      var q, n := row - FirstRow(down) - 1, Stride(down);
      var d := q / n;
      assert q == n * d + q % n;
      assert n * d == d + (n - 1) * d;
    }
  }

  // ---------------------------------------------------------------------------
  // The product over the slopes

  /** total_trees *= trees over the slopes in order, from 1; None if a slope raises. */
  function Product(rows: seq<string>, slopes: seq<(nat, nat)>): Option<int>
  {
    if slopes == [] then Some(1)
    else
      var s := slopes[|slopes| - 1];
      match Product(rows, slopes[..|slopes| - 1])
      case None => None
      case Some(total) =>
        match SlopeTrees(rows, s.0, s.1)
        case None => None
        case Some(trees) => Some(total * trees)
  }

  /**
   * The product exists exactly when every slope's count does; it is never
   * negative, and it is 0 exactly when some slope meets no tree.
   */
  lemma {:induction false} ProductProperties(rows: seq<string>, slopes: seq<(nat, nat)>)
    ensures Product(rows, slopes).Some? <==> forall k :: 0 <= k < |slopes| ==> SlopeTrees(rows, slopes[k].0, slopes[k].1).Some?
    ensures Product(rows, slopes).Some? ==> Product(rows, slopes).value >= 0
    ensures Product(rows, slopes).Some? ==>
      (Product(rows, slopes).value == 0 <==> exists k :: 0 <= k < |slopes| && SlopeTrees(rows, slopes[k].0, slopes[k].1) == Some(0))
  {
    if slopes != [] {
      var n := |slopes| - 1;
      var init := slopes[..n];
      ProductProperties(rows, init);
      assert forall k :: 0 <= k < n ==> slopes[k] == init[k];
      if Product(rows, slopes).Some? {
        var total := Product(rows, init).value;
        var trees := SlopeTrees(rows, slopes[n].0, slopes[n].1).value;
        assert total * trees == 0 <==> total == 0 || trees == 0;
        if exists k :: 0 <= k < |slopes| && SlopeTrees(rows, slopes[k].0, slopes[k].1) == Some(0) {
          var k :| 0 <= k < |slopes| && SlopeTrees(rows, slopes[k].0, slopes[k].1) == Some(0);
          assert k < n ==> init[k] == slopes[k];
        }
      }
    }
  }

  /** slopes.each: each slope walked in turn and the counts multiplied together, from 1. */
  method MultiplySlopes(rows: seq<string>, slopes: seq<(nat, nat)>) returns (total: Option<int>)
    ensures total == Product(rows, slopes)
  {
    var product := 1;
    for k := 0 to |slopes|
      invariant Product(rows, slopes[..k]) == Some(product)
    {
      assert slopes[..k + 1][..k] == slopes[..k];
      var trees := SlopeWalk(rows, slopes[k].0, slopes[k].1);
      if trees.None? {
        ProductFails(rows, slopes, k + 1);
        return None;
      }
      product := product * trees.value;
    }
    assert slopes[..|slopes|] == slopes;
    total := Some(product);
  }

  /** The script's answer, over its five slopes. */
  method TotalTrees(rows: seq<string>) returns (total: Option<int>)
    ensures total == Product(rows, Slopes)
  {
    total := MultiplySlopes(rows, Slopes);
  }

  /** Once the product fails on some of the slopes it fails on all of them. */
  lemma {:induction false} ProductFails(rows: seq<string>, slopes: seq<(nat, nat)>, n: nat)
    requires n <= |slopes|
    requires Product(rows, slopes[..n]).None?
    ensures Product(rows, slopes).None?
    decreases |slopes| - n
  {
    if n < |slopes| {
      assert slopes[..n + 1][..n] == slopes[..n];
      ProductFails(rows, slopes, n + 1);
    } else {
      assert slopes[..n] == slopes;
    }
  }
}
