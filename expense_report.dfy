/**
 * 2020/01.2.rb: among the entries of an expense report, find every choice of
 * three entries (at three different positions, in every order) that sums to
 * 2020, and answer with the distinct products of those choices.
 */
module ExpenseReport {

  const Target := 2020

  /** Three positions of the report. */
  type Triple = (nat, nat, nat)

  predicate Distinct(t: Triple)
  {
    t.0 != t.1 && t.0 != t.2 && t.1 != t.2
  }

  predicate InRange(t: Triple, n: nat)
  {
    t.0 < n && t.1 < n && t.2 < n
  }

  /** Lexicographic order of triples of positions: the order permutation(3) yields them in. */
  predicate Before(a: Triple, b: Triple)
  {
    a.0 < b.0 || (a.0 == b.0 && (a.1 < b.1 || (a.1 == b.1 && a.2 < b.2)))
  }

  predicate Increasing(ts: seq<Triple>)
  {
    forall a, b :: 0 <= a < b < |ts| ==> Before(ts[a], ts[b])
  }

  /** Two increasing runs, every triple of the first before every triple of the second, make one. */
  lemma IncreasingConcat(a: seq<Triple>, b: seq<Triple>)
    requires Increasing(a) && Increasing(b)
    requires forall x, y :: x in a && y in b ==> Before(x, y)
    ensures Increasing(a + b)
  {
    forall i, j | 0 <= i < j < |a + b|
      ensures Before((a + b)[i], (a + b)[j])
    {
      if j < |a| {
        assert (a + b)[i] == a[i] && (a + b)[j] == a[j];
      } else if i >= |a| {
        assert (a + b)[i] == b[i - |a|] && (a + b)[j] == b[j - |a|];
      } else {
        assert (a + b)[i] == a[i] && (a + b)[j] == b[j - |a|];
      }
    }
  }

  // ---------------------------------------------------------------------------
  // Array#permutation(3), as positions: the first position in order, then each
  // remaining one in order, then each remaining one after those two.

  /** The triples (i, j, k') for k <= k' < n, k' different from i and j. */
  function Thirds(n: nat, i: nat, j: nat, k: nat): (r: seq<Triple>)
    ensures forall t :: t in r <==> t.0 == i && t.1 == j && k <= t.2 < n && t.2 != i && t.2 != j
    ensures Increasing(r)
    decreases n - k
  {
    if k >= n then []
    else
      var head: seq<Triple> := if k != i && k != j then [(i, j, k)] else [];
      IncreasingConcat(head, Thirds(n, i, j, k + 1));
      head + Thirds(n, i, j, k + 1)
  }

  /** The triples (i, j', k) for j <= j' < n, j' different from i, with any third position. */
  function Seconds(n: nat, i: nat, j: nat): (r: seq<Triple>)
    ensures forall t :: t in r <==> t.0 == i && j <= t.1 < n && t.1 != i && t.2 < n && t.2 != i && t.2 != t.1
    ensures Increasing(r)
    decreases n - j
  {
    if j >= n then []
    else
      var head := if j != i then Thirds(n, i, j, 0) else [];
      IncreasingConcat(head, Seconds(n, i, j + 1));
      head + Seconds(n, i, j + 1)
  }

  /** The triples whose first position is at least i. */
  function Firsts(n: nat, i: nat): (r: seq<Triple>)
    ensures forall t :: t in r <==> i <= t.0 < n && InRange(t, n) && Distinct(t)
    ensures Increasing(r)
    decreases n - i
  {
    if i >= n then []
    else
      IncreasingConcat(Seconds(n, i, 0), Firsts(n, i + 1));
      Seconds(n, i, 0) + Firsts(n, i + 1)
  }

  /** permutation(3) of n entries, as the positions it picks. */
  function Permutations3(n: nat): (r: seq<Triple>)
    ensures forall t :: t in r <==> InRange(t, n) && Distinct(t)
    ensures Increasing(r)
  {
    Firsts(n, 0)
  }

  // ---------------------------------------------------------------------------
  // select, map and uniq

  /** The entries a triple of positions picks. */
  function Combo(xs: seq<int>, t: Triple): seq<int>
    requires InRange(t, |xs|)
  {
    [xs[t.0], xs[t.1], xs[t.2]]
  }

  /** Array#sum */
  function Sum(c: seq<int>): int
  {
    if c == [] then 0 else Sum(c[..|c| - 1]) + c[|c| - 1]
  }

  /** reduce(&:*) of a non-empty array, folded from the left. */
  function Product(c: seq<int>): int
    requires c != []
  {
    if |c| == 1 then c[0] else Product(c[..|c| - 1]) * c[|c| - 1]
  }

  lemma ComboSumProduct(xs: seq<int>, t: Triple)
    requires InRange(t, |xs|)
    ensures Sum(Combo(xs, t)) == xs[t.0] + xs[t.1] + xs[t.2]
    ensures Product(Combo(xs, t)) == xs[t.0] * xs[t.1] * xs[t.2]
  {
    var c := Combo(xs, t);
    var ab, a := [xs[t.0], xs[t.1]], [xs[t.0]];
    assert c[..2] == ab && ab[..1] == a && a[..0] == [];
    assert Sum(a) == xs[t.0] && Product(a) == xs[t.0];
    assert Sum(ab) == xs[t.0] + xs[t.1] && Product(ab) == xs[t.0] * xs[t.1];
  }

  /** select { |combo| combo.sum == 2020 } */
  function Kept(xs: seq<int>, ts: seq<Triple>): (r: seq<Triple>)
    requires forall t :: t in ts ==> InRange(t, |xs|)
    ensures forall t :: t in r <==> t in ts && Sum(Combo(xs, t)) == Target
  {
    if ts == [] then []
    else
      var rest := Kept(xs, ts[1..]);
      if Sum(Combo(xs, ts[0])) == Target then [ts[0]] + rest else rest
  }

  /** select keeps the order of the triples it keeps. */
  lemma {:induction false} KeptIncreasing(xs: seq<int>, ts: seq<Triple>)
    requires forall t :: t in ts ==> InRange(t, |xs|)
    requires Increasing(ts)
    ensures Increasing(Kept(xs, ts))
  {
    if ts != [] {
      var rest := Kept(xs, ts[1..]);
      assert forall a, b :: 0 <= a < b < |ts[1..]| ==> ts[1..][a] == ts[a + 1] && ts[1..][b] == ts[b + 1];
      KeptIncreasing(xs, ts[1..]);
      forall y | y in rest
        ensures Before(ts[0], y)
      {
        var m :| 0 <= m < |ts[1..]| && ts[1..][m] == y;
        assert ts[m + 1] == y;
      }
      IncreasingConcat([ts[0]], rest);
    }
  }

  /** map { |e| e.reduce(&:*) } */
  function Products(xs: seq<int>, ts: seq<Triple>): (r: seq<int>)
    requires forall t :: t in ts ==> InRange(t, |xs|)
    ensures |r| == |ts|
    ensures forall k :: 0 <= k < |ts| ==> r[k] == Product(Combo(xs, ts[k]))
  {
    if ts == [] then [] else [Product(Combo(xs, ts[0]))] + Products(xs, ts[1..])
  }

  /** Array#uniq: the first occurrence of each value, in order. */
  function Uniq(s: seq<int>): (r: seq<int>)
    ensures forall v :: v in r <==> v in s
    ensures forall a, b :: 0 <= a < b < |r| ==> r[a] != r[b]
  {
    if s == [] then []
    else
      var u := Uniq(s[..|s| - 1]);
      var last := s[|s| - 1];
      assert s == s[..|s| - 1] + [last];
      if last in u then u else u + [last]
  }

  /** The position of the first occurrence of a value. */
  ghost function FirstIndex(s: seq<int>, v: int): (i: nat)
    requires v in s
    ensures i < |s| && s[i] == v
    ensures forall j :: 0 <= j < i ==> s[j] != v
  {
    var n := |s| - 1;
    assert s == s[..n] + [s[n]];
    if v in s[..n] then
      var i := FirstIndex(s[..n], v);
      assert forall j :: 0 <= j <= i ==> s[..n][j] == s[j];
      i
    else
      assert forall j :: 0 <= j < n ==> s[j] == s[..n][j];
      n
  }

  /** uniq keeps each value at its first occurrence, in the order of those occurrences. */
  lemma {:induction false} UniqOrder(s: seq<int>)
    ensures forall a, b :: 0 <= a < b < |Uniq(s)| ==> FirstIndex(s, Uniq(s)[a]) < FirstIndex(s, Uniq(s)[b])
  {
    if s != [] {
      var n := |s| - 1;
      var init, last := s[..n], s[n];
      var u := Uniq(init);
      UniqOrder(init);
      forall x | x in u
        ensures FirstIndex(s, x) == FirstIndex(init, x) < n
      {
      }
      if last !in u {
        assert last !in init;
        assert FirstIndex(s, last) == n;
        assert Uniq(s) == u + [last];
      }
    }
  }

  /** The script's answer. */
  function MatchingProducts(xs: seq<int>): seq<int>
  {
    Uniq(Products(xs, Kept(xs, Permutations3(|xs|))))
  }

  /** Three different positions whose entries sum to 2020. */
  predicate SumsToTarget(xs: seq<int>, i: int, j: int, k: int)
  {
    0 <= i < |xs| && 0 <= j < |xs| && 0 <= k < |xs| && i != j && i != k && j != k && xs[i] + xs[j] + xs[k] == Target
  }

  /** Every value of the answer is the product of three entries at different positions that sum to 2020. */
  lemma MatchingProductsSound(xs: seq<int>, v: int)
    requires v in MatchingProducts(xs)
    ensures exists i, j, k :: SumsToTarget(xs, i, j, k) && v == xs[i] * xs[j] * xs[k]
  {
    var kept := Kept(xs, Permutations3(|xs|));
    var products := Products(xs, kept);
    var n :| 0 <= n < |products| && products[n] == v;
    var t := kept[n];
    assert t in kept;
    ComboSumProduct(xs, t);
    assert SumsToTarget(xs, t.0, t.1, t.2) && v == xs[t.0] * xs[t.1] * xs[t.2];
  }

  /** No value appears twice in the answer. */
  lemma MatchingProductsUnique(xs: seq<int>)
    ensures forall a, b :: 0 <= a < b < |MatchingProducts(xs)| ==> MatchingProducts(xs)[a] != MatchingProducts(xs)[b]
  {
    var r := MatchingProducts(xs);
    assert r == Uniq(Products(xs, Kept(xs, Permutations3(|xs|))));
  }

  /** Three entries at different positions that sum to 2020 and multiply to v. */
  predicate Yields(xs: seq<int>, t: Triple, v: int)
  {
    SumsToTarget(xs, t.0, t.1, t.2) && xs[t.0] * xs[t.1] * xs[t.2] == v
  }

  /** A triple that yields v is kept, and its product, v, stands at the same place. */
  lemma KeptAt(xs: seq<int>, u: Triple, v: int) returns (m: nat)
    requires Yields(xs, u, v)
    ensures m < |Kept(xs, Permutations3(|xs|))| && Kept(xs, Permutations3(|xs|))[m] == u
    ensures Products(xs, Kept(xs, Permutations3(|xs|)))[m] == v
  {
    var kept := Kept(xs, Permutations3(|xs|));
    ComboSumProduct(xs, u);
    assert u in kept;
    m :| 0 <= m < |kept| && kept[m] == u;
  }

  /** The product of any three entries at different positions that sum to 2020 is in the answer. */
  lemma MatchingProductsComplete(xs: seq<int>, i: int, j: int, k: int)
    requires SumsToTarget(xs, i, j, k)
    ensures xs[i] * xs[j] * xs[k] in MatchingProducts(xs)
  {
    var products := Products(xs, Kept(xs, Permutations3(|xs|)));
    var n := KeptAt(xs, (i, j, k), xs[i] * xs[j] * xs[k]);
    assert products[n] in products;
  }

  /**
   * The answer lists its products in the order of their earliest triples:
   * for two products printed one after the other, the first triple of
   * positions (in permutation(3) order) that yields the earlier one comes
   * before every triple that yields the later one.
   */
  lemma MatchingProductsOrder(xs: seq<int>, a: int, b: int)
    requires 0 <= a < b < |MatchingProducts(xs)|
    ensures exists t: Triple ::
      && Yields(xs, t, MatchingProducts(xs)[a])
      && forall u: Triple :: Yields(xs, u, MatchingProducts(xs)[b]) ==> Before(t, u)
  {
    var kept := Kept(xs, Permutations3(|xs|));
    var products := Products(xs, kept);
    var r := Uniq(products);
    assert r == MatchingProducts(xs);
    KeptIncreasing(xs, Permutations3(|xs|));
    UniqOrder(products);
    assert r[a] in r && r[b] in r;
    var fa, fb := FirstIndex(products, r[a]), FirstIndex(products, r[b]);
    assert fa < fb;
    var t := kept[fa];
    assert t in kept;
    ComboSumProduct(xs, t);
    forall u: Triple | Yields(xs, u, r[b])
      ensures Before(t, u)
    {
      var m := KeptAt(xs, u, r[b]);
      assert fb <= m;
    }
    assert Yields(xs, t, r[a]);
  }

  /** With no three entries summing to 2020 the answer is empty. */
  lemma NoMatchingTriple(xs: seq<int>)
    requires forall i, j, k :: !SumsToTarget(xs, i, j, k)
    ensures MatchingProducts(xs) == []
  {
    if MatchingProducts(xs) != [] {
      MatchingProductsSound(xs, MatchingProducts(xs)[0]);
    }
  }

  /** Fewer than three entries leave nothing to choose. */
  lemma TooFewEntries(xs: seq<int>)
    requires |xs| < 3
    ensures MatchingProducts(xs) == []
  {
    if MatchingProducts(xs) != [] {
      MatchingProductsSound(xs, MatchingProducts(xs)[0]);
    }
  }
}
