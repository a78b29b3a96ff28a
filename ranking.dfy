/**
 * Ordering of tab entries. The comparison of team and speaker results lives
 * in a module that is not part of this model; it is represented here by a
 * comparison key compared lexicographically, larger being better. Two
 * entries are equal (a tie) exactly when their keys are equal.
 *
 * `SortDesc` models Python's `sorted(..., reverse=True)`, which is stable,
 * and `RankAt` models the competition ranking the tab renderer writes into
 * the first column of every row.
 */
module Ranking {

  datatype Score = Score(primary: int, secondary: int)

  /** `a` is strictly better than `b`. */
  predicate Better(a: Score, b: Score) {
    a.primary > b.primary || (a.primary == b.primary && a.secondary > b.secondary)
  }

  /** No entry is strictly better than an entry before it. */
  ghost predicate SortedDesc<T>(s: seq<T>, key: T -> Score) {
    forall i, j :: 0 <= i < j < |s| ==> !Better(key(s[j]), key(s[i]))
  }

  /** `Better` is a strict total preorder whose ties are exactly equal keys. */
  lemma BetterIsStrictTotal(a: Score, b: Score, c: Score)
    ensures !Better(a, a)
    ensures Better(a, b) && Better(b, c) ==> Better(a, c)
    ensures Better(a, b) || Better(b, a) || a == b
  {
  }

  /** Inserts `x` in front of the first entry that is not strictly better than it. */
  function Insert<T>(x: T, s: seq<T>, key: T -> Score): (r: seq<T>)
    requires SortedDesc(s, key)
    ensures SortedDesc(r, key)
    ensures multiset(r) == multiset(s) + multiset{x}
    ensures |r| == |s| + 1
    ensures r[0] == x || (s != [] && r[0] == s[0])
    decreases |s|
  {
    if s == [] || !Better(key(s[0]), key(x)) then
      [x] + s
    else
      var rest := Insert(x, s[1..], key);
      assert s == [s[0]] + s[1..];
      assert !Better(key(rest[0]), key(s[0]));
      [s[0]] + rest
  }

  /** Stable descending sort (insertion sort). */
  function SortDesc<T>(s: seq<T>, key: T -> Score): (r: seq<T>)
    ensures SortedDesc(r, key)
    ensures multiset(r) == multiset(s)
    ensures |r| == |s|
  {
    if s == [] then
      []
    else
      assert s == [s[0]] + s[1..];
      Insert(s[0], SortDesc(s[1..], key), key)
  }

  /** Sorting an already sorted sequence leaves it as it is. */
  lemma {:induction false} SortDescFixpoint<T>(s: seq<T>, key: T -> Score)
    requires SortedDesc(s, key)
    ensures SortDesc(s, key) == s
  {
    if s != [] {
      assert SortedDesc(s[1..], key);
      SortDescFixpoint(s[1..], key);
      assert s[1..] == [] || !Better(key(s[1]), key(s[0]));
      assert s == [s[0]] + s[1..];
    }
  }

  /**
   * The rank printed in row `i`: row 0 gets 1, a row equal to the row above
   * copies its rank, any other row `i` gets `i + 1`.
   */
  function RankAt<T>(s: seq<T>, key: T -> Score, i: nat): (n: nat)
    requires i < |s|
    ensures 1 <= n <= i + 1
  {
    if i == 0 then 1
    else if key(s[i - 1]) == key(s[i]) then RankAt(s, key, i - 1)
    else i + 1
  }

  /** Ranks never decrease down the table. */
  lemma {:induction false} RankMonotone<T>(s: seq<T>, key: T -> Score, i: nat, j: nat)
    requires i <= j < |s|
    ensures RankAt(s, key, i) <= RankAt(s, key, j)
    decreases j - i
  {
    if i < j {
      RankMonotone(s, key, i, j - 1);
    }
  }

  /**
   * Competition ranking: in a sorted table, the rank of row `i` is one plus
   * the number of entries strictly better than it, namely the rows above
   * position `RankAt - 1`; no row from that position on is better.
   */
  lemma {:induction false} RankCountsBetter<T>(s: seq<T>, key: T -> Score, i: nat)
    requires SortedDesc(s, key)
    requires i < |s|
    ensures var k := RankAt(s, key, i) - 1;
      && (forall j :: 0 <= j < k ==> Better(key(s[j]), key(s[i])))
      && (forall j :: k <= j < |s| ==> !Better(key(s[j]), key(s[i])))
  {
    if i > 0 {
      if key(s[i - 1]) == key(s[i]) {
        RankCountsBetter(s, key, i - 1);
      } else {
        assert Better(key(s[i - 1]), key(s[i]));
        forall j | 0 <= j < i
          ensures Better(key(s[j]), key(s[i]))
        {
          if j < i - 1 {
            assert !Better(key(s[i - 1]), key(s[j]));
          }
        }
      }
    }
  }

  /** In a sorted table two rows share a rank exactly when they are tied. */
  lemma SameRankIffTied<T>(s: seq<T>, key: T -> Score, i: nat, j: nat)
    requires SortedDesc(s, key)
    requires i < |s| && j < |s|
    ensures RankAt(s, key, i) == RankAt(s, key, j) <==> key(s[i]) == key(s[j])
  {
    RankCountsBetter(s, key, i);
    RankCountsBetter(s, key, j);
    var ki, kj := RankAt(s, key, i) - 1, RankAt(s, key, j) - 1;
    assert ki < kj ==> Better(key(s[ki]), key(s[j])) && !Better(key(s[ki]), key(s[i]));
    assert kj < ki ==> Better(key(s[kj]), key(s[i])) && !Better(key(s[kj]), key(s[j]));
    assert ki == kj ==> !Better(key(s[i]), key(s[j])) && !Better(key(s[j]), key(s[i]));
  }
}
