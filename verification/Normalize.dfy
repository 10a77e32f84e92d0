/** Jaro-Winkler similarity: the greedy windowed matching, what it computes, and why its
    outcome does not depend on which of the two strings comes first. */
module Normalize {
  import opened Numbers
  import opened Selection

  /** The canonical cache key of a text; its Unicode tables are not part of this model, so every
      result holds for an arbitrary total function. */
  type Normalizer = string -> string

  /** How far apart two equal runes may be and still match. */
  function MatchDist(l1: nat, l2: nat): nat {
    Max(Max(l1, l2) / 2 - 1, 0)
  }

  predicate Compatible(r1: string, r2: string, i: nat, j: nat) {
    && i < |r1| && j < |r2|
    && i - MatchDist(|r1|, |r2|) <= j <= i + MatchDist(|r1|, |r2|)
    && r1[i] == r2[j]
  }

  /** Positions i and j are matched to each other: they are compatible, and neither is matched
      to an earlier position of the other string. */
  ghost predicate Matched(r1: string, r2: string, i: nat, j: nat)
    decreases i + j
  {
    && Compatible(r1, r2, i, j)
    && (forall j': nat | j' < j :: !Matched(r1, r2, i, j'))
    && (forall i': nat | i' < i :: !Matched(r1, r2, i', j))
  }

  /** The definition does not distinguish the two sides. */
  lemma {:induction false} MatchedSymmetric(r1: string, r2: string, i: nat, j: nat)
    ensures Matched(r1, r2, i, j) == Matched(r2, r1, j, i)
    decreases i + j
  {
    forall j': nat | j' < j
      ensures Matched(r1, r2, i, j') == Matched(r2, r1, j', i)
    {
      MatchedSymmetric(r1, r2, i, j');
    }
    forall i': nat | i' < i
      ensures Matched(r1, r2, i', j) == Matched(r2, r1, j, i')
    {
      MatchedSymmetric(r1, r2, i', j);
    }
  }

  /** Half the longer string less one. */
  predicate Near(i: nat, j: nat, length: nat) {
    2 * (i - j) + 2 <= length && 2 * (j - i) + 2 <= length
  }

  lemma WindowIsHalf(r1: string, r2: string, i: nat, j: nat)
    ensures Compatible(r1, r2, i, j) <==>
      && i < |r1| && j < |r2| && r1[i] == r2[j]
      && (i == j || Near(i, j, |r1|) || Near(i, j, |r2|))
  {
  }

  /** Matched runes are equal, at the same position or no further apart than half the longer string
      less one, and neither has an earlier partner. */
  lemma MatchedAreNear(r1: string, r2: string, i: nat, j: nat)
    requires Matched(r1, r2, i, j)
    ensures i < |r1| && j < |r2| && r1[i] == r2[j]
    ensures i == j || Near(i, j, |r1|) || Near(i, j, |r2|)
    ensures forall j': nat | j' < j :: !Matched(r1, r2, i, j')
    ensures forall i': nat | i' < i :: !Matched(r1, r2, i', j)
  {
    WindowIsHalf(r1, r2, i, j);
  }

  /** Conversely, any such positions are matched. */
  lemma NearAreMatched(r1: string, r2: string, i: nat, j: nat)
    requires i < |r1| && j < |r2| && r1[i] == r2[j]
    requires i == j || Near(i, j, |r1|) || Near(i, j, |r2|)
    requires forall j': nat | j' < j :: !Matched(r1, r2, i, j')
    requires forall i': nat | i' < i :: !Matched(r1, r2, i', j)
    ensures Matched(r1, r2, i, j)
  {
    WindowIsHalf(r1, r2, i, j);
  }

  /** R pairs compatible positions that have no earlier available partner on either side. */
  ghost predicate NoEarlierPartner(r1: string, r2: string, R: (nat, nat) -> bool) {
    forall i: nat, j: nat :: R(i, j) <==>
      && Compatible(r1, r2, i, j)
      && (forall j': nat | j' < j :: !R(i, j'))
      && (forall i': nat | i' < i :: !R(i', j))
  }

  /** There is only one such matching. */
  lemma {:induction false} MatchingUnique(r1: string, r2: string, R: (nat, nat) -> bool, i: nat, j: nat)
    requires NoEarlierPartner(r1, r2, R)
    ensures R(i, j) == Matched(r1, r2, i, j)
    decreases i + j
  {
    forall j': nat | j' < j
      ensures R(i, j') == Matched(r1, r2, i, j')
    {
      MatchingUnique(r1, r2, R, i, j');
    }
    forall i': nat | i' < i
      ensures R(i', j) == Matched(r1, r2, i', j)
    {
      MatchingUnique(r1, r2, R, i', j);
    }
  }

  /** Each position has at most one partner. */
  lemma MatchedOnce(r1: string, r2: string, i: nat, j: nat, i': nat, j': nat)
    requires Matched(r1, r2, i, j) && Matched(r1, r2, i', j')
    ensures i == i' <==> j == j'
  {
  }

  /** Every position of a common prefix is matched to itself. */
  lemma {:induction false} PrefixMatchesItself(r1: string, r2: string, p: nat, i: nat)
    requires i < p <= |r1| && p <= |r2| && r1[..p] == r2[..p]
    ensures Matched(r1, r2, i, i)
  {
    forall k: nat | k < i
      ensures !Matched(r1, r2, i, k) && !Matched(r1, r2, k, i)
    {
      PrefixMatchesItself(r1, r2, p, k);
    }
    assert r1[i] == r1[..p][i] == r2[..p][i] == r2[i];
  }

  // ----- the match-flag arrays -----

  /** Row i has found a partner. */
  ghost predicate HasPartner(r1: string, r2: string, i: nat) {
    exists j: nat :: j < |r2| && Matched(r1, r2, i, j)
  }

  /** Column j has been taken by one of the rows below n. */
  ghost predicate Taken(r1: string, r2: string, n: nat, j: nat) {
    exists i: nat :: i < n && Matched(r1, r2, i, j)
  }

  /** The flags of the left string once rows 0..n have been processed. */
  ghost function Left(r1: string, r2: string, n: nat): (f: seq<bool>)
    ensures |f| == |r1|
  {
    seq(|r1|, i requires 0 <= i < |r1| => i < n && HasPartner(r1, r2, i))
  }

  /** The flags of the right string once rows 0..n have been processed. */
  ghost function Right(r1: string, r2: string, n: nat): (f: seq<bool>)
    ensures |f| == |r2|
  {
    seq(|r2|, j requires 0 <= j < |r2| => Taken(r1, r2, n, j))
  }

  ghost function Flags1(r1: string, r2: string): seq<bool> { Left(r1, r2, |r1|) }
  ghost function Flags2(r1: string, r2: string): seq<bool> { Right(r1, r2, |r1|) }

  /** A row that finds no free column changes neither array. */
  lemma RowUnmatched(r1: string, r2: string, n: nat)
    requires n < |r1| && !HasPartner(r1, r2, n)
    ensures Left(r1, r2, n + 1) == Left(r1, r2, n)
    ensures Right(r1, r2, n + 1) == Right(r1, r2, n)
  {
    forall j: nat | j < |r2|
      ensures Taken(r1, r2, n + 1, j) == Taken(r1, r2, n, j)
    {
      if Taken(r1, r2, n + 1, j) {
        var i: nat :| i < n + 1 && Matched(r1, r2, i, j);
        assert i != n;
      }
    }
  }

  /** A row that matches column j sets one flag on each side. */
  lemma RowMatched(r1: string, r2: string, n: nat, j: nat)
    requires n < |r1| && j < |r2| && Matched(r1, r2, n, j)
    ensures !Right(r1, r2, n)[j] && !Left(r1, r2, n)[n]
    ensures Left(r1, r2, n + 1) == Left(r1, r2, n)[n := true]
    ensures Right(r1, r2, n + 1) == Right(r1, r2, n)[j := true]
  {
    assert HasPartner(r1, r2, n);
    forall k: nat | k < |r2|
      ensures Taken(r1, r2, n + 1, k) == (k == j || Taken(r1, r2, n, k))
    {
      if Taken(r1, r2, n + 1, k) {
        var i: nat :| i < n + 1 && Matched(r1, r2, i, k);
        if i == n {
          MatchedOnce(r1, r2, n, j, n, k);
        }
      }
      if Taken(r1, r2, n, k) {
        var i: nat :| i < n && Matched(r1, r2, i, k);
        assert i < n + 1;
      }
      if k == j {
        assert n < n + 1;
      }
    }
  }

  ghost function Runes1(r1: string, r2: string): string { Selected(r1, Flags1(r1, r2)) }
  ghost function Runes2(r1: string, r2: string): string { Selected(r2, Flags2(r1, r2)) }

  lemma SetBoth(s: string, f: seq<bool>, i: nat, t: string, g: seq<bool>, j: nat)
    requires |s| == |f| && |t| == |g| && i < |s| && j < |t|
    requires !f[i] && !g[j] && s[i] == t[j]
    requires multiset(Selected(s, f)) == multiset(Selected(t, g))
    ensures multiset(Selected(s, f[i := true])) == multiset(Selected(t, g[j := true]))
  {
    SelectSet(s, f, i, |s|);
    SelectSet(t, g, j, |t|);
  }

  ghost predicate SameRunes(r1: string, r2: string, n: nat) {
    multiset(Selected(r1, Left(r1, r2, n))) == multiset(Selected(r2, Right(r1, r2, n)))
  }

  lemma RowKeepsSameRunes(r1: string, r2: string, n: nat)
    requires n < |r1| && SameRunes(r1, r2, n)
    ensures SameRunes(r1, r2, n + 1)
  {
    if HasPartner(r1, r2, n) {
      var j: nat :| j < |r2| && Matched(r1, r2, n, j);
      RowMatched(r1, r2, n, j);
      SetBoth(r1, Left(r1, r2, n), n, r2, Right(r1, r2, n), j);
    } else {
      RowUnmatched(r1, r2, n);
    }
  }

  /** After any number of rows, the runes flagged on the left are a permutation of those flagged
      on the right. */
  lemma {:induction false} MatchedRunesPermute(r1: string, r2: string, n: nat)
    requires n <= |r1|
    ensures SameRunes(r1, r2, n)
  {
    if n == 0 {
      NothingSelected(r1, Left(r1, r2, 0), |r1|);
      NothingSelected(r2, Right(r1, r2, 0), |r2|);
    } else {
      MatchedRunesPermute(r1, r2, n - 1);
      RowKeepsSameRunes(r1, r2, n - 1);
    }
  }

  lemma {:induction false} NothingSelected<T>(s: seq<T>, f: seq<bool>, n: nat)
    requires |s| == |f| && n <= |s|
    requires forall k :: 0 <= k < |f| ==> !f[k]
    ensures Select(s, f, n) == []
  {
    if 0 < n {
      NothingSelected(s, f, n - 1);
    }
  }

  lemma SamePermutationSameLength<T>(x: seq<T>, y: seq<T>)
    requires multiset(x) == multiset(y)
    ensures |x| == |y|
  {
    assert |multiset(x)| == |x| && |multiset(y)| == |y|;
  }

  /** Both sides have the same number of flags. */
  lemma SameMatchCount(r1: string, r2: string)
    ensures |Runes1(r1, r2)| == |Runes2(r1, r2)|
    ensures |Runes1(r1, r2)| <= |r1| && |Runes2(r1, r2)| <= |r2|
  {
    MatchedRunesPermute(r1, r2, |r1|);
    SamePermutationSameLength(Runes1(r1, r2), Runes2(r1, r2));
    SelectPrefix(r1, Flags1(r1, r2), 0, |r1|);
    SelectPrefix(r2, Flags2(r1, r2), 0, |r2|);
  }

  ghost function Matches(r1: string, r2: string): nat { |Runes1(r1, r2)| }

  ghost function Transpositions(r1: string, r2: string): nat {
    SameMatchCount(r1, r2);
    Differences(Runes1(r1, r2), Runes2(r1, r2))
  }

  function CommonPrefix(r1: string, r2: string, bound: nat): (p: nat)
    requires bound <= |r1| && bound <= |r2|
    ensures p <= bound
    ensures r1[..p] == r2[..p]
    ensures p < bound ==> r1[p] != r2[p]
  {
    if bound == 0 || r1[0] != r2[0] then
      0
    else
      var p := CommonPrefix(r1[1..], r2[1..], bound - 1);
      assert r1[..p + 1] == [r1[0]] + r1[1..][..p];
      assert r2[..p + 1] == [r2[0]] + r2[1..][..p];
      p + 1
  }

  function PrefixLength(r1: string, r2: string): nat {
    CommonPrefix(r1, r2, Min(4, Min(|r1|, |r2|)))
  }

  /** The Jaro part, in exact arithmetic, from m matches and t transpositions. */
  function Jaro(m: nat, t: nat, l1: nat, l2: nat): real
    requires 0 < m && 0 < l1 && 0 < l2
  {
    (m as real / l1 as real + m as real / l2 as real + (m as real - t as real / 2.0) / m as real) / 3.0
  }

  function Winkler(jaro: real, p: nat): real {
    jaro + p as real * 0.1 * (1.0 - jaro)
  }

  ghost function Score(r1: string, r2: string): real {
    if r1 == r2 then
      1.0
    else if Matches(r1, r2) == 0 then
      0.0
    else
      SameMatchCount(r1, r2);
      Winkler(Jaro(Matches(r1, r2), Transpositions(r1, r2), |r1|, |r2|), PrefixLength(r1, r2))
  }

  // ----- symmetry -----

  /** Swapping the strings swaps the two flag arrays exactly. */
  lemma FlagsSwap(r1: string, r2: string)
    ensures Flags1(r2, r1) == Flags2(r1, r2)
    ensures Flags2(r2, r1) == Flags1(r1, r2)
  {
    forall i: nat, j: nat
      ensures Matched(r1, r2, i, j) == Matched(r2, r1, j, i)
    {
      MatchedSymmetric(r1, r2, i, j);
    }
    forall j: nat | j < |r2|
      ensures HasPartner(r2, r1, j) == Taken(r1, r2, |r1|, j)
    {
    }
    forall i: nat | i < |r1|
      ensures HasPartner(r1, r2, i) == Taken(r2, r1, |r2|, i)
    {
    }
  }

  lemma {:induction false} CommonPrefixSymmetric(r1: string, r2: string, bound: nat)
    requires bound <= |r1| && bound <= |r2|
    ensures CommonPrefix(r1, r2, bound) == CommonPrefix(r2, r1, bound)
  {
    if bound != 0 && r1[0] == r2[0] {
      CommonPrefixSymmetric(r1[1..], r2[1..], bound - 1);
    }
  }

  /** The similarity does not depend on the order of its arguments: swapping them leaves the
      match count, the transposition count, the prefix length and the score unchanged. */
  lemma ScoreSymmetric(r1: string, r2: string)
    ensures Matches(r1, r2) == Matches(r2, r1)
    ensures Transpositions(r1, r2) == Transpositions(r2, r1)
    ensures PrefixLength(r1, r2) == PrefixLength(r2, r1)
    ensures Score(r1, r2) == Score(r2, r1)
  {
    FlagsSwap(r1, r2);
    SameMatchCount(r1, r2);
    SameMatchCount(r2, r1);
    DifferencesSymmetric(Runes1(r1, r2), Runes2(r1, r2), Matches(r1, r2));
    CommonPrefixSymmetric(r1, r2, Min(4, Min(|r1|, |r2|)));
  }

  // ----- range -----

  /** The transposition count never exceeds the match count and is never exactly one. */
  lemma TranspositionsNeverOne(r1: string, r2: string)
    ensures Transpositions(r1, r2) <= Matches(r1, r2)
    ensures Transpositions(r1, r2) != 1
  {
    SameMatchCount(r1, r2);
    MatchedRunesPermute(r1, r2, |r1|);
    var x, y := Runes1(r1, r2), Runes2(r1, r2);
    assert x[..|x|] == x && y[..|x|] == y;
    PermutationsNeverDifferOnce(x, y, |x|);
  }

  /** The selected runes start with the whole common prefix, so the early return on zero matches
      never discards a prefix bonus and a transposition never falls inside the prefix. */
  lemma PrefixIsMatched(r1: string, r2: string, p: nat)
    requires p <= |r1| && p <= |r2| && r1[..p] == r2[..p]
    ensures r1[..p] <= Runes1(r1, r2) && r2[..p] <= Runes2(r1, r2)
    ensures p <= Matches(r1, r2)
    ensures Transpositions(r1, r2) <= Matches(r1, r2) - p
  {
    forall i: nat | i < p
      ensures HasPartner(r1, r2, i) && Taken(r1, r2, |r1|, i)
    {
      PrefixMatchesItself(r1, r2, p, i);
    }
    SelectAll(r1, Flags1(r1, r2), p);
    SelectAll(r2, Flags2(r1, r2), p);
    SelectPrefix(r1, Flags1(r1, r2), p, |r1|);
    SelectPrefix(r2, Flags2(r1, r2), p, |r2|);
    SameMatchCount(r1, r2);
    var x, y := Runes1(r1, r2), Runes2(r1, r2);
    assert forall k :: 0 <= k < p ==> x[k] == r1[..p][k] && y[k] == r2[..p][k];
    DifferencesAfterPrefix(x, y, p, |x|);
  }

  lemma Ratio(a: real, b: real)
    requires 0.0 < a <= b
    ensures 0.0 < a / b <= 1.0
    ensures a / b == 1.0 <==> a == b
  {
  }

  lemma Quotient(q: real, m: real)
    requires 0.0 < m
    ensures q * m / m == q
  {
  }

  lemma ProductSign(a: real, b: real)
    requires 0.0 <= b
    ensures 0.0 <= a ==> 0.0 <= a * b
    ensures 0.0 < a ==> (a * b == 0.0 <==> b == 0.0)
  {
  }

  lemma Half(m: real, t: real)
    requires 0.0 < m && 0.0 <= t <= m
    ensures 0.5 <= (m - t / 2.0) / m <= 1.0
    ensures (m - t / 2.0) / m == 1.0 <==> t == 0.0
  {
    var q := 1.0 - t / m / 2.0;
    if 0.0 < t {
      Ratio(t, m);
    }
    assert m - t / 2.0 == q * m;
    Quotient(q, m);
  }

  lemma JaroRange(m: nat, t: nat, l1: nat, l2: nat)
    requires 0 < m <= l1 && m <= l2 && t <= m
    ensures 1.0 / 6.0 < Jaro(m, t, l1, l2) <= 1.0
    ensures Jaro(m, t, l1, l2) == 1.0 <==> m == l1 == l2 && t == 0
  {
    Ratio(m as real, l1 as real);
    Ratio(m as real, l2 as real);
    Half(m as real, t as real);
  }

  /** The prefix bonus only moves a score towards one, and never reaches it. */
  lemma WinklerRange(jaro: real, p: nat)
    requires 0.0 <= jaro <= 1.0 && p <= 4
    ensures jaro <= Winkler(jaro, p) <= 1.0
    ensures Winkler(jaro, p) == 1.0 <==> jaro == 1.0
  {
    var q := p as real * 0.1;
    assert Winkler(jaro, p) - jaro == q * (1.0 - jaro);
    assert 1.0 - Winkler(jaro, p) == (1.0 - q) * (1.0 - jaro);
    ProductSign(q, 1.0 - jaro);
    ProductSign(1.0 - q, 1.0 - jaro);
  }

  /** Everything matched in place means that the strings are equal. */
  lemma PerfectMatchIsEquality(r1: string, r2: string)
    requires Matches(r1, r2) == |r1| == |r2| && Transpositions(r1, r2) == 0
    ensures r1 == r2
  {
    SameMatchCount(r1, r2);
    var x, y := Runes1(r1, r2), Runes2(r1, r2);
    SelectAll(r1, Flags1(r1, r2), |r1|);
    SelectAll(r2, Flags2(r1, r2), |r2|);
    NoDifferences(x, y, |x|);
    assert r1[..|r1|] == r1 && r2[..|r2|] == r2;
    assert x[..|x|] == x && y[..|x|] == y;
  }

  /** In exact arithmetic the score is one exactly for equal strings, zero exactly for different
      strings without a single match, and otherwise strictly between one sixth and one. */
  lemma ScoreRange(r1: string, r2: string)
    ensures 0.0 <= Score(r1, r2) <= 1.0
    ensures Score(r1, r2) == 1.0 <==> r1 == r2
    ensures Score(r1, r2) == 0.0 <==> r1 != r2 && Matches(r1, r2) == 0
    ensures r1 != r2 && Matches(r1, r2) != 0 ==> 1.0 / 6.0 < Score(r1, r2) < 1.0
  {
    if r1 != r2 && Matches(r1, r2) != 0 {
      SameMatchCount(r1, r2);
      TranspositionsNeverOne(r1, r2);
      var m, t := Matches(r1, r2), Transpositions(r1, r2);
      JaroRange(m, t, |r1|, |r2|);
      WinklerRange(Jaro(m, t, |r1|, |r2|), PrefixLength(r1, r2));
      if Score(r1, r2) == 1.0 {
        PerfectMatchIsEquality(r1, r2);
      }
    }
  }

  /** The counted prefix is the longest common one, but for the limit of four runes. */
  lemma PrefixIsLongest(r1: string, r2: string)
    ensures var p := PrefixLength(r1, r2);
      && p <= 4 && p <= |r1| && p <= |r2| && r1[..p] == r2[..p]
      && (p == 4 || p == |r1| || p == |r2| || r1[p] != r2[p])
  {
  }

  /** Each rune of that prefix takes the score a tenth of the way from the Jaro similarity to one:
      a mean of the matched shares of both strings and of the matches that are in order, where two
      runes out of order count as one. */
  lemma ScoreMeans(r1: string, r2: string)
    requires r1 != r2 && Matches(r1, r2) != 0
    ensures |r1| != 0 && |r2| != 0
    ensures var (m, t, p) := (Matches(r1, r2) as real, Transpositions(r1, r2) as real, PrefixLength(r1, r2) as real);
      var shares := m / |r1| as real + m / |r2| as real + (1.0 - t / (2.0 * m));
      Score(r1, r2) == p / 10.0 + (1.0 - p / 10.0) * (shares / 3.0)
  {
    SameMatchCount(r1, r2);
    var (m, t, p) := (Matches(r1, r2) as real, Transpositions(r1, r2) as real, PrefixLength(r1, r2) as real);
    InOrder(m, t);
    var j := Jaro(Matches(r1, r2), Transpositions(r1, r2), |r1|, |r2|);
    TowardsOne(j, p);
  }

  lemma InOrder(m: real, t: real)
    requires 0.0 < m
    ensures (m - t / 2.0) / m == 1.0 - t / (2.0 * m)
  {
    var late := t / (2.0 * m);
    assert late * (2.0 * m) == t;
    var q := 1.0 - late;
    assert m - t / 2.0 == q * m;
    Quotient(q, m);
  }

  lemma TowardsOne(j: real, p: real)
    ensures j + p * 0.1 * (1.0 - j) == p / 10.0 + (1.0 - p / 10.0) * j
  {
    var q := p / 10.0;
    assert p * 0.1 == q;
    assert q * (1.0 - j) == q - q * j;
    assert (1.0 - q) * j == j - q * j;
  }

  // ----- the algorithm -----

  lemma OutsideWindow(r1: string, r2: string, i: nat, j: nat)
    requires !Compatible(r1, r2, i, j)
    ensures !Matched(r1, r2, i, j)
  {
  }

  lemma ColumnTaken(r1: string, r2: string, i: nat, j: nat)
    requires Taken(r1, r2, i, j)
    ensures !Matched(r1, r2, i, j)
  {
  }

  lemma ColumnFree(r1: string, r2: string, i: nat, j: nat)
    requires Compatible(r1, r2, i, j) && !Taken(r1, r2, i, j) && SkippedTo(r1, r2, i, j)
    ensures Matched(r1, r2, i, j)
  {
  }

  /** Row i matches no column below j. */
  ghost predicate SkippedTo(r1: string, r2: string, i: nat, j: int) {
    forall k: nat | k < j :: !Matched(r1, r2, i, k)
  }

  /** The greedy pass over the flag arrays: row by row, take the first free compatible column. */
  method MatchRunes(r1: string, r2: string, m1: array<bool>, m2: array<bool>) returns (matches: nat)
    requires m1 != m2 && m1.Length == |r1| && m2.Length == |r2|
    requires forall i :: 0 <= i < m1.Length ==> !m1[i]
    requires forall j :: 0 <= j < m2.Length ==> !m2[j]
    modifies m1, m2
    ensures m1[..] == Flags1(r1, r2) && m2[..] == Flags2(r1, r2)
    ensures matches == Matches(r1, r2)
  {
    var l1, l2 := |r1|, |r2|;
    var matchDist := MatchDist(l1, l2);
    matches := 0;
    NothingSelected(r1, Left(r1, r2, 0), l1);
    assert m1[..] == Left(r1, r2, 0) && m2[..] == Right(r1, r2, 0);
    for i := 0 to l1
      invariant m1[..] == Left(r1, r2, i) && m2[..] == Right(r1, r2, i)
      invariant matches == |Selected(r1, Left(r1, r2, i))|
    {
      var lo, hi := Max(0, i - matchDist), Min(l2 - 1, i + matchDist);
      var j, found := lo, false;
      WindowStart(r1, r2, i);
      while j <= hi && !found
        invariant 0 <= lo <= j
        invariant !found ==> SkippedTo(r1, r2, i, Min(j, hi + 1))
        invariant !found ==> m1[..] == Left(r1, r2, i) && m2[..] == Right(r1, r2, i)
        invariant !found ==> matches == |Selected(r1, Left(r1, r2, i))|
        invariant found ==> m1[..] == Left(r1, r2, i + 1) && m2[..] == Right(r1, r2, i + 1)
        invariant found ==> matches == |Selected(r1, Left(r1, r2, i + 1))|
        decreases hi - j, !found
      {
        assert m2[j] == m2[..][j];
        if !m2[j] && r1[i] == r2[j] {
          ColumnFree(r1, r2, i, j);
          RowMatched(r1, r2, i, j);
          SelectSet(r1, Left(r1, r2, i), i, l1);
          SetAddsOne(Selected(r1, Left(r1, r2, i)), Selected(r1, Left(r1, r2, i + 1)), r1[i]);
          m1[i] := true;
          m2[j] := true;
          matches := matches + 1;
          found := true;
        } else {
          ColumnSkipped(r1, r2, i, j);
          j := j + 1;
        }
      }
      if !found {
        WindowEnd(r1, r2, i, Min(j, hi + 1));
        RowUnmatched(r1, r2, i);
      }
    }
  }

  lemma WindowStart(r1: string, r2: string, i: nat)
    ensures SkippedTo(r1, r2, i, Max(0, i - MatchDist(|r1|, |r2|)))
  {
  }

  lemma WindowEnd(r1: string, r2: string, i: nat, j: int)
    requires SkippedTo(r1, r2, i, j)
    requires j == Min(|r2| - 1, i + MatchDist(|r1|, |r2|)) + 1 || j > i + MatchDist(|r1|, |r2|) || j >= |r2|
    ensures !HasPartner(r1, r2, i)
  {
  }

  lemma ColumnSkipped(r1: string, r2: string, i: nat, j: nat)
    requires SkippedTo(r1, r2, i, j)
    requires Taken(r1, r2, i, j) || !Compatible(r1, r2, i, j)
    ensures SkippedTo(r1, r2, i, j + 1)
  {
    if Taken(r1, r2, i, j) {
      ColumnTaken(r1, r2, i, j);
    } else {
      OutsideWindow(r1, r2, i, j);
    }
  }

  lemma SetAddsOne(x: string, y: string, c: char)
    requires multiset(y) == multiset(x) + multiset{c}
    ensures |y| == |x| + 1
  {
    assert |multiset(x)| == |x| && |multiset(y)| == |y|;
  }

  /** The second pass: walk the flagged positions of both strings in step. The inner scan needs
      no bound of its own because the right string has as many flags as the left. */
  method CountTranspositions(r1: string, r2: string, m1: array<bool>, m2: array<bool>) returns (transpositions: nat)
    requires m1.Length == |r1| && m2.Length == |r2|
    requires |Selected(r1, m1[..])| == |Selected(r2, m2[..])|
    ensures transpositions == Differences(Selected(r1, m1[..]), Selected(r2, m2[..]))
  {
    ghost var f, g := m1[..], m2[..];
    ghost var x, y := Selected(r1, f), Selected(r2, g);
    transpositions := 0;
    var k := 0;
    for i := 0 to |r1|
      invariant k <= |r2|
      invariant |Select(r1, f, i)| == |Select(r2, g, k)| <= |x|
      invariant transpositions == DifferencesTo(x, y, |Select(r1, f, i)|)
    {
      SelectNext(r1, f, i);
      if m1[i] {
        while !m2[k]
          invariant k < |r2|
          invariant |Select(r2, g, k)| == |Select(r1, f, i)|
          decreases |r2| - k
        {
          SelectNext(r2, g, k);
          k := k + 1;
        }
        SelectNext(r2, g, k);
        if r1[i] != r2[k] {
          transpositions := transpositions + 1;
        }
        k := k + 1;
      }
    }
  }

  /** The length of the common prefix, up to four runes. */
  method CountPrefix(s1: string, s2: string) returns (prefLen: nat)
    ensures prefLen == PrefixLength(s1, s2)
  {
    var maxPref := Min(4, Min(|s1|, |s2|));
    prefLen := 0;
    while prefLen < maxPref && s1[prefLen] == s2[prefLen]
      invariant prefLen <= maxPref
      invariant s1[..prefLen] == s2[..prefLen]
    {
      prefLen := prefLen + 1;
    }
    CommonPrefixUnique(s1, s2, maxPref, prefLen);
  }

  /** Jaro-Winkler similarity of two already normalized strings. */
  method JaroWinkler(s1: string, s2: string) returns (score: real)
    ensures score == Score(s1, s2)
  {
    hide Left, Right, Matched, PrefixLength, Differences;
    if s1 == s2 {
      return 1.0;
    }
    SameMatchCount(s1, s2);
    if |s1| == 0 || |s2| == 0 {
      return 0.0;
    }
    var m1, m2 := new bool[|s1|](_ => false), new bool[|s2|](_ => false);
    var matches := MatchRunes(s1, s2, m1, m2);
    if matches == 0 {
      return 0.0;
    }
    var transpositions := CountTranspositions(s1, s2, m1, m2);
    var jaro := Jaro(matches, transpositions, |s1|, |s2|);
    var prefLen := CountPrefix(s1, s2);
    return Winkler(jaro, prefLen);
  }

  lemma CommonPrefixUnique(r1: string, r2: string, bound: nat, p: nat)
    requires p <= bound <= |r1| && bound <= |r2|
    requires r1[..p] == r2[..p] && (p < bound ==> r1[p] != r2[p])
    ensures p == CommonPrefix(r1, r2, bound)
  {
    SamePrefix(r1, r2, p);
    SamePrefix(r1, r2, CommonPrefix(r1, r2, bound));
  }

  lemma SamePrefix(r1: string, r2: string, p: nat)
    requires p <= |r1| && p <= |r2| && r1[..p] == r2[..p]
    ensures forall k :: 0 <= k < p ==> r1[k] == r2[k]
  {
    assert forall k :: 0 <= k < p ==> r1[..p][k] == r2[..p][k];
  }

  ghost function ConfidenceOf(norm: Normalizer, a: string, b: string): real {
    Score(norm(a), norm(b))
  }

  /** The similarity of two raw texts. */
  method MatchConfidence(norm: Normalizer, a: string, b: string) returns (score: real)
    ensures score == ConfidenceOf(norm, a, b)
  {
    score := JaroWinkler(norm(a), norm(b));
  }

  /** What the callers rely on: a symmetric number in the unit interval that is one exactly when
      the normalized texts agree. */
  lemma ConfidenceIsSimilarity(norm: Normalizer, a: string, b: string)
    ensures ConfidenceOf(norm, a, b) == ConfidenceOf(norm, b, a)
    ensures 0.0 <= ConfidenceOf(norm, a, b) <= 1.0
    ensures ConfidenceOf(norm, a, b) == 1.0 <==> norm(a) == norm(b)
  {
    ScoreSymmetric(norm(a), norm(b));
    ScoreRange(norm(a), norm(b));
  }
}
