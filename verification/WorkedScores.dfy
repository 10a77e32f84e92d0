/** The matching as a list of partners, computed row by row, and the exact scores of two pairs. */
module WorkedScores {
  import opened Selection
  import opened Normalize

  /** The first free compatible column at or after j, or -1. */
  function FirstFree(r1: string, r2: string, taken: seq<int>, i: nat, j: nat): (c: int)
    ensures -1 <= c < |r2|
    decreases |r2| - j
  {
    if j >= |r2| then -1
    else if Compatible(r1, r2, i, j) && j !in taken then j
    else FirstFree(r1, r2, taken, i, j + 1)
  }

  /** The partner of each of the first n rows, or -1. */
  function Partners(r1: string, r2: string, n: nat): (q: seq<int>)
    ensures |q| == n
  {
    if n == 0 then [] else
      var q := Partners(r1, r2, n - 1);
      q + [FirstFree(r1, r2, q, n - 1, 0)]
  }

  lemma {:induction false} FirstFreeMatches(r1: string, r2: string, taken: seq<int>, i: nat, j: nat)
    requires |taken| == i && forall i': nat, k: nat :: i' < i ==> (taken[i'] == k <==> Matched(r1, r2, i', k))
    requires forall k: nat :: k < j ==> !Matched(r1, r2, i, k)
    ensures forall k: nat :: FirstFree(r1, r2, taken, i, j) == k <==> Matched(r1, r2, i, k)
    decreases |r2| - j
  {
    if j < |r2| {
      if Compatible(r1, r2, i, j) && j !in taken {
        assert forall i': nat :: i' < i ==> taken[i'] in taken;
        assert Matched(r1, r2, i, j);
      } else {
        if j in taken {
          var i': nat :| i' < i && taken[i'] == j;
          assert Matched(r1, r2, i', j);
        }
        assert !Matched(r1, r2, i, j);
        FirstFreeMatches(r1, r2, taken, i, j + 1);
      }
    }
  }

  /** The list holds exactly the matched pairs. */
  lemma {:induction false} PartnersAreMatched(r1: string, r2: string, n: nat)
    ensures forall i: nat, j: nat :: i < n ==> (Partners(r1, r2, n)[i] == j <==> Matched(r1, r2, i, j))
  {
    if 0 < n {
      PartnersAreMatched(r1, r2, n - 1);
      FirstFreeMatches(r1, r2, Partners(r1, r2, n - 1), n - 1, 0);
    }
  }

  /** The flags follow from the list. */
  lemma FlagsFromPartners(r1: string, r2: string)
    ensures var q := Partners(r1, r2, |r1|);
      && (forall i :: 0 <= i < |r1| ==> Flags1(r1, r2)[i] == (0 <= q[i]))
      && (forall j :: 0 <= j < |r2| ==> Flags2(r1, r2)[j] == (j in q))
  {
    var q := Partners(r1, r2, |r1|);
    PartnersAreMatched(r1, r2, |r1|);
    forall i | 0 <= i < |r1|
      ensures HasPartner(r1, r2, i) == (0 <= q[i])
    {
      if HasPartner(r1, r2, i) {
        var j: nat :| j < |r2| && Matched(r1, r2, i, j);
      }
      if 0 <= q[i] {
        assert Matched(r1, r2, i, q[i]);
      }
    }
    forall j: nat | j < |r2|
      ensures Taken(r1, r2, |r1|, j) == (j in q)
    {
      if Taken(r1, r2, |r1|, j) {
        var i: nat :| i < |r1| && Matched(r1, r2, i, j);
        assert q[i] == j;
      }
      if j in q {
        var i: nat :| i < |q| && q[i] == j;
        assert Matched(r1, r2, i, j);
      }
    }
  }

  /** The next row of the list, if its first free column is c. */
  lemma {:induction false} NextPartner(r1: string, r2: string, q: seq<int>, c: nat)
    requires q == Partners(r1, r2, |q|) && Compatible(r1, r2, |q|, c) && c !in q
    requires forall j: nat :: j < c && Compatible(r1, r2, |q|, j) ==> j in q
    ensures Partners(r1, r2, |q| + 1) == q + [c]
  {
    FirstFreeIs(r1, r2, q, |q|, 0, c);
    assert (q + [c])[..|q|] == q;
  }

  lemma {:induction false} FirstFreeIs(r1: string, r2: string, taken: seq<int>, i: nat, j: nat, c: nat)
    requires j <= c && Compatible(r1, r2, i, c) && c !in taken
    requires forall k: nat :: k < c && Compatible(r1, r2, i, k) ==> k in taken
    ensures FirstFree(r1, r2, taken, i, j) == c
    decreases c - j
  {
    if j < c {
      FirstFreeIs(r1, r2, taken, i, j + 1, c);
    }
  }

  /** Only the middle rune matches, in place: the window of strings this short is empty. */
  lemma ScoreOfMirrored()
    ensures Score("abc", "cba") == 5.0 / 9.0
  {
    var (a, b) := ("abc", "cba");
    assert Partners(a, b, 3) == [-1, 1, -1];
    FlagsFromPartners(a, b);
    assert Flags1(a, b) == [false, true, false] == Flags2(a, b);
    assert Runes1(a, b) == "b" == Runes2(a, b);
  }

  lemma PartnersOfTransposed()
    ensures Partners("MARTHA", "MARHTA", 6) == [0, 1, 2, 4, 3, 5]
  {
    hide Partners, FirstFree;
    var (a, b) := ("MARTHA", "MARHTA");
    NoPartners(a, b);
    NextPartner(a, b, [], 0);
    NextPartner(a, b, [0], 1);
    NextPartner(a, b, [0, 1], 2);
    NextPartner(a, b, [0, 1, 2], 4);
    NextPartner(a, b, [0, 1, 2, 4], 3);
    NextPartner(a, b, [0, 1, 2, 4, 3], 5);
  }

  lemma NoPartners(r1: string, r2: string)
    ensures Partners(r1, r2, 0) == []
  {
  }

  /** Everything matched: the transpositions are the positions at which the strings differ. */
  lemma AllMatched(r1: string, r2: string)
    requires |r1| == |r2|
    requires var q := Partners(r1, r2, |r1|);
      (forall i :: 0 <= i < |r1| ==> 0 <= q[i]) && (forall j :: 0 <= j < |r2| ==> j in q)
    ensures Runes1(r1, r2) == r1 && Runes2(r1, r2) == r2
    ensures Matches(r1, r2) == |r1| && Transpositions(r1, r2) == Differences(r1, r2)
  {
    hide Partners;
    FlagsFromPartners(r1, r2);
    SelectAll(r1, Flags1(r1, r2), |r1|);
    SelectAll(r2, Flags2(r1, r2), |r2|);
    assert r1[..|r1|] == r1 && r2[..|r2|] == r2;
  }

  lemma DifferencesOfTransposed()
    ensures Differences("MARTHA", "MARHTA") == 2
  {
    assert DifferencesTo("MARTHA", "MARHTA", 3) == 0;
    assert DifferencesTo("MARTHA", "MARHTA", 5) == 2;
  }

  lemma PrefixOfTransposed()
    ensures PrefixLength("MARTHA", "MARHTA") == 3
  {
    hide CommonPrefix;
    CommonPrefixUnique("MARTHA", "MARHTA", 4, 3);
  }

  /** Six matches, two of them out of order, and a common prefix of three. */
  lemma ScoreOfTransposed()
    ensures Score("MARTHA", "MARHTA") == 173.0 / 180.0
  {
    hide Partners, Score, Matches, Transpositions, Differences, PrefixLength, Runes1, Runes2;
    PartnersOfTransposed();
    AllMatched("MARTHA", "MARHTA");
    DifferencesOfTransposed();
    PrefixOfTransposed();
    assert "MARTHA"[3] != "MARHTA"[3];
    ScoreMeans("MARTHA", "MARHTA");
  }
}
