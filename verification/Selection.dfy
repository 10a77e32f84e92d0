/** Picking the flagged elements of a sequence, in order. */
module Selection {

  function Elements(xs: seq<int>): (r: set<int>)
    ensures forall x :: x in r <==> x in xs
  {
    set x | x in xs
  }

  /** The elements among the first n whose flag is set. */
  function Select<T>(s: seq<T>, flags: seq<bool>, n: nat): seq<T>
    requires |s| == |flags| && n <= |s|
  {
    if n == 0 then [] else Select(s, flags, n - 1) + (if flags[n - 1] then [s[n - 1]] else [])
  }

  function Selected<T>(s: seq<T>, flags: seq<bool>): seq<T>
    requires |s| == |flags|
  {
    Select(s, flags, |s|)
  }

  lemma {:induction false} SelectPrefix<T>(s: seq<T>, flags: seq<bool>, m: nat, n: nat)
    requires |s| == |flags| && m <= n <= |s|
    ensures Select(s, flags, m) <= Select(s, flags, n)
    ensures |Select(s, flags, n)| <= n
    decreases n
  {
    if m < n {
      SelectPrefix(s, flags, m, n - 1);
    } else if 0 < n {
      SelectPrefix(s, flags, n - 1, n - 1);
    }
  }

  /** A flagged position contributes the next element of the selection; an unflagged one does not. */
  lemma SelectNext<T>(s: seq<T>, flags: seq<bool>, i: nat)
    requires |s| == |flags| && i < |s|
    ensures |Select(s, flags, i)| <= |Selected(s, flags)|
    ensures !flags[i] ==> |Select(s, flags, i + 1)| == |Select(s, flags, i)|
    ensures flags[i] ==>
      && |Select(s, flags, i + 1)| == |Select(s, flags, i)| + 1 <= |Selected(s, flags)|
      && Selected(s, flags)[|Select(s, flags, i)|] == s[i]
  {
    SelectPrefix(s, flags, i, |s|);
    SelectPrefix(s, flags, i + 1, |s|);
  }

  /** Setting one more flag adds exactly that element. */
  lemma {:induction false} SelectSet<T>(s: seq<T>, f: seq<bool>, i: nat, n: nat)
    requires |s| == |f| && n <= |s| && i < |s| && !f[i]
    ensures multiset(Select(s, f[i := true], n))
         == multiset(Select(s, f, n)) + (if i < n then multiset{s[i]} else multiset{})
  {
    if 0 < n {
      SelectSet(s, f, i, n - 1);
    }
  }

  /** Every flag set: the whole prefix is selected, and conversely. */
  lemma {:induction false} SelectAll<T>(s: seq<T>, f: seq<bool>, n: nat)
    requires |s| == |f| && n <= |s|
    ensures |Select(s, f, n)| == n <==> forall k :: 0 <= k < n ==> f[k]
    ensures |Select(s, f, n)| == n ==> Select(s, f, n) == s[..n]
  {
    if 0 < n {
      SelectAll(s, f, n - 1);
      SelectPrefix(s, f, n - 1, n - 1);
      assert s[..n] == s[..n - 1] + [s[n - 1]];
    } else {
      assert s[..n] == [];
    }
  }

  /** The number of positions at which two equally long sequences differ. */
  function Differences<T(==)>(x: seq<T>, y: seq<T>): (d: nat)
    requires |x| == |y|
    ensures d <= |x|
  {
    DifferencesTo(x, y, |x|)
  }

  function DifferencesTo<T(==)>(x: seq<T>, y: seq<T>, n: nat): (d: nat)
    requires n <= |x| && n <= |y|
    ensures d <= n
  {
    if n == 0 then 0 else DifferencesTo(x, y, n - 1) + (if x[n - 1] == y[n - 1] then 0 else 1)
  }

  lemma {:induction false} DifferencesSymmetric<T>(x: seq<T>, y: seq<T>, n: nat)
    requires n <= |x| && n <= |y|
    ensures DifferencesTo(x, y, n) == DifferencesTo(y, x, n)
  {
    if 0 < n {
      DifferencesSymmetric(x, y, n - 1);
    }
  }

  /** A common prefix of length p contributes no difference. */
  lemma {:induction false} DifferencesAfterPrefix<T>(x: seq<T>, y: seq<T>, p: nat, n: nat)
    requires p <= n <= |x| && n <= |y|
    requires forall k :: 0 <= k < p ==> x[k] == y[k]
    ensures DifferencesTo(x, y, n) <= n - p
    decreases n
  {
    if p < n {
      DifferencesAfterPrefix(x, y, p, n - 1);
    } else if 0 < n {
      DifferencesAfterPrefix(x, y, n - 1, n - 1);
    }
  }

  lemma {:induction false} NoDifferences<T>(x: seq<T>, y: seq<T>, n: nat)
    requires n <= |x| && n <= |y|
    ensures DifferencesTo(x, y, n) == 0 <==> x[..n] == y[..n]
  {
    if 0 < n {
      NoDifferences(x, y, n - 1);
      assert x[..n] == x[..n - 1] + [x[n - 1]];
      assert y[..n] == y[..n - 1] + [y[n - 1]];
    }
  }

  lemma LastAgrees<T>(a: seq<T>, c: T, d: T)
    requires multiset(a + [c]) == multiset(a + [d])
    ensures c == d
  {
    assert multiset(a + [c]) == multiset(a) + multiset{c};
    assert multiset(a + [d]) == multiset(a) + multiset{d};
    assert multiset(a + [c])[c] == multiset(a)[c] + 1;
  }

  lemma WithoutLast<T>(a: seq<T>, b: seq<T>, c: T)
    requires multiset(a + [c]) == multiset(b + [c])
    ensures multiset(a) == multiset(b)
  {
    assert multiset(a + [c]) - multiset{c} == multiset(a);
    assert multiset(b + [c]) - multiset{c} == multiset(b);
  }

  /** Two permutations of each other never differ at exactly one position. */
  lemma {:induction false} PermutationsNeverDifferOnce<T>(x: seq<T>, y: seq<T>, n: nat)
    requires n <= |x| && n <= |y|
    requires multiset(x[..n]) == multiset(y[..n])
    ensures DifferencesTo(x, y, n) != 1
  {
    if 0 < n {
      assert x[..n] == x[..n - 1] + [x[n - 1]];
      assert y[..n] == y[..n - 1] + [y[n - 1]];
      if DifferencesTo(x, y, n - 1) == 0 {
        NoDifferences(x, y, n - 1);
        LastAgrees(x[..n - 1], x[n - 1], y[n - 1]);
      } else if x[n - 1] == y[n - 1] {
        WithoutLast(x[..n - 1], y[..n - 1], x[n - 1]);
        PermutationsNeverDifferOnce(x, y, n - 1);
      }
    }
  }
}
