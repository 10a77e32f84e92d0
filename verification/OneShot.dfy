/** The one-shot fetch loop over an in-memory queue. */
module OneShot {
  import opened Numbers
  import opened Backoff
  import opened Selection
  import opened Schema

  /** A first-in first-out queue. */
  class InputsQueue {
    var items: seq<Inputs>

    constructor ()
      ensures items == []
    {
      items := [];
    }

    method Next() returns (r: Result<Inputs>)
      ensures r == if items == [] then Err(NoRows) else Ok(items[0])
    {
      return if |items| == 0 then Err(NoRows) else Ok(items[0]);
    }

    method Pop() returns (r: Result<Inputs>)
      modifies this
      ensures r == if old(items) == [] then Err(NoRows) else Ok(old(items)[0])
      ensures old(items) != [] ==> old(items) == [old(items)[0]] + items
      ensures old(items) == [] ==> items == []
    {
      if |items| == 0 {
        return Err(NoRows);
      }
      r := Ok(items[0]);
      items := items[1..];
    }

    method Push(i: Inputs)
      modifies this
      ensures items == old(items) + [i]
    {
      items := items + [i];
    }

    predicate IsEmpty()
      reads this
    {
      |items| == 0
    }
  }

  /** What happens to the k-th item: whether the run is canceled before it, and whether its fetch
      and its write succeed. */
  datatype Attempt = Attempt(canceled: bool, fetchOk: bool, writeOk: bool)

  /** Item k was reached, fetched and written. */
  predicate Succeeded(env: nat -> Attempt, reached: nat, k: nat) {
    k < reached && env(k).fetchOk && env(k).writeOk
  }

  function Successes(env: nat -> Attempt, reached: nat, total: nat): (f: seq<bool>)
    ensures |f| == total
  {
    seq(total, k requires 0 <= k < total => Succeeded(env, reached, k))
  }

  function Complement(f: seq<bool>): (g: seq<bool>)
    ensures |g| == |f|
  {
    seq(|f|, k requires 0 <= k < |f| => !f[k])
  }

  /** How many fetches in a row have failed, up to and including item k. */
  function FailRun(env: nat -> Attempt, k: nat): nat {
    if env(k).fetchOk then 0 else 1 + if k == 0 then 0 else FailRun(env, k - 1)
  }

  /** The pauses after failed fetches: one for each failure that leaves an item waiting, as long as
      the backoff of the current run of failures. */
  function Pauses(env: nat -> Attempt, base: int, max: int, total: nat, reached: nat): seq<int> {
    if reached == 0 then
      []
    else
      var k := reached - 1;
      var wait := Wait(FailRun(env, k), base, max);
      Pauses(env, base, max, total, k) + if !env(k).fetchOk && reached < total && 0 < wait then [wait] else []
  }

  class App {
    const inputs: InputsQueue
    const failed: InputsQueue
    const total: nat
    const baseBackoff: Duration
    const maxBackoff: Duration
    var failureCount: int

    constructor (inputs: InputsQueue, baseBackoff: Duration, maxBackoff: Duration)
      ensures this.inputs == inputs && fresh(failed) && failed.items == []
      ensures total == |inputs.items| && failureCount == 0
      ensures this.baseBackoff == baseBackoff && this.maxBackoff == maxBackoff
    {
      this.inputs, total := inputs, |inputs.items|;
      this.baseBackoff, this.maxBackoff, failureCount := baseBackoff, maxBackoff, 0;
      failed := new InputsQueue();
    }

    /** The loop and the final draining. Nothing is lost or duplicated: the written items are, in
        input order, exactly those whose fetch and write succeeded, and the failed queue ends up
        with, in input order, exactly the others; together they are the inputs. */
    method Run(env: nat -> Attempt) returns (success: int, written: seq<Inputs>, pauses: seq<int>, ghost reached: nat)
      requires inputs != failed && failed.items == [] && failureCount == 0 && total == |inputs.items|
      modifies this, inputs, failed
      ensures reached <= total && (forall k: nat :: k < reached ==> !env(k).canceled)
      ensures reached < total ==> env(reached).canceled
      ensures written == Selected(old(inputs.items), Successes(env, reached, total))
      ensures failed.items == Selected(old(inputs.items), Complement(Successes(env, reached, total)))
      ensures multiset(written) + multiset(failed.items) == multiset(old(inputs.items))
      ensures inputs.items == []
      ensures success == |written|
      ensures pauses == Pauses(env, baseBackoff as int, maxBackoff as int, total, reached)
    {
      hide Select, Selected, Complement, Successes, Wait;
      ghost var all := inputs.items;
      written, pauses, reached := [], [], 0;
      NothingReached(env, all, total);
      var k := 0;
      while !inputs.IsEmpty() && !env(k).canceled
        invariant k == reached <= total == |all| && inputs.items == all[k..]
        invariant forall i: nat :: i < k ==> !env(i).canceled
        invariant written == Select(all, Successes(env, k, total), k)
        invariant failed.items == Select(all, Complement(Successes(env, k, total)), k)
        invariant failureCount == if k == 0 then 0 else FailRun(env, k - 1)
        invariant pauses == Pauses(env, baseBackoff as int, maxBackoff as int, total, k)
        decreases |inputs.items|
      {
        OneMoreReached(env, all, k, total);
        var wrote, paused := AttemptNext(env(k));
        written, pauses := written + wrote, pauses + paused;
        k := k + 1;
        reached := k;
      }
      DrainedComplement(env, all, k, total);
      success := HandleFailed();
      SplitsAll(all, Successes(env, k, total));
    }

    /** Fetch and write the front item; a failed fetch pauses unless nothing is left to do. */
    method AttemptNext(a: Attempt) returns (wrote: seq<Inputs>, paused: seq<int>)
      requires inputs != failed && inputs.items != []
      modifies this, inputs, failed
      ensures inputs.items == old(inputs.items)[1..]
      ensures failureCount == if a.fetchOk then 0 else old(failureCount) + 1
      ensures wrote == if a.fetchOk && a.writeOk then [old(inputs.items)[0]] else []
      ensures failed.items == old(failed.items) + if a.fetchOk && a.writeOk then [] else [old(inputs.items)[0]]
      ensures var wait := Wait(old(failureCount) + 1, baseBackoff as int, maxBackoff as int);
        paused == if !a.fetchOk && inputs.items != [] && 0 < wait then [wait] else []
    {
      wrote, paused := [], [];
      var front := inputs.Next();
      var cur := inputs.Pop();
      assert front == cur;
      if a.fetchOk {
        failureCount := 0;
        if a.writeOk {
          wrote := [cur.value];
        } else {
          failed.Push(cur.value);
        }
      } else {
        failureCount := failureCount + 1;
        failed.Push(cur.value);
        if !inputs.IsEmpty() {
          var delay, _ := Geometric(failureCount, baseBackoff, maxBackoff);
          if 0 < delay {
            paused := [delay as int];
          }
        }
      }
    }

    /** Whatever was not reached joins the failed queue; the rest counts as success. */
    method HandleFailed() returns (success: int)
      requires inputs != failed
      modifies inputs, failed
      ensures inputs.items == [] && failed.items == old(failed.items) + old(inputs.items)
      ensures success == total - |failed.items|
    {
      ghost var (before, rest) := (failed.items, inputs.items);
      while !inputs.IsEmpty()
        invariant failed.items + inputs.items == before + rest
        decreases |inputs.items|
      {
        var item := inputs.Pop();
        failed.Push(item.value);
      }
      success := total - |failed.items|;
    }
  }

  /** Nothing after the last reached item succeeded. */
  lemma {:induction false} DrainedComplementTo(env: nat -> Attempt, all: seq<Inputs>, reached: nat, total: nat, n: nat)
    requires reached <= n <= total == |all|
    ensures var f := Successes(env, reached, total);
      && Select(all, f, n) == Select(all, f, reached)
      && Select(all, Complement(f), n) == Select(all, Complement(f), reached) + all[reached..n]
    decreases n
  {
    if reached < n {
      DrainedComplementTo(env, all, reached, total, n - 1);
      assert all[reached..n] == all[reached..n - 1] + [all[n - 1]];
    }
  }

  lemma DrainedComplement(env: nat -> Attempt, all: seq<Inputs>, reached: nat, total: nat)
    requires reached <= total == |all|
    ensures var f := Successes(env, reached, total);
      && Selected(all, f) == Select(all, f, reached)
      && Selected(all, Complement(f)) == Select(all, Complement(f), reached) + all[reached..]
  {
    DrainedComplementTo(env, all, reached, total, total);
    assert all[reached..total] == all[reached..];
  }

  lemma NothingReached(env: nat -> Attempt, all: seq<Inputs>, total: nat)
    requires total == |all|
    ensures Select(all, Successes(env, 0, total), 0) == Select(all, Complement(Successes(env, 0, total)), 0) == []
  {
  }

  lemma OneMoreReached(env: nat -> Attempt, all: seq<Inputs>, k: nat, total: nat)
    requires k < total == |all|
    ensures var (f, g) := (Successes(env, k, total), Successes(env, k + 1, total));
      && Select(all, g, k + 1) == Select(all, f, k) + (if env(k).fetchOk && env(k).writeOk then [all[k]] else [])
      && Select(all, Complement(g), k + 1)
      == Select(all, Complement(f), k) + (if env(k).fetchOk && env(k).writeOk then [] else [all[k]])
  {
    var (f, g) := (Successes(env, k, total), Successes(env, k + 1, total));
    SelectAgree(all, f, g, k);
    SelectAgree(all, Complement(f), Complement(g), k);
  }

  /** Only the flags below n matter. */
  lemma {:induction false} SelectAgree<T>(s: seq<T>, f: seq<bool>, g: seq<bool>, n: nat)
    requires |s| == |f| == |g| && n <= |s|
    requires forall k :: 0 <= k < n ==> f[k] == g[k]
    ensures Select(s, f, n) == Select(s, g, n)
  {
    if 0 < n {
      SelectAgree(s, f, g, n - 1);
    }
  }

  lemma {:induction false} SplitCount<T>(s: seq<T>, f: seq<bool>, n: nat)
    requires |s| == |f| && n <= |s|
    ensures |Select(s, f, n)| + |Select(s, Complement(f), n)| == n
  {
    if 0 < n {
      SplitCount(s, f, n - 1);
    }
  }

  lemma AddOne<T>(a: seq<T>, b: seq<T>, c: seq<T>, x: T, a': seq<T>, b': seq<T>)
    requires multiset(a) + multiset(b) == multiset(c)
    requires (a' == a + [x] && b' == b) || (a' == a && b' == b + [x])
    ensures multiset(a') + multiset(b') == multiset(c + [x])
  {
  }

  lemma SelectSplits<T>(s: seq<T>, f: seq<bool>, n: nat)
    requires |s| == |f| && n <= |s|
    ensures n == 0 ==> Select(s, f, n) == Select(s, Complement(f), n) == []
    ensures 0 < n ==> Select(s, f, n) == Select(s, f, n - 1) + if f[n - 1] then [s[n - 1]] else []
    ensures 0 < n ==> Select(s, Complement(f), n) == Select(s, Complement(f), n - 1) + if f[n - 1] then [] else [s[n - 1]]
  {
  }

  /** The written items and the failed ones partition the inputs. */
  lemma {:induction false} WrittenAndFailedPartition<T>(s: seq<T>, f: seq<bool>, n: nat)
    requires |s| == |f| && n <= |s|
    ensures multiset(Select(s, f, n)) + multiset(Select(s, Complement(f), n)) == multiset(s[..n])
  {
    hide Select, Complement;
    SelectSplits(s, f, n);
    if 0 < n {
      WrittenAndFailedPartition(s, f, n - 1);
      assert s[..n] == s[..n - 1] + [s[n - 1]];
      AddOne(Select(s, f, n - 1), Select(s, Complement(f), n - 1), s[..n - 1], s[n - 1],
             Select(s, f, n), Select(s, Complement(f), n));
    }
  }

  lemma SplitsAll<T>(s: seq<T>, f: seq<bool>)
    requires |s| == |f|
    ensures |Selected(s, f)| + |Selected(s, Complement(f))| == |s|
    ensures multiset(Selected(s, f)) + multiset(Selected(s, Complement(f))) == multiset(s)
  {
    SplitCount(s, f, |s|);
    WrittenAndFailedPartition(s, f, |s|);
    assert s[..|s|] == s;
  }

  /** The current run of failures is the number of items since the last successful fetch. */
  lemma {:induction false} FailRunCounts(env: nat -> Attempt, k: nat)
    ensures FailRun(env, k) <= k + 1
    ensures forall i: nat :: k < i + FailRun(env, k) && i <= k ==> !env(i).fetchOk
    ensures FailRun(env, k) <= k ==> env(k - FailRun(env, k)).fetchOk
  {
    if !env(k).fetchOk && 0 < k {
      FailRunCounts(env, k - 1);
    }
  }

  /** Every pause is between the smaller of base and cap, and the cap, and during a run of failed
      fetches the pauses never get shorter. */
  lemma PausesGrowWithinARun(env: nat -> Attempt, base: int, max: int, k: nat)
    requires 0 < base && 0 < max && 0 < k && !env(k).fetchOk
    ensures Min(base, max) <= Wait(FailRun(env, k), base, max) <= max
    ensures Wait(FailRun(env, k - 1), base, max) <= Wait(FailRun(env, k), base, max)
  {
    WaitBounds(FailRun(env, k), base, max);
    WaitMonotone(FailRun(env, k - 1), FailRun(env, k), base, max);
  }
}
