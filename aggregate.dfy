/**
 * The run-level arithmetic shared by both entry points: the running total of
 * errors, the number of files that added to it, and the choice between the
 * failure and the success summary.
 */
module Aggregate {
  import opened Events

  /** Sum of the per-file error counts, folded from the front as the loops do. */
  function Sum(counts: seq<nat>): nat {
    if counts == [] then 0 else Sum(counts[..|counts| - 1]) + counts[|counts| - 1]
  }

  /** Number of files whose own count is positive. */
  function Positives(counts: seq<nat>): (r: nat)
    ensures r <= |counts|
  {
    if counts == [] then 0
    else Positives(counts[..|counts| - 1]) + (if counts[|counts| - 1] > 0 then 1 else 0)
  }

  /**
   * Both entry points print the failure summary when the error total and the
   * number of failing files are both non-zero, and the success line otherwise;
   * either way the number of files checked is the number of modules.
   */
  function Decide(total: int, files: int, checked: int): (v: Verdict)
    ensures v.checked == checked
    ensures v.Failed? <==> total != 0 && files != 0
    ensures v.Failed? ==> v.errorCount == total && v.errorFiles == files
  {
    if total != 0 && files != 0 then Failed(total, files, checked) else Passed(checked)
  }

  /** Adding one more file adds its count to the total and, when positive, one failing file. */
  lemma Step(counts: seq<nat>, c: nat)
    ensures Sum(counts + [c]) == Sum(counts) + c
    ensures Positives(counts + [c]) == Positives(counts) + (if c > 0 then 1 else 0)
  {
    assert (counts + [c])[..|counts|] == counts;
  }

  /** A file counts as failing exactly when it adds to the total, so there are at most as many failing files as errors. */
  lemma {:induction false} PositivesAtMostSum(counts: seq<nat>)
    ensures Positives(counts) <= Sum(counts)
  {
    if counts != [] {
      PositivesAtMostSum(counts[..|counts| - 1]);
    }
  }

  /** No failing file exactly when no error at all. */
  lemma {:induction false} PositivesZeroIff(counts: seq<nat>)
    ensures Positives(counts) == 0 <==> Sum(counts) == 0
  {
    if counts != [] {
      PositivesZeroIff(counts[..|counts| - 1]);
    }
  }

  /** With non-negative counts the two-part guard reduces to "some error was found". */
  lemma FailsIffErrors(counts: seq<nat>, checked: int)
    ensures Decide(Sum(counts), Positives(counts), checked).Failed? <==> Sum(counts) != 0
  {
    PositivesZeroIff(counts);
  }

  // ---------------------------------------------------------------------------
  // Independence from the order in which the files are checked

  /** The per-file counts of a list of files, file by file. */
  function CountsOf<T>(xs: seq<T>, count: T -> nat): (r: seq<nat>)
    ensures |r| == |xs|
  {
    if xs == [] then [] else CountsOf(xs[..|xs| - 1], count) + [count(xs[|xs| - 1])]
  }

  lemma {:induction false} CountsOfAppend<T>(a: seq<T>, b: seq<T>, count: T -> nat)
    ensures CountsOf(a + b, count) == CountsOf(a, count) + CountsOf(b, count)
  {
    if b == [] {
      assert a + b == a;
    } else {
      var init := b[..|b| - 1];
      assert (a + b)[..|a + b| - 1] == a + init;
      assert (a + b)[|a + b| - 1] == b[|b| - 1];
      CountsOfAppend(a, init, count);
    }
  }

  /** The total and the failing files of two lists of files are added up. */
  lemma {:induction false} SumAppend(a: seq<nat>, b: seq<nat>)
    ensures Sum(a + b) == Sum(a) + Sum(b)
    ensures Positives(a + b) == Positives(a) + Positives(b)
  {
    if b == [] {
      assert a + b == a;
    } else {
      var init := b[..|b| - 1];
      assert (a + b)[..|a + b| - 1] == a + init;
      assert (a + b)[|a + b| - 1] == b[|b| - 1];
      SumAppend(a, init);
    }
  }

  /** Where the last element of one list sits in a reordering of it, and what is left on both sides. */
  lemma PermSplit<T>(xs: seq<T>, ys: seq<T>) returns (k: nat)
    requires xs != [] && multiset(xs) == multiset(ys)
    ensures k < |ys| && ys[k] == xs[|xs| - 1]
    ensures ys == ys[..k] + [ys[k]] + ys[k + 1..]
    ensures multiset(xs[..|xs| - 1]) == multiset(ys[..k] + ys[k + 1..])
  {
    var x, init := xs[|xs| - 1], xs[..|xs| - 1];
    assert xs == init + [x];
    assert x in multiset(ys);
    k :| 0 <= k < |ys| && ys[k] == x;
    var front, back := ys[..k], ys[k + 1..];
    assert ys == front + [x] + back;
    assert multiset(xs) == multiset(init) + multiset{x};
    assert multiset(ys) == multiset(front) + multiset{x} + multiset(back);
    assert multiset(front + back) == multiset(front) + multiset(back);
    assert multiset(init) == multiset(xs) - multiset{x} == multiset(ys) - multiset{x};
  }

  /** Reordering the counts changes neither the total nor the number of failing files. */
  lemma {:induction false} SumPerm(a: seq<nat>, b: seq<nat>)
    requires multiset(a) == multiset(b)
    ensures Sum(a) == Sum(b) && Positives(a) == Positives(b)
  {
    if a == [] {
      assert |multiset(b)| == 0;
    } else {
      var k := PermSplit(a, b);
      var x, init := a[|a| - 1], a[..|a| - 1];
      var front, back := b[..k], b[k + 1..];
      SumPerm(init, front + back);
      assert a == init + [x];
      SumAppend(init, [x]);
      SumAppend(front + [x], back);
      SumAppend(front, [x]);
      SumAppend(front, back);
    }
  }

  /** Reordering the files reorders their counts. */
  lemma {:induction false} CountsOfPerm<T>(xs: seq<T>, ys: seq<T>, count: T -> nat)
    requires multiset(xs) == multiset(ys)
    ensures multiset(CountsOf(xs, count)) == multiset(CountsOf(ys, count))
  {
    if xs == [] {
      assert |multiset(ys)| == 0;
    } else {
      var k := PermSplit(xs, ys);
      var x, init := xs[|xs| - 1], xs[..|xs| - 1];
      var front, back := ys[..k], ys[k + 1..];
      CountsOfPerm(init, front + back, count);
      CountsOfAppend(front + [x], back, count);
      CountsOfAppend(front, [x], count);
      CountsOfAppend(front, back, count);
      var cf, cb, cx := CountsOf(front, count), CountsOf(back, count), CountsOf([x], count);
      assert cx == [count(x)] by {
        assert [x][..0] == [];
      }
      assert CountsOf(xs, count) == CountsOf(init, count) + cx;
      assert multiset(CountsOf(init, count)) == multiset(cf) + multiset(cb);
      assert multiset(CountsOf(ys, count)) == multiset(cf) + multiset(cx) + multiset(cb);
    }
  }

  /**
   * The error total, the failing files and the verdict do not depend on the
   * order in which the files are checked.
   */
  lemma VerdictOrderIndependent<T>(xs: seq<T>, ys: seq<T>, count: T -> nat)
    requires multiset(xs) == multiset(ys)
    ensures Sum(CountsOf(xs, count)) == Sum(CountsOf(ys, count))
    ensures Positives(CountsOf(xs, count)) == Positives(CountsOf(ys, count))
    ensures Decide(Sum(CountsOf(xs, count)), Positives(CountsOf(xs, count)), |xs|)
         == Decide(Sum(CountsOf(ys, count)), Positives(CountsOf(ys, count)), |ys|)
  {
    CountsOfPerm(xs, ys, count);
    SumPerm(CountsOf(xs, count), CountsOf(ys, count));
    assert |xs| == |multiset(xs)| == |multiset(ys)| == |ys|;
  }
}
