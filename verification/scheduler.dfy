/**
 * The merge scheduler of PmSort: rounds of pairwise merges over the list of
 * sorted temporary files until two remain, and the final two-way merge that
 * streams into the target through the reduction operator and outRec.
 */
module Scheduling {
  import opened Wrappers
  import opened Ordering
  import opened Seqs
  import opened Merging
  import opened Accumulators

  /**
   * One round of merge() with three or more files: the queue is drained two
   * files at a time, each pair is merged into a new temporary file, and a file
   * left without a partner is carried over unchanged.
   */
  function Round(cmp: Comparator, files: seq<seq<Record>>): (r: seq<seq<Record>>)
    ensures |r| == (|files| + 1) / 2
    ensures |files| >= 3 ==> 2 <= |r| < |files|
    decreases |files|
  {
    if |files| <= 1 then files
    else [Merge(cmp, files[0], files[1])] + Round(cmp, files[2..])
  }

  /** Round pairs file 2i with file 2i + 1, in queue order, and passes an odd trailing file through. */
  lemma {:induction false} RoundPairs(cmp: Comparator, files: seq<seq<Record>>)
    ensures forall i :: 0 <= i < |files| / 2 ==> Round(cmp, files)[i] == Merge(cmp, files[2 * i], files[2 * i + 1])
    ensures |files| % 2 == 1 ==> Last(Round(cmp, files)) == Last(files)
    decreases |files|
  {
    if |files| >= 2 {
      var rest := files[2..];
      RoundPairs(cmp, rest);
      var r := Round(cmp, files);
      assert r == [Merge(cmp, files[0], files[1])] + Round(cmp, rest);
      forall i | 0 <= i < |files| / 2
        ensures r[i] == Merge(cmp, files[2 * i], files[2 * i + 1])
      {
        if i > 0 {
          assert r[i] == Round(cmp, rest)[i - 1];
          assert rest[2 * (i - 1)] == files[2 * i];
          assert rest[2 * (i - 1) + 1] == files[2 * i + 1];
        }
      }
      if |files| % 2 == 1 {
        assert Last(rest) == Last(files);
      }
    }
  }

  /** Every temporary file is sorted. */
  ghost predicate AllSorted(cmp: Comparator, files: seq<seq<Record>>)
  {
    forall i :: 0 <= i < |files| ==> Sorted(cmp, files[i])
  }

  /** a and b hold the same records of every class, in the same order within each class. */
  ghost predicate SameClasses(cmp: Comparator, a: seq<Record>, b: seq<Record>)
  {
    forall k :: Class(cmp, k, a) == Class(cmp, k, b)
  }

  /** The stable sort of a stream depends only on the order of its records within each class. */
  lemma {:induction false} SortByClasses(cmp: Comparator, a: seq<Record>, b: seq<Record>)
    requires ValidComparator(cmp) && SameClasses(cmp, a, b)
    ensures Sort(cmp, a) == Sort(cmp, b)
  {
    SortIsStable(cmp, a);
    SortIsStable(cmp, b);
    StableSortUnique(cmp, Sort(cmp, a), Sort(cmp, b));
  }

  /** A round keeps every file sorted, and keeps every class of the concatenated files in order. */
  lemma {:induction false} RoundKeepsOrder(cmp: Comparator, files: seq<seq<Record>>)
    requires ValidComparator(cmp) && AllSorted(cmp, files)
    ensures AllSorted(cmp, Round(cmp, files))
    ensures SameClasses(cmp, Flatten(Round(cmp, files)), Flatten(files))
    decreases |files|
  {
    if |files| >= 2 {
      var rest := files[2..];
      assert AllSorted(cmp, rest) by {
        forall i | 0 <= i < |rest| ensures Sorted(cmp, rest[i]) {
          assert rest[i] == files[i + 2];
        }
      }
      RoundKeepsOrder(cmp, rest);
      var m := Merge(cmp, files[0], files[1]);
      var r := Round(cmp, files);
      assert r == [m] + Round(cmp, rest);
      assert Sorted(cmp, files[0]) && Sorted(cmp, files[1]);
      MergeSorted(cmp, files[0], files[1]);
      assert AllSorted(cmp, r) by {
        forall i | 0 <= i < |r| ensures Sorted(cmp, r[i]) {
          if i > 0 {
            assert r[i] == Round(cmp, rest)[i - 1];
          }
        }
      }
      assert Flatten(r) == m + Flatten(Round(cmp, rest));
      assert files[1..][1..] == rest;
      assert Flatten(files) == files[0] + (files[1] + Flatten(rest));
      forall k ensures Class(cmp, k, Flatten(r)) == Class(cmp, k, Flatten(files)) {
        MergeStable(cmp, k, files[0], files[1]);
        ClassAppend(cmp, k, m, Flatten(Round(cmp, rest)));
        ClassAppend(cmp, k, files[1], Flatten(rest));
        ClassAppend(cmp, k, files[0], files[1] + Flatten(rest));
      }
    }
  }

  /** The final merge of two sorted files is the stable sort of their concatenation. */
  lemma {:induction false} MergeOfTwoIsSort(cmp: Comparator, files: seq<seq<Record>>)
    requires ValidComparator(cmp) && AllSorted(cmp, files) && |files| == 2
    ensures Merge(cmp, files[0], files[1]) == Sort(cmp, Flatten(files))
  {
    var m := Merge(cmp, files[0], files[1]);
    assert Sorted(cmp, files[0]) && Sorted(cmp, files[1]);
    MergeSorted(cmp, files[0], files[1]);
    assert files[1..][1..] == [];
    assert Flatten(files[1..]) == files[1] + Flatten(files[1..][1..]);
    assert Flatten(files) == files[0] + files[1];
    forall k ensures Class(cmp, k, m) == Class(cmp, k, Flatten(files)) {
      MergeStable(cmp, k, files[0], files[1]);
      ClassAppend(cmp, k, files[0], files[1]);
    }
    StableSortIsSort(cmp, m, Flatten(files));
  }

  /** One round of merge(): the queue of files is polled two at a time and each pair merged by a MergeTask. */
  method RunRound(cmp: Comparator, files: seq<seq<Record>>) returns (next: seq<seq<Record>>)
    ensures next == Round(cmp, files)
  {
    var q := 0;
    next := [];
    assert files[q..] == files;
    while q < |files|
      invariant 0 <= q <= |files|
      invariant next + Round(cmp, files[q..]) == Round(cmp, files)
    {
      if q + 1 == |files| {
        assert Round(cmp, files[q..]) == [files[q]];
        next := next + [files[q]];
        q := q + 1;
      } else {
        var cx := PerformMerge(cmp, files[q], files[q + 1]);
        assert files[q..][2..] == files[q + 2..];
        assert Round(cmp, files[q..]) == [cx] + Round(cmp, files[q + 2..]);
        assert next + Round(cmp, files[q..]) == (next + [cx]) + Round(cmp, files[q + 2..]);
        next := next + [cx];
        q := q + 2;
      }
    }
  }

  /**
   * merge(): with exactly two files the final merge writes the target; with
   * more, one round runs and merge() is called again on its output. Whatever
   * the number of sorted temporary files, the target receives the reduced and
   * edited stable sort of their concatenation. `passes` counts the calls of
   * merge(), the final one included. The next call reads the round's output
   * only once the round has ended: the wait Barrier.MainPartyWaitsForAll
   * establishes and Barrier.AsWrittenReleasesEarly shows the code can miss.
   */
  method MergeFiles<S>(cmp: Comparator, post: PostSort<S>, files: seq<seq<Record>>)
    returns (target: seq<Record>, passes: nat)
    requires ValidComparator(cmp) && AllSorted(cmp, files) && |files| >= 2
    ensures target == Emit(post, Sort(cmp, Flatten(files)))
    ensures passes == Passes(|files|)
    decreases |files|
  {
    if |files| == 2 {
      target := FinalMerge(cmp, post, files[0], files[1]);
      MergeOfTwoIsSort(cmp, files);
      passes := 1;
    } else {
      var next := RunRound(cmp, files);
      RoundKeepsOrder(cmp, files);
      var more;
      target, more := MergeFiles(cmp, post, next);
      SortByClasses(cmp, Flatten(next), Flatten(files));
      passes := more + 1;
    }
  }

  /**
   * The number of times merge() runs on n >= 2 files: once with two files,
   * otherwise once for the round plus the runs on the ceil(n/2) files it leaves.
   */
  function Passes(n: nat): (p: nat)
    requires n >= 2
    decreases n
  {
    if n == 2 then 1 else 1 + Passes((n + 1) / 2)
  }

  function Pow2(e: nat): (r: nat)
    ensures r >= 1
  {
    if e == 0 then 1 else 2 * Pow2(e - 1)
  }

  /** merge() runs ceil(log2 n) times: 2^(p-1) < n <= 2^p for p passes. */
  lemma {:induction false} PassesIsLog(n: nat)
    requires n >= 2
    ensures Pow2(Passes(n) - 1) < n <= Pow2(Passes(n))
    decreases n
  {
    if n > 2 {
      PassesIsLog((n + 1) / 2);
    }
  }

  /** What FinalMergeTask has written after `merged` went through writeLn, together with the operator's state. */
  ghost predicate Written<S>(post: PostSort<S>, st: Option<S>, merged: seq<Record>, wrt: seq<Record>)
  {
    if post.reorg.None? then st.None? && wrt == Map(line => OutRec(post, line), merged)
    else
      var (s, out) := Feed(post.reorg.value, merged);
      st == Some(s) && wrt == Map(line => OutRec(post, line), out)
  }

  /** FinalMergeTask.writeLn: reduce the line if an operator is set, then edit and write what comes out. */
  method WriteLn<S>(post: PostSort<S>, st: Option<S>, ghost merged: seq<Record>, wrt: seq<Record>, line: Record)
    returns (st': Option<S>, wrt': seq<Record>)
    requires Written(post, st, merged, wrt)
    ensures Written(post, st', merged + [line], wrt')
  {
    if post.reorg.None? {
      MapAppend(l => OutRec(post, l), merged, [line]);
      st', wrt' := None, wrt + [OutRec(post, line)];
    } else {
      var acc := post.reorg.value;
      ghost var out := Feed(acc, merged).1;
      FeedSnoc(acc, acc.init, merged, line);
      var (s, stuff) := acc.reduce(st.value, line);
      st' := Some(s);
      MapAppend(l => OutRec(post, l), out, stuff.ToSeq());
      if stuff.Some? {
        wrt' := wrt + [OutRec(post, stuff.value)];
      } else {
        assert out + stuff.ToSeq() == out;
        wrt' := wrt;
      }
    }
  }

  /** The next line the merge loop writes, and the read positions after it. */
  method TakeNext(cmp: Comparator, src1: seq<Record>, src2: seq<Record>, i: nat, j: nat)
    returns (line: Record, i': nat, j': nat)
    requires i <= |src1| && j <= |src2| && (i < |src1| || j < |src2|)
    ensures i' <= |src1| && j' <= |src2| && i' + j' == i + j + 1
    ensures Merge(cmp, src1[i..], src2[j..]) == [line] + Merge(cmp, src1[i'..], src2[j'..])
  {
    if i == |src1| || (j < |src2| && cmp(src1[i], src2[j]) > 0) {
      MergeTakesSecond(cmp, src1[i..], src2[j..]);
      assert src2[j..][1..] == src2[j + 1..];
      line, i', j' := src2[j], i, j + 1;
    } else {
      MergeTakesFirst(cmp, src1[i..], src2[j..]);
      assert src1[i..][1..] == src1[i + 1..];
      line, i', j' := src1[i], i + 1, j;
    }
  }

  /** FinalMergeTask.flush: the operator's last record, edited, after everything merged was written. */
  method FlushTail<S>(post: PostSort<S>, st: Option<S>, ghost merged: seq<Record>, wrt: seq<Record>)
    returns (wrt': seq<Record>)
    requires Written(post, st, merged, wrt)
    ensures wrt' == Emit(post, merged)
  {
    wrt' := wrt;
    if post.reorg.Some? {
      var acc := post.reorg.value;
      var stuff := acc.flush(st.value);
      MapAppend(l => OutRec(post, l), Feed(acc, merged).1, stuff.ToSeq());
      if stuff.Some? {
        wrt' := wrt + [OutRec(post, stuff.value)];
      } else {
        assert Feed(acc, merged).1 + stuff.ToSeq() == Feed(acc, merged).1;
      }
    }
  }

  /**
   * FinalMergeTask: the left-biased merge of the last two files, every line
   * written through writeLn and the operator flushed once at the end.
   */
  method FinalMerge<S>(cmp: Comparator, post: PostSort<S>, src1: seq<Record>, src2: seq<Record>) returns (wrt: seq<Record>)
    ensures wrt == Emit(post, Merge(cmp, src1, src2))
  {
    var i: nat, j: nat := 0, 0;
    wrt := [];
    var st: Option<S> := if post.reorg.Some? then Some(post.reorg.value.init) else None;
    ghost var merged: seq<Record> := [];
    assert src1[i..] == src1 && src2[j..] == src2;
    while i < |src1| || j < |src2|
      invariant i <= |src1| && j <= |src2|
      invariant merged + Merge(cmp, src1[i..], src2[j..]) == Merge(cmp, src1, src2)
      invariant Written(post, st, merged, wrt)
      decreases |src1| - i + |src2| - j
    {
      var line;
      ghost var rest := Merge(cmp, src1[i..], src2[j..]);
      line, i, j := TakeNext(cmp, src1, src2, i, j);
      assert merged + rest == (merged + [line]) + Merge(cmp, src1[i..], src2[j..]);
      st, wrt := WriteLn(post, st, merged, wrt, line);
      merged := merged + [line];
    }
    assert merged == Merge(cmp, src1, src2);
    wrt := FlushTail(post, st, merged, wrt);
  }
}
