/**
 * The two-way merge of MergeTask.performMerge, the stable in-memory sort the
 * splitter relies on (Collections.sort), and the fact that ties them
 * together: a sorted sequence whose equal-key records keep a given order is
 * unique.
 */
module Merging {
  import opened Ordering
  import Seqs

  /**
   * Left-biased merge: on a tie (compare <= 0) the record of `a` goes first;
   * once one side is exhausted the other is drained in order.
   */
  function Merge(cmp: Comparator, a: seq<Record>, b: seq<Record>): (r: seq<Record>)
    ensures |r| == |a| + |b|
    decreases |a| + |b|
  {
    if a == [] then b
    else if b == [] then a
    else if cmp(a[0], b[0]) <= 0 then [a[0]] + Merge(cmp, a[1..], b)
    else [b[0]] + Merge(cmp, a, b[1..])
  }

  /** The merged file holds exactly the records of both inputs. */
  lemma {:induction false} MergePermutes(cmp: Comparator, a: seq<Record>, b: seq<Record>)
    ensures multiset(Merge(cmp, a, b)) == multiset(a) + multiset(b)
    decreases |a| + |b|
  {
    if a != [] && b != [] {
      if cmp(a[0], b[0]) <= 0 {
        assert a == [a[0]] + a[1..];
        assert multiset(a) == multiset([a[0]]) + multiset(a[1..]);
        MergeTakesFirst(cmp, a, b);
        MergePermutes(cmp, a[1..], b);
      } else {
        assert b == [b[0]] + b[1..];
        assert multiset(b) == multiset([b[0]]) + multiset(b[1..]);
        MergeTakesSecond(cmp, a, b);
        MergePermutes(cmp, a, b[1..]);
      }
    }
  }

  /** A record taken from the first input: it is non-empty and wins the comparison or the second is drained. */
  lemma {:induction false} MergeTakesFirst(cmp: Comparator, a: seq<Record>, b: seq<Record>)
    requires a != [] && (b == [] || cmp(a[0], b[0]) <= 0)
    ensures Merge(cmp, a, b) == [a[0]] + Merge(cmp, a[1..], b)
  {
    if b == [] {
      assert a == [a[0]] + a[1..];
    }
  }

  lemma {:induction false} MergeTakesSecond(cmp: Comparator, a: seq<Record>, b: seq<Record>)
    requires b != [] && (a == [] || cmp(a[0], b[0]) > 0)
    ensures Merge(cmp, a, b) == [b[0]] + Merge(cmp, a, b[1..])
  {
    if a == [] {
      assert b == [b[0]] + b[1..];
    }
  }

  /** The loop of performMerge over two open files, one current line each. */
  method PerformMerge(cmp: Comparator, src1: seq<Record>, src2: seq<Record>) returns (dest: seq<Record>)
    ensures dest == Merge(cmp, src1, src2)
  {
    var i, j := 0, 0;
    dest := [];
    assert src1[i..] == src1 && src2[j..] == src2;
    while i < |src1| || j < |src2|
      invariant 0 <= i <= |src1| && 0 <= j <= |src2|
      invariant dest + Merge(cmp, src1[i..], src2[j..]) == Merge(cmp, src1, src2)
      decreases |src1| - i + |src2| - j
    {
      ghost var rest := Merge(cmp, src1[i..], src2[j..]);
      if i == |src1| || (j < |src2| && cmp(src1[i], src2[j]) > 0) {
        MergeTakesSecond(cmp, src1[i..], src2[j..]);
        assert src2[j..][1..] == src2[j + 1..];
        assert rest == [src2[j]] + Merge(cmp, src1[i..], src2[j + 1..]);
        assert dest + rest == (dest + [src2[j]]) + Merge(cmp, src1[i..], src2[j + 1..]);
        dest := dest + [src2[j]];
        j := j + 1;
      } else {
        MergeTakesFirst(cmp, src1[i..], src2[j..]);
        assert src1[i..][1..] == src1[i + 1..];
        assert rest == [src1[i]] + Merge(cmp, src1[i + 1..], src2[j..]);
        assert dest + rest == (dest + [src1[i]]) + Merge(cmp, src1[i + 1..], src2[j..]);
        dest := dest + [src1[i]];
        i := i + 1;
      }
    }
  }

  lemma {:induction false} SortedCons(cmp: Comparator, x: Record, s: seq<Record>)
    requires Sorted(cmp, s)
    requires forall y :: y in s ==> cmp(x, y) <= 0
    ensures Sorted(cmp, [x] + s)
  {
    var t := [x] + s;
    forall i, j | 0 <= i < j < |t| ensures cmp(t[i], t[j]) <= 0 {
      if i == 0 {
        assert t[j] == s[j - 1];
        assert s[j - 1] in s;
      } else {
        assert t[i] == s[i - 1] && t[j] == s[j - 1];
      }
    }
  }

  /** Every record of a sorted sequence compares at least its head. */
  lemma {:induction false} SortedHeadLowest(cmp: Comparator, s: seq<Record>, y: Record)
    requires ValidComparator(cmp) && Sorted(cmp, s) && y in s
    ensures cmp(s[0], y) <= 0
  {
    var j :| 0 <= j < |s| && s[j] == y;
    if j == 0 {
      assert Sign(cmp(y, y)) == -Sign(cmp(y, y));
    }
  }

  /** Merging two sorted files gives a sorted file. */
  lemma {:induction false} MergeSorted(cmp: Comparator, a: seq<Record>, b: seq<Record>)
    requires ValidComparator(cmp) && Sorted(cmp, a) && Sorted(cmp, b)
    ensures Sorted(cmp, Merge(cmp, a, b))
    decreases |a| + |b|
  {
    if a != [] && b != [] {
      if cmp(a[0], b[0]) <= 0 {
        var rest := Merge(cmp, a[1..], b);
        MergeSorted(cmp, a[1..], b);
        MergePermutes(cmp, a[1..], b);
        forall y | y in rest ensures cmp(a[0], y) <= 0 {
          assert y in multiset(rest);
          if y in a[1..] {
            SortedHeadLowest(cmp, a, y);
          } else {
            assert y in multiset(b);
            SortedHeadLowest(cmp, b, y);
            LeTrans(cmp, a[0], b[0], y);
          }
        }
        SortedCons(cmp, a[0], rest);
      } else {
        var rest := Merge(cmp, a, b[1..]);
        MergeSorted(cmp, a, b[1..]);
        MergePermutes(cmp, a, b[1..]);
        assert cmp(b[0], a[0]) < 0;
        forall y | y in rest ensures cmp(b[0], y) <= 0 {
          assert y in multiset(rest);
          if y in b[1..] {
            SortedHeadLowest(cmp, b, y);
          } else {
            assert y in multiset(a);
            SortedHeadLowest(cmp, a, y);
            LeTrans(cmp, b[0], a[0], y);
          }
        }
        SortedCons(cmp, b[0], rest);
      }
    }
  }

  /**
   * Stability of the merge: among records equal to any key k, those from `a`
   * come out before those from `b`, each side in its own order.
   */
  lemma {:induction false} MergeStable(cmp: Comparator, k: Record, a: seq<Record>, b: seq<Record>)
    requires ValidComparator(cmp) && Sorted(cmp, a) && Sorted(cmp, b)
    ensures Class(cmp, k, Merge(cmp, a, b)) == Class(cmp, k, a) + Class(cmp, k, b)
    decreases |a| + |b|
  {
    if a != [] && b != [] {
      if cmp(a[0], b[0]) <= 0 {
        MergeStable(cmp, k, a[1..], b);
        MergeStableFirstStep(cmp, k, a, b);
      } else {
        MergeStable(cmp, k, a, b[1..]);
        if cmp(b[0], k) == 0 {
          AboveHeadOutsideClass(cmp, a, b[0], k);
        }
        MergeStableSecondStep(cmp, k, a, b);
      }
    }
  }

  lemma {:induction false} MergeStableFirstStep(cmp: Comparator, k: Record, a: seq<Record>, b: seq<Record>)
    requires a != [] && b != [] && cmp(a[0], b[0]) <= 0
    requires Class(cmp, k, Merge(cmp, a[1..], b)) == Class(cmp, k, a[1..]) + Class(cmp, k, b)
    ensures Class(cmp, k, Merge(cmp, a, b)) == Class(cmp, k, a) + Class(cmp, k, b)
  {
    var h := if cmp(a[0], k) == 0 then [a[0]] else [];
    MergeTakesFirst(cmp, a, b);
    ClassCons(cmp, k, a[0], Merge(cmp, a[1..], b));
    ClassHead(cmp, k, a);
    Seqs.Associative(h, Class(cmp, k, a[1..]), Class(cmp, k, b));
  }

  lemma {:induction false} MergeStableSecondStep(cmp: Comparator, k: Record, a: seq<Record>, b: seq<Record>)
    requires a != [] && b != [] && cmp(a[0], b[0]) > 0
    requires cmp(b[0], k) == 0 ==> Class(cmp, k, a) == []
    requires Class(cmp, k, Merge(cmp, a, b[1..])) == Class(cmp, k, a) + Class(cmp, k, b[1..])
    ensures Class(cmp, k, Merge(cmp, a, b)) == Class(cmp, k, a) + Class(cmp, k, b)
  {
    var h := if cmp(b[0], k) == 0 then [b[0]] else [];
    MergeTakesSecond(cmp, a, b);
    ClassCons(cmp, k, b[0], Merge(cmp, a, b[1..]));
    ClassHead(cmp, k, b);
    Seqs.Associative(h, Class(cmp, k, a), Class(cmp, k, b[1..]));
    Seqs.Associative(Class(cmp, k, a), h, Class(cmp, k, b[1..]));
  }

  /** When a sorted file starts strictly above a record equal to k, none of it is equal to k. */
  lemma {:induction false} AboveHeadOutsideClass(cmp: Comparator, a: seq<Record>, y: Record, k: Record)
    requires ValidComparator(cmp) && Sorted(cmp, a) && a != []
    requires cmp(a[0], y) > 0 && cmp(y, k) == 0
    ensures Class(cmp, k, a) == []
  {
    forall i | 0 <= i < |a| ensures cmp(a[i], k) != 0 {
      SortedHeadLowest(cmp, a, a[i]);
      if cmp(a[i], k) == 0 {
        EquivTrans(cmp, a[i], k, y);
        LeTrans(cmp, a[0], a[i], y);
      }
    }
    ClassEmpty(cmp, k, a);
  }

  /** The in-memory sort of a batch: insertion of each record ahead of its equals. */
  function Sort(cmp: Comparator, xs: seq<Record>): (r: seq<Record>)
    ensures |r| == |xs|
    ensures multiset(r) == multiset(xs)
  {
    if xs == [] then []
    else
      assert xs == [xs[0]] + xs[1..];
      MergePermutes(cmp, [xs[0]], Sort(cmp, xs[1..]));
      Merge(cmp, [xs[0]], Sort(cmp, xs[1..]))
  }

  /** `out` orders `xs` and keeps the source order among equal records. */
  ghost predicate IsStableSortOf(cmp: Comparator, out: seq<Record>, xs: seq<Record>)
  {
    && Sorted(cmp, out)
    && forall k :: Class(cmp, k, out) == Class(cmp, k, xs)
  }

  lemma {:induction false} SortIsStable(cmp: Comparator, xs: seq<Record>)
    requires ValidComparator(cmp)
    ensures IsStableSortOf(cmp, Sort(cmp, xs), xs)
    decreases |xs|
  {
    if xs != [] {
      SortIsStable(cmp, xs[1..]);
      MergeSorted(cmp, [xs[0]], Sort(cmp, xs[1..]));
      forall k ensures Class(cmp, k, Sort(cmp, xs)) == Class(cmp, k, xs) {
        MergeStable(cmp, k, [xs[0]], Sort(cmp, xs[1..]));
        assert xs == [xs[0]] + xs[1..];
        ClassAppend(cmp, k, [xs[0]], xs[1..]);
      }
    }
  }

  lemma {:induction false} ClassOfHead(cmp: Comparator, s: seq<Record>)
    requires ValidComparator(cmp) && s != []
    ensures Class(cmp, s[0], s) == [s[0]] + Class(cmp, s[0], s[1..])
  {
    assert Sign(cmp(s[0], s[0])) == -Sign(cmp(s[0], s[0]));
  }

  lemma {:induction false} SortedHeadBelowClass(cmp: Comparator, s: seq<Record>, k: Record)
    requires ValidComparator(cmp) && Sorted(cmp, s) && Class(cmp, k, s) != []
    ensures cmp(s[0], k) <= 0
    decreases |s|
  {
    if cmp(s[0], k) != 0 {
      SortedHeadBelowClass(cmp, s[1..], k);
      assert cmp(s[0], s[1]) <= 0;
      LeTrans(cmp, s[0], s[1], k);
    }
  }

  /**
   * A sorted sequence is determined by the order of its records within each
   * class of equal records: two sorted sequences that agree class by class
   * are identical.
   */
  lemma {:induction false} StableSortUnique(cmp: Comparator, s1: seq<Record>, s2: seq<Record>)
    requires ValidComparator(cmp) && Sorted(cmp, s1) && Sorted(cmp, s2)
    requires forall k :: Class(cmp, k, s1) == Class(cmp, k, s2)
    ensures s1 == s2
    decreases |s1|
  {
    if s1 == [] || s2 == [] {
      if s1 != [] {
        ClassOfHead(cmp, s1);
        assert false;
      } else if s2 != [] {
        ClassOfHead(cmp, s2);
        assert false;
      }
    } else {
      var x, y := s1[0], s2[0];
      assert Class(cmp, x, s2) == Class(cmp, x, s1) == [x] + Class(cmp, x, s1[1..]);
      SortedHeadBelowClass(cmp, s2, x);
      assert Class(cmp, y, s1) == Class(cmp, y, s2) == [y] + Class(cmp, y, s2[1..]);
      SortedHeadBelowClass(cmp, s1, y);
      assert cmp(x, y) == 0 && cmp(y, x) == 0;
      assert Class(cmp, x, s2) == [y] + Class(cmp, x, s2[1..]);
      assert ([x] + Class(cmp, x, s1[1..]))[0] == x;
      assert x == y;
      forall k ensures Class(cmp, k, s1[1..]) == Class(cmp, k, s2[1..]) {
        var h := if cmp(x, k) == 0 then [x] else [];
        assert Class(cmp, k, s1) == h + Class(cmp, k, s1[1..]);
        assert Class(cmp, k, s2) == h + Class(cmp, k, s2[1..]);
        assert Class(cmp, k, s1[1..]) == Class(cmp, k, s1)[|h|..];
      }
      StableSortUnique(cmp, s1[1..], s2[1..]);
      assert s1 == [x] + s1[1..] && s2 == [y] + s2[1..];
    }
  }

  /** Any stable sort of xs is the reference sort of xs. */
  lemma {:induction false} StableSortIsSort(cmp: Comparator, out: seq<Record>, xs: seq<Record>)
    requires ValidComparator(cmp) && IsStableSortOf(cmp, out, xs)
    ensures out == Sort(cmp, xs)
  {
    SortIsStable(cmp, xs);
    StableSortUnique(cmp, out, Sort(cmp, xs));
  }

  /** Sorting an already sorted file reproduces it unchanged. */
  lemma {:induction false} SortIdempotent(cmp: Comparator, xs: seq<Record>)
    requires ValidComparator(cmp) && Sorted(cmp, xs)
    ensures Sort(cmp, xs) == xs
  {
    StableSortIsSort(cmp, xs, xs);
  }
}
