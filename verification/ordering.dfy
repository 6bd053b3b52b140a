/**
 * Records, the caller's comparator, the natural (String.compareTo) order,
 * and the two notions every other module is proved against: sortedness and
 * the subsequence of records that compare equal to a given key.
 */
module Ordering {

  /** One line of text without its line terminator. */
  type Record = string

  /** A java.util.Comparator<String>: negative, zero or positive. */
  type Comparator = (Record, Record) -> int

  function Sign(x: int): int
  {
    if x < 0 then -1 else if x > 0 then 1 else 0
  }

  /** "compares at most": the ordering the merge and the sorted files are stated in. */
  ghost predicate Le(cmp: Comparator, a: Record, b: Record)
  {
    cmp(a, b) <= 0
  }

  /**
   * The Comparator contract: sgn(compare(a, b)) == -sgn(compare(b, a)) and
   * "compares at most" is transitive, i.e. the comparator is a total preorder.
   */
  ghost predicate ValidComparator(cmp: Comparator)
  {
    && (forall a, b :: Sign(cmp(a, b)) == -Sign(cmp(b, a)))
    && (forall a, b, c {:trigger Le(cmp, a, b), Le(cmp, b, c)} ::
          Le(cmp, a, b) && Le(cmp, b, c) ==> Le(cmp, a, c))
  }

  lemma {:induction false} LeTrans(cmp: Comparator, a: Record, b: Record, c: Record)
    requires ValidComparator(cmp)
    requires cmp(a, b) <= 0 && cmp(b, c) <= 0
    ensures cmp(a, c) <= 0
  {
    assert Le(cmp, a, b) && Le(cmp, b, c);
  }

  lemma {:induction false} EquivTrans(cmp: Comparator, a: Record, b: Record, c: Record)
    requires ValidComparator(cmp)
    requires cmp(a, b) == 0 && cmp(b, c) == 0
    ensures cmp(a, c) == 0
  {
    LeTrans(cmp, a, b, c);
    LeTrans(cmp, c, b, a);
  }

  /** Every pair of records, not only neighbours, is in order. */
  ghost predicate Sorted(cmp: Comparator, s: seq<Record>)
  {
    forall i, j :: 0 <= i < j < |s| ==> cmp(s[i], s[j]) <= 0
  }

  /** Under a valid comparator, neighbours in order put every pair in order. */
  lemma {:induction false} SortedFromNeighbours(cmp: Comparator, s: seq<Record>)
    requires ValidComparator(cmp)
    requires forall i :: 0 <= i < |s| - 1 ==> cmp(s[i], s[i + 1]) <= 0
    ensures Sorted(cmp, s)
  {
    forall i, j | 0 <= i < j < |s| ensures cmp(s[i], s[j]) <= 0 {
      NeighboursChain(cmp, s, i, j);
    }
  }

  lemma {:induction false} NeighboursChain(cmp: Comparator, s: seq<Record>, i: nat, j: nat)
    requires ValidComparator(cmp)
    requires forall k :: 0 <= k < |s| - 1 ==> cmp(s[k], s[k + 1]) <= 0
    requires i < j < |s|
    ensures cmp(s[i], s[j]) <= 0
    decreases j - i
  {
    if j > i + 1 {
      NeighboursChain(cmp, s, i, j - 1);
      LeTrans(cmp, s[i], s[j - 1], s[j]);
    }
  }

  /** The records of s that the comparator cannot tell apart from k, in their order in s. */
  function Class(cmp: Comparator, k: Record, s: seq<Record>): seq<Record>
  {
    if s == [] then []
    else (if cmp(s[0], k) == 0 then [s[0]] else []) + Class(cmp, k, s[1..])
  }

  lemma {:induction false} ClassAppend(cmp: Comparator, k: Record, a: seq<Record>, b: seq<Record>)
    ensures Class(cmp, k, a + b) == Class(cmp, k, a) + Class(cmp, k, b)
    decreases |a|
  {
    if a == [] {
      assert a + b == b;
    } else {
      assert (a + b)[1..] == a[1..] + b;
      ClassAppend(cmp, k, a[1..], b);
    }
  }

  lemma {:induction false} ClassCons(cmp: Comparator, k: Record, x: Record, s: seq<Record>)
    ensures Class(cmp, k, [x] + s) == (if cmp(x, k) == 0 then [x] else []) + Class(cmp, k, s)
  {
    assert ([x] + s)[1..] == s;
  }

  lemma {:induction false} ClassHead(cmp: Comparator, k: Record, s: seq<Record>)
    requires s != []
    ensures Class(cmp, k, s) == (if cmp(s[0], k) == 0 then [s[0]] else []) + Class(cmp, k, s[1..])
  {
  }

  lemma {:induction false} ClassEmpty(cmp: Comparator, k: Record, s: seq<Record>)
    requires forall i :: 0 <= i < |s| ==> cmp(s[i], k) != 0
    ensures Class(cmp, k, s) == []
    decreases |s|
  {
    if s != [] {
      ClassEmpty(cmp, k, s[1..]);
    }
  }

  /** String.compareTo: the first differing character decides, else the shorter string is smaller. */
  function NaturalCompare(a: Record, b: Record): int
  {
    if |a| == 0 || |b| == 0 then |a| - |b|
    else if a[0] != b[0] then a[0] as int - b[0] as int
    else NaturalCompare(a[1..], b[1..])
  }

  lemma {:induction false} NaturalAntisymmetric(a: Record, b: Record)
    ensures NaturalCompare(a, b) == -NaturalCompare(b, a)
    decreases |a|
  {
    if |a| > 0 && |b| > 0 && a[0] == b[0] {
      NaturalAntisymmetric(a[1..], b[1..]);
    }
  }

  lemma {:induction false} NaturalZeroIffEqual(a: Record, b: Record)
    ensures NaturalCompare(a, b) == 0 <==> a == b
    decreases |a|
  {
    if |a| > 0 && |b| > 0 && a[0] == b[0] {
      NaturalZeroIffEqual(a[1..], b[1..]);
      assert a == [a[0]] + a[1..] && b == [b[0]] + b[1..];
    }
  }

  lemma {:induction false} NaturalTransitive(a: Record, b: Record, c: Record)
    requires NaturalCompare(a, b) <= 0 && NaturalCompare(b, c) <= 0
    ensures NaturalCompare(a, c) <= 0
    decreases |a|
  {
    if |a| > 0 && |b| > 0 && |c| > 0 && a[0] == b[0] && b[0] == c[0] {
      NaturalTransitive(a[1..], b[1..], c[1..]);
    }
  }

  lemma {:induction false} NaturalIsValid()
    ensures ValidComparator(NaturalCompare)
  {
    forall a, b ensures Sign(NaturalCompare(a, b)) == -Sign(NaturalCompare(b, a)) {
      NaturalAntisymmetric(a, b);
    }
    forall a, b, c | Le(NaturalCompare, a, b) && Le(NaturalCompare, b, c)
      ensures Le(NaturalCompare, a, c)
    {
      NaturalTransitive(a, b, c);
    }
  }

  lemma {:induction false} NaturalIdentifiesEqual()
    ensures forall a, b :: NaturalCompare(a, b) == 0 <==> a == b
  {
    forall a, b ensures NaturalCompare(a, b) == 0 <==> a == b {
      NaturalZeroIffEqual(a, b);
    }
  }

  /**
   * The comparator `sort()` uses when the caller supplies none: a total
   * order in which only identical lines compare equal.
   */
  function NaturalOrder(): (cmp: Comparator)
    ensures ValidComparator(cmp)
    ensures forall a, b :: cmp(a, b) == 0 <==> a == b
  {
    NaturalIsValid();
    NaturalIdentifiesEqual();
    NaturalCompare
  }

  /** A proper prefix orders before the longer string. */
  lemma {:induction false} NaturalPrefixFirst(a: Record, s: Record)
    requires s != []
    ensures NaturalCompare(a, a + s) < 0
    decreases |a|
  {
    if a != [] {
      assert (a + s)[0] == a[0] && (a + s)[1..] == a[1..] + s;
      NaturalPrefixFirst(a[1..], s);
    }
  }
}
