/**
 * Groups: the maximal runs of adjacent records that the comparator cannot
 * tell apart. Every post-sort operator (first, last, allDups, ...) is
 * specified group by group, so this module is the reference the operator
 * state machines are proved against.
 */
module Grouping {
  import opened Ordering
  import opened Seqs

  /** Neighbouring records of g compare equal. */
  ghost predicate Unbroken(cmp: Comparator, g: seq<Record>)
  {
    forall j :: 0 <= j < |g| - 1 ==> cmp(g[j], g[j + 1]) == 0
  }

  /** a and b are non-empty and the comparator tells a's last record from b's first. */
  ghost predicate Cut(cmp: Comparator, a: seq<Record>, b: seq<Record>)
  {
    a != [] && b != [] && cmp(Last(a), b[0]) != 0
  }

  /**
   * gs cuts xs into non-empty runs: neighbours inside a run compare equal,
   * the last record of a run and the first of the next one do not.
   */
  ghost predicate IsGrouping(cmp: Comparator, gs: seq<seq<Record>>, xs: seq<Record>)
  {
    && Flatten(gs) == xs
    && (forall i :: 0 <= i < |gs| ==> gs[i] != [] && Unbroken(cmp, gs[i]))
    && (forall i :: 0 <= i < |gs| - 1 ==> Cut(cmp, gs[i], gs[i + 1]))
  }

  /** The grouping of xs, built one record at a time as the operators read it. */
  function Groups(cmp: Comparator, xs: seq<Record>): (gs: seq<seq<Record>>)
    ensures xs == [] <==> gs == []
    ensures xs != [] ==> Last(gs) != [] && Last(Last(gs)) == Last(xs)
    decreases |xs|
  {
    if xs == [] then []
    else
      var g := Groups(cmp, xs[..|xs| - 1]);
      if g != [] && cmp(Last(Last(g)), Last(xs)) == 0 then g[..|g| - 1] + [Last(g) + [Last(xs)]]
      else g + [[Last(xs)]]
  }

  /** Groups does cut its input into maximal runs. */
  lemma {:induction false} GroupsIsGrouping(cmp: Comparator, xs: seq<Record>)
    ensures IsGrouping(cmp, Groups(cmp, xs), xs)
    decreases |xs|
  {
    if xs != [] {
      var p := xs[..|xs| - 1];
      SnocLast(xs);
      var g := Groups(cmp, p);
      GroupsIsGrouping(cmp, p);
      if g != [] && cmp(Last(Last(g)), Last(xs)) == 0 {
        ExtendLastGroup(cmp, g, p, Last(xs));
      } else {
        StartGroup(cmp, g, p, Last(xs));
      }
    }
  }

  /** Reading x after xs: the definition of Groups with the slicing taken away. */
  lemma {:induction false} GroupsSnoc(cmp: Comparator, xs: seq<Record>, x: Record)
    ensures var g := Groups(cmp, xs);
      Groups(cmp, xs + [x])
        == if g != [] && cmp(Last(Last(g)), x) == 0 then g[..|g| - 1] + [Last(g) + [x]] else g + [[x]]
  {
    assert (xs + [x])[..|xs|] == xs;
  }

  lemma {:induction false} UnbrokenSnoc(cmp: Comparator, g: seq<Record>, x: Record)
    requires Unbroken(cmp, g) && g != [] && cmp(Last(g), x) == 0
    ensures Unbroken(cmp, g + [x])
  {
    var g' := g + [x];
    forall j | 0 <= j < |g'| - 1 ensures cmp(g'[j], g'[j + 1]) == 0 {
      if j < |g| - 1 {
        assert g'[j] == g[j] && g'[j + 1] == g[j + 1];
      }
    }
  }

  lemma {:induction false} UnbrokenInit(cmp: Comparator, g: seq<Record>)
    requires Unbroken(cmp, g) && |g| >= 2
    ensures Unbroken(cmp, g[..|g| - 1]) && cmp(g[|g| - 2], Last(g)) == 0
  {
    var g' := g[..|g| - 1];
    forall j | 0 <= j < |g'| - 1 ensures cmp(g'[j], g'[j + 1]) == 0 {
      assert g'[j] == g[j] && g'[j + 1] == g[j + 1];
    }
  }

  lemma {:induction false} ExtendLastGroup(cmp: Comparator, gs: seq<seq<Record>>, xs: seq<Record>, x: Record)
    requires IsGrouping(cmp, gs, xs) && gs != [] && cmp(Last(Last(gs)), x) == 0
    ensures IsGrouping(cmp, gs[..|gs| - 1] + [Last(gs) + [x]], xs + [x])
  {
    var n := |gs|;
    var init := gs[..n - 1];
    var l := Last(gs);
    var gs' := init + [l + [x]];
    assert gs == init + [l];
    FlattenSnoc(init, l);
    FlattenSnoc(init, l + [x]);
    assert Flatten(gs') == xs + [x] by {
      Associative(Flatten(init), l, [x]);
    }
    UnbrokenSnoc(cmp, l, x);
    forall i | 0 <= i < |gs'| ensures gs'[i] != [] && Unbroken(cmp, gs'[i]) {
      if i < n - 1 {
        assert gs'[i] == gs[i];
      }
    }
    forall i | 0 <= i < |gs'| - 1 ensures Cut(cmp, gs'[i], gs'[i + 1]) {
      assert gs'[i] == gs[i];
      if i + 1 < n - 1 {
        assert gs'[i + 1] == gs[i + 1];
      } else {
        assert gs'[i + 1][0] == gs[i + 1][0];
      }
    }
  }

  lemma {:induction false} StartGroup(cmp: Comparator, gs: seq<seq<Record>>, xs: seq<Record>, x: Record)
    requires IsGrouping(cmp, gs, xs)
    requires gs != [] ==> Last(gs) != [] && cmp(Last(Last(gs)), x) != 0
    ensures IsGrouping(cmp, gs + [[x]], xs + [x])
  {
    var gs' := gs + [[x]];
    FlattenSnoc(gs, [x]);
    forall i | 0 <= i < |gs'| ensures gs'[i] != [] && Unbroken(cmp, gs'[i]) {
      if i < |gs| {
        assert gs'[i] == gs[i];
      }
    }
    forall i | 0 <= i < |gs'| - 1 ensures Cut(cmp, gs'[i], gs'[i + 1]) {
      assert gs'[i] == gs[i];
      if i + 1 < |gs| {
        assert gs'[i + 1] == gs[i + 1];
      }
    }
  }

  /** Dropping a last group of one record leaves a grouping of the shorter input. */
  lemma {:induction false} DropSingletonGroup(cmp: Comparator, gs: seq<seq<Record>>, xs: seq<Record>)
    requires IsGrouping(cmp, gs, xs) && gs != [] && |Last(gs)| == 1
    ensures xs != [] && Last(gs) == [Last(xs)]
    ensures IsGrouping(cmp, gs[..|gs| - 1], xs[..|xs| - 1])
  {
    var n := |gs|;
    var init := gs[..n - 1];
    assert gs == init + [Last(gs)];
    FlattenSnoc(init, Last(gs));
    assert xs == Flatten(init) + Last(gs);
    assert xs[..|xs| - 1] == Flatten(init);
    forall i | 0 <= i < |init| ensures init[i] != [] && Unbroken(cmp, init[i]) {
      assert init[i] == gs[i];
    }
    forall i | 0 <= i < |init| - 1 ensures Cut(cmp, init[i], init[i + 1]) {
      assert init[i] == gs[i] && init[i + 1] == gs[i + 1];
    }
  }

  /** The input of a grouping without its last record is the grouping with its last group shortened. */
  lemma {:induction false} ShrinkFlatten(gs: seq<seq<Record>>, xs: seq<Record>)
    requires Flatten(gs) == xs && gs != [] && |Last(gs)| >= 2
    ensures var l := Last(gs);
      && xs != [] && Last(l) == Last(xs)
      && xs[..|xs| - 1] == Flatten(gs[..|gs| - 1] + [l[..|l| - 1]])
  {
    var init := gs[..|gs| - 1];
    var l := Last(gs);
    var l' := l[..|l| - 1];
    SnocLast(gs);
    SnocLast(l);
    FlattenSnoc(init, l);
    FlattenSnoc(init, l');
    assert xs == Flatten(init) + l;
    assert xs == (Flatten(init) + l') + [Last(l)] by {
      Associative(Flatten(init), l', [Last(l)]);
    }
  }

  /** Dropping the last record of a last group of two or more leaves a grouping of the shorter input. */
  lemma {:induction false} ShrinkLastGroup(cmp: Comparator, gs: seq<seq<Record>>, xs: seq<Record>)
    requires IsGrouping(cmp, gs, xs) && gs != [] && |Last(gs)| >= 2
    ensures var l := Last(gs);
      && xs != [] && Last(l) == Last(xs) && cmp(l[|l| - 2], Last(xs)) == 0
      && IsGrouping(cmp, gs[..|gs| - 1] + [l[..|l| - 1]], xs[..|xs| - 1])
  {
    var n := |gs|;
    var init := gs[..n - 1];
    var l := Last(gs);
    var l' := l[..|l| - 1];
    var gs' := init + [l'];
    ShrinkFlatten(gs, xs);
    UnbrokenInit(cmp, l);
    forall i | 0 <= i < |gs'| ensures gs'[i] != [] && Unbroken(cmp, gs'[i]) {
      if i < n - 1 {
        assert gs'[i] == gs[i];
      }
    }
    forall i | 0 <= i < |gs'| - 1 ensures Cut(cmp, gs'[i], gs'[i + 1]) {
      assert gs'[i] == gs[i];
      if i + 1 < n - 1 {
        assert gs'[i + 1] == gs[i + 1];
      } else {
        assert gs'[i + 1][0] == gs[i + 1][0];
      }
    }
  }

  /** A grouping is unique: Groups is the only way to cut xs into maximal runs. */
  lemma {:induction false} GroupingUnique(cmp: Comparator, gs: seq<seq<Record>>, xs: seq<Record>)
    requires IsGrouping(cmp, gs, xs)
    ensures gs == Groups(cmp, xs)
    decreases |xs|
  {
    if gs == [] {
      assert xs == [];
    } else {
      var n := |gs|;
      var l := Last(gs);
      assert gs[n - 1] != [];
      if |l| == 1 {
        DropSingletonGroup(cmp, gs, xs);
        GroupingUnique(cmp, gs[..n - 1], xs[..|xs| - 1]);
        if n >= 2 {
          assert Cut(cmp, gs[n - 2], gs[n - 1]);
        }
        UniqueAfterSingleton(cmp, gs, xs);
      } else {
        ShrinkLastGroup(cmp, gs, xs);
        GroupingUnique(cmp, gs[..n - 1] + [l[..|l| - 1]], xs[..|xs| - 1]);
        UniqueAfterShrink(cmp, gs, xs);
      }
    }
  }

  lemma {:induction false} UniqueAfterSingleton(cmp: Comparator, gs: seq<seq<Record>>, xs: seq<Record>)
    requires gs != [] && xs != [] && Last(gs) == [Last(xs)]
    requires gs[..|gs| - 1] == Groups(cmp, xs[..|xs| - 1])
    requires |gs| >= 2 ==> Cut(cmp, gs[|gs| - 2], gs[|gs| - 1])
    ensures gs == Groups(cmp, xs)
  {
    var n := |gs|;
    var p := xs[..|xs| - 1];
    SnocLast(xs);
    GroupsSnoc(cmp, p, Last(xs));
    if n >= 2 {
      assert gs[n - 2] == Last(gs[..n - 1]);
    }
    assert gs == gs[..n - 1] + [[Last(xs)]];
  }

  lemma {:induction false} UniqueAfterShrink(cmp: Comparator, gs: seq<seq<Record>>, xs: seq<Record>)
    requires gs != [] && xs != [] && |Last(gs)| >= 2
    requires var l := Last(gs); Last(l) == Last(xs) && cmp(l[|l| - 2], Last(xs)) == 0
    requires var l := Last(gs); gs[..|gs| - 1] + [l[..|l| - 1]] == Groups(cmp, xs[..|xs| - 1])
    ensures gs == Groups(cmp, xs)
  {
    var n := |gs|;
    var l := Last(gs);
    var p := xs[..|xs| - 1];
    SnocLast(xs);
    SnocLast(l);
    SnocLast(gs);
    var gs' := gs[..n - 1] + [l[..|l| - 1]];
    GroupsSnoc(cmp, p, Last(xs));
    assert Last(Last(gs')) == l[|l| - 2];
    assert gs'[..n - 1] == gs[..n - 1];
  }

  /** Under a total preorder every record of a run is equivalent to the run's first record. */
  lemma {:induction false} UnbrokenMembersEquivalent(cmp: Comparator, g: seq<Record>, j: nat)
    requires ValidComparator(cmp) && Unbroken(cmp, g) && j < |g|
    ensures cmp(g[0], g[j]) == 0
    decreases j
  {
    if j == 0 {
      assert Sign(cmp(g[0], g[0])) == -Sign(cmp(g[0], g[0]));
    } else {
      UnbrokenMembersEquivalent(cmp, g, j - 1);
      EquivTrans(cmp, g[0], g[j - 1], g[j]);
    }
  }

  /**
   * The operators that remember the first record of the current group
   * (first, noDups, sum) see the same group boundaries as those that
   * remember the previous record (last, allDups, firstDup, lastDup).
   */
  lemma {:induction false} SameGroupAsHead(cmp: Comparator, xs: seq<Record>, x: Record)
    requires ValidComparator(cmp) && xs != []
    ensures var l := Last(Groups(cmp, xs)); cmp(l[0], x) == 0 <==> cmp(Last(l), x) == 0
  {
    var gs := Groups(cmp, xs);
    var l := Last(gs);
    GroupsIsGrouping(cmp, xs);
    assert l == gs[|gs| - 1];
    UnbrokenMembersEquivalent(cmp, l, |l| - 1);
    assert Sign(cmp(l[0], Last(l))) == -Sign(cmp(Last(l), l[0]));
    if cmp(l[0], x) == 0 {
      EquivTrans(cmp, Last(l), l[0], x);
    }
    if cmp(Last(l), x) == 0 {
      EquivTrans(cmp, l[0], Last(l), x);
    }
  }

  /**
   * The group specification of an operator: pick says what one group
   * contributes to the output, and the groups contribute in order.
   */
  function EachGroup(gs: seq<seq<Record>>, pick: seq<Record> -> seq<Record>): (out: seq<Record>)
    decreases |gs|
  {
    if gs == [] then [] else EachGroup(gs[..|gs| - 1], pick) + pick(Last(gs))
  }

  lemma {:induction false} EachGroupSnoc(gs: seq<seq<Record>>, g: seq<Record>, pick: seq<Record> -> seq<Record>)
    ensures EachGroup(gs + [g], pick) == EachGroup(gs, pick) + pick(g)
  {
    assert (gs + [g])[..|gs|] == gs;
  }

  /**
   * Reading one more record either extends the last group or opens a new
   * one; either way only the pick of the last group changes.
   */
  lemma {:induction false} EachGroupOnSnoc(cmp: Comparator, xs: seq<Record>, x: Record, pick: seq<Record> -> seq<Record>)
    ensures var g := Groups(cmp, xs);
      var g' := Groups(cmp, xs + [x]);
      && g' != [] && Last(Last(g')) == x
      && (if xs != [] && cmp(Last(Last(g)), x) == 0 then
            && g'[..|g'| - 1] == g[..|g| - 1]
            && Last(g') == Last(g) + [x]
            && EachGroup(g', pick) == EachGroup(g[..|g| - 1], pick) + pick(Last(g) + [x])
          else
            && g'[..|g'| - 1] == g
            && Last(g') == [x]
            && EachGroup(g', pick) == EachGroup(g, pick) + pick([x]))
  {
    var g := Groups(cmp, xs);
    GroupsSnoc(cmp, xs, x);
    if xs != [] && cmp(Last(Last(g)), x) == 0 {
      EachGroupSnoc(g[..|g| - 1], Last(g) + [x], pick);
    } else {
      EachGroupSnoc(g, [x], pick);
    }
  }

  /** What first() keeps of a group: its first record. */
  function FirstOf(g: seq<Record>): (r: seq<Record>)
    ensures g != [] ==> r == [g[0]]
  {
    if g == [] then [] else [g[0]]
  }

  /** What last() keeps of a group: its last record. */
  function LastOf(g: seq<Record>): (r: seq<Record>)
    ensures g != [] ==> r == [Last(g)]
  {
    if g == [] then [] else [Last(g)]
  }

  /** What allDups() keeps: every record of a group with a duplicate. */
  function IfDup(g: seq<Record>): seq<Record>
  {
    if |g| >= 2 then g else []
  }

  /** What noDups() keeps: the record of a group of one. */
  function IfSingle(g: seq<Record>): seq<Record>
  {
    if |g| == 1 then g else []
  }

  /** What firstDup() keeps: the first record of a group with a duplicate. */
  function FirstDupOf(g: seq<Record>): seq<Record>
  {
    if |g| >= 2 then [g[0]] else []
  }

  /** What lastDup() keeps: the last record of a group with a duplicate. */
  function LastDupOf(g: seq<Record>): seq<Record>
  {
    if |g| >= 2 then [Last(g)] else []
  }
}
