/**
 * The built-in post-sort reductions first(), last(), allDups(), noDups(),
 * firstDup() and lastDup(): each a small state machine over the sorted
 * stream, with the Java object's fields as its state (a boolean field starts
 * false, a String field starts null). Each is proved to emit exactly what
 * its group specification in module Grouping says.
 */
module Operators {
  import opened Wrappers
  import opened Ordering
  import opened Seqs
  import opened Grouping
  import opened Accumulators

  /** The groups already closed by the records read so far: all but the last. */
  function Closed(gs: seq<seq<Record>>): seq<seq<Record>>
  {
    if gs == [] then [] else gs[..|gs| - 1]
  }

  /** A non-empty grouping is its closed groups followed by the open one. */
  lemma {:induction false} SplitLast(gs: seq<seq<Record>>, pick: seq<Record> -> seq<Record>)
    requires gs != []
    ensures Closed(gs) + [Last(gs)] == gs
    ensures EachGroup(gs, pick) == EachGroup(Closed(gs), pick) + pick(Last(gs))
  {
    assert Closed(gs) + [Last(gs)] == gs;
  }

  // ---------------------------------------------------------------- first

  /** FirstReorgWriter: cache holds the first record of the current group. */
  datatype FirstState = FirstState(cache: Option<Record>)

  function FirstReduce(cmp: Comparator, s: FirstState, line: Record): (FirstState, Option<Record>)
  {
    if s.cache.None? || cmp(s.cache.value, line) != 0 then (FirstState(Some(line)), Some(line))
    else (s, None)
  }

  function First(cmp: Comparator): Accumulator<FirstState>
  {
    Accumulator(FirstState(None), (s, line) => FirstReduce(cmp, s, line), s => None)
  }

  ghost predicate FirstInv(cmp: Comparator, xs: seq<Record>, r: (FirstState, seq<Record>))
  {
    var gs := Groups(cmp, xs);
    && (if xs == [] then r.0.cache == None else r.0.cache == Some(Last(gs)[0]))
    && r.1 == EachGroup(gs, FirstOf)
  }

  lemma {:induction false} FirstStep(cmp: Comparator, xs: seq<Record>, x: Record)
    requires ValidComparator(cmp)
    requires FirstInv(cmp, xs, Feed(First(cmp), xs))
    ensures FirstInv(cmp, xs + [x], Feed(First(cmp), xs + [x]))
  {
    FeedSnoc(First(cmp), First(cmp).init, xs, x);
    EachGroupOnSnoc(cmp, xs, x, FirstOf);
    var s := Feed(First(cmp), xs).0;
    var gs := Groups(cmp, xs);
    if xs == [] {
      assert FirstReduce(cmp, s, x) == (FirstState(Some(x)), Some(x));
    } else {
      SameGroupAsHead(cmp, xs, x);
      if cmp(Last(Last(gs)), x) == 0 {
        assert FirstReduce(cmp, s, x) == (s, None);
        FirstSameGroup(cmp, xs, x);
      } else {
        assert FirstReduce(cmp, s, x) == (FirstState(Some(x)), Some(x));
      }
    }
  }

  lemma {:induction false} FirstSameGroup(cmp: Comparator, xs: seq<Record>, x: Record)
    requires xs != []
    requires var gs := Groups(cmp, xs); var gs' := Groups(cmp, xs + [x]);
      Closed(gs') == Closed(gs) && Last(gs') == Last(gs) + [x]
    ensures var gs := Groups(cmp, xs); var gs' := Groups(cmp, xs + [x]);
      EachGroup(gs', FirstOf) == EachGroup(gs, FirstOf) && Last(gs')[0] == Last(gs)[0]
  {
    SplitLast(Groups(cmp, xs), FirstOf);
    SplitLast(Groups(cmp, xs + [x]), FirstOf);
  }

  lemma {:induction false} FirstFeed(cmp: Comparator, xs: seq<Record>)
    requires ValidComparator(cmp)
    ensures FirstInv(cmp, xs, Feed(First(cmp), xs))
    decreases |xs|
  {
    if xs != [] {
      var p := xs[..|xs| - 1];
      SnocLast(xs);
      FirstFeed(cmp, p);
      FirstStep(cmp, p, Last(xs));
    }
  }

  /** first() writes the first record of every group, in order, and its flush adds nothing. */
  lemma {:induction false} FirstKeepsGroupHeads(cmp: Comparator, xs: seq<Record>)
    requires ValidComparator(cmp)
    ensures Run(First(cmp), xs) == EachGroup(Groups(cmp, xs), FirstOf)
  {
    FirstFeed(cmp, xs);
  }

  // ---------------------------------------------------------------- last

  /** LastReorgWriter: cache holds the previous record. */
  datatype LastState = LastState(cache: Option<Record>)

  function LastReduce(cmp: Comparator, s: LastState, line: Record): (LastState, Option<Record>)
  {
    var out := if s.cache.None? || cmp(s.cache.value, line) == 0 then None else s.cache;
    (LastState(Some(line)), out)
  }

  function LastOp(cmp: Comparator): Accumulator<LastState>
  {
    Accumulator(LastState(None), (s, line) => LastReduce(cmp, s, line), (s: LastState) => s.cache)
  }

  ghost predicate LastInv(cmp: Comparator, xs: seq<Record>, r: (LastState, seq<Record>))
  {
    var gs := Groups(cmp, xs);
    && (if xs == [] then r.0.cache == None else r.0.cache == Some(Last(xs)))
    && r.1 == EachGroup(Closed(gs), LastOf)
  }

  lemma {:induction false} LastStep(cmp: Comparator, xs: seq<Record>, x: Record)
    requires LastInv(cmp, xs, Feed(LastOp(cmp), xs))
    ensures LastInv(cmp, xs + [x], Feed(LastOp(cmp), xs + [x]))
  {
    FeedSnoc(LastOp(cmp), LastOp(cmp).init, xs, x);
    EachGroupOnSnoc(cmp, xs, x, LastOf);
    var s := Feed(LastOp(cmp), xs).0;
    var gs := Groups(cmp, xs);
    if xs == [] || cmp(Last(xs), x) == 0 {
      assert LastReduce(cmp, s, x) == (LastState(Some(x)), None);
    } else {
      assert LastReduce(cmp, s, x) == (LastState(Some(x)), Some(Last(xs)));
      SplitLast(gs, LastOf);
    }
  }

  lemma {:induction false} LastFeed(cmp: Comparator, xs: seq<Record>)
    ensures LastInv(cmp, xs, Feed(LastOp(cmp), xs))
    decreases |xs|
  {
    if xs != [] {
      var p := xs[..|xs| - 1];
      SnocLast(xs);
      LastFeed(cmp, p);
      LastStep(cmp, p, Last(xs));
    }
  }

  /** last() writes the last record of every group, the final one from flush. */
  lemma {:induction false} LastKeepsGroupTails(cmp: Comparator, xs: seq<Record>)
    ensures Run(LastOp(cmp), xs) == EachGroup(Groups(cmp, xs), LastOf)
  {
    LastFeed(cmp, xs);
    var gs := Groups(cmp, xs);
    if xs != [] {
      EachGroupSnoc(Closed(gs), Last(gs), LastOf);
      assert Closed(gs) + [Last(gs)] == gs;
    }
  }

  // ---------------------------------------------------------------- allDups

  /** AllDupsReorgWriter: cache holds the previous record, pendingWrite says it still has to be written. */
  datatype AllDupsState = AllDupsState(cache: Option<Record>, pendingWrite: bool)

  function AllDupsReduce(cmp: Comparator, s: AllDupsState, line: Record): (AllDupsState, Option<Record>)
  {
    if s.cache.None? then (AllDupsState(Some(line), false), None)
    else if cmp(s.cache.value, line) == 0 then (AllDupsState(Some(line), true), s.cache)
    else (AllDupsState(Some(line), false), if s.pendingWrite then s.cache else None)
  }

  function AllDupsFlush(s: AllDupsState): Option<Record>
  {
    if s.pendingWrite then s.cache else None
  }

  function AllDups(cmp: Comparator): Accumulator<AllDupsState>
  {
    Accumulator(AllDupsState(None, false), (s, line) => AllDupsReduce(cmp, s, line), AllDupsFlush)
  }

  ghost predicate AllDupsInv(cmp: Comparator, xs: seq<Record>, r: (AllDupsState, seq<Record>))
  {
    var gs := Groups(cmp, xs);
    if xs == [] then r.0.cache == None && !r.0.pendingWrite && r.1 == []
    else
      var l := Last(gs);
      && r.0.cache == Some(Last(xs))
      && (r.0.pendingWrite <==> |l| >= 2)
      && r.1 == EachGroup(Closed(gs), IfDup) + (if |l| >= 2 then l[..|l| - 1] else [])
  }

  lemma {:induction false} AllDupsStep(cmp: Comparator, xs: seq<Record>, x: Record)
    requires AllDupsInv(cmp, xs, Feed(AllDups(cmp), xs))
    ensures AllDupsInv(cmp, xs + [x], Feed(AllDups(cmp), xs + [x]))
  {
    if xs == [] {
      AllDupsFirstRecord(cmp, x);
    } else if cmp(Last(xs), x) == 0 {
      AllDupsSameGroup(cmp, xs, x);
    } else {
      AllDupsNewGroup(cmp, xs, x);
    }
  }

  lemma {:induction false} AllDupsFirstRecord(cmp: Comparator, x: Record)
    ensures AllDupsInv(cmp, [x], Feed(AllDups(cmp), [x]))
  {
    FeedSnoc(AllDups(cmp), AllDups(cmp).init, [], x);
    EachGroupOnSnoc(cmp, [], x, IfDup);
    assert [] + [x] == [x];
    assert AllDupsReduce(cmp, AllDups(cmp).init, x) == (AllDupsState(Some(x), false), None);
  }

  lemma {:induction false} AllDupsSameGroup(cmp: Comparator, xs: seq<Record>, x: Record)
    requires xs != [] && cmp(Last(xs), x) == 0
    requires AllDupsInv(cmp, xs, Feed(AllDups(cmp), xs))
    ensures AllDupsInv(cmp, xs + [x], Feed(AllDups(cmp), xs + [x]))
  {
    FeedSnoc(AllDups(cmp), AllDups(cmp).init, xs, x);
    EachGroupOnSnoc(cmp, xs, x, IfDup);
    var s := Feed(AllDups(cmp), xs).0;
    var gs := Groups(cmp, xs);
    assert AllDupsReduce(cmp, s, x) == (AllDupsState(Some(x), true), Some(Last(xs)));
    DupsGrow(EachGroup(Closed(gs), IfDup), Last(gs), x);
  }

  lemma {:induction false} AllDupsNewGroup(cmp: Comparator, xs: seq<Record>, x: Record)
    requires xs != [] && cmp(Last(xs), x) != 0
    requires AllDupsInv(cmp, xs, Feed(AllDups(cmp), xs))
    ensures AllDupsInv(cmp, xs + [x], Feed(AllDups(cmp), xs + [x]))
  {
    var r := Feed(AllDups(cmp), xs);
    var gs := Groups(cmp, xs);
    var l := Last(gs);
    var held := if |l| >= 2 then Some(Last(xs)) else None;
    assert AllDupsReduce(cmp, r.0, x) == (AllDupsState(Some(x), false), held);
    FeedSnoc(AllDups(cmp), AllDups(cmp).init, xs, x);
    assert Feed(AllDups(cmp), xs + [x]) == (AllDupsState(Some(x), false), r.1 + held.ToSeq());
    SplitLast(gs, IfDup);
    DupsClose(EachGroup(Closed(gs), IfDup), l);
    assert r.1 + held.ToSeq() == EachGroup(gs, IfDup);
    EachGroupOnSnoc(cmp, xs, x, IfDup);
  }

  /** The open group grows: the record allDups held back is written now. */
  lemma {:induction false} DupsGrow(done: seq<Record>, l: seq<Record>, x: Record)
    requires l != []
    ensures var l' := l + [x];
      (done + (if |l| >= 2 then l[..|l| - 1] else [])) + [Last(l)] == done + l'[..|l'| - 1]
  {
    var l' := l + [x];
    assert l'[..|l'| - 1] == l;
    if |l| >= 2 {
      assert l[..|l| - 1] + [Last(l)] == l;
    } else {
      assert l == [Last(l)];
    }
  }

  /** The open group closes: allDups writes its held-back last record if the group had a duplicate. */
  lemma {:induction false} DupsClose(done: seq<Record>, l: seq<Record>)
    requires l != []
    ensures (done + (if |l| >= 2 then l[..|l| - 1] else [])) + (if |l| >= 2 then [Last(l)] else []) == done + IfDup(l)
  {
    if |l| >= 2 {
      assert l[..|l| - 1] + [Last(l)] == l;
    }
  }

  lemma {:induction false} AllDupsFeed(cmp: Comparator, xs: seq<Record>)
    ensures AllDupsInv(cmp, xs, Feed(AllDups(cmp), xs))
    decreases |xs|
  {
    if xs != [] {
      var p := xs[..|xs| - 1];
      SnocLast(xs);
      AllDupsFeed(cmp, p);
      AllDupsStep(cmp, p, Last(xs));
    }
  }

  /** allDups() writes every record of every group of two or more, and nothing of the others. */
  lemma {:induction false} AllDupsKeepsDuplicates(cmp: Comparator, xs: seq<Record>)
    ensures Run(AllDups(cmp), xs) == EachGroup(Groups(cmp, xs), IfDup)
  {
    AllDupsFeed(cmp, xs);
    var gs := Groups(cmp, xs);
    if xs != [] {
      var l := Last(gs);
      EachGroupSnoc(Closed(gs), l, IfDup);
      assert Closed(gs) + [l] == gs;
      if |l| >= 2 {
        Associative(EachGroup(Closed(gs), IfDup), l[..|l| - 1], [Last(l)]);
        assert l[..|l| - 1] + [Last(l)] == l;
      }
    }
  }

  // ---------------------------------------------------------------- noDups

  /** NoDupsReorgWriter: cache holds the first record of the current group, pendingWrite says it is alone so far. */
  datatype NoDupsState = NoDupsState(cache: Option<Record>, pendingWrite: bool)

  function NoDupsReduce(cmp: Comparator, s: NoDupsState, line: Record): (NoDupsState, Option<Record>)
  {
    if s.cache.None? then (NoDupsState(Some(line), true), None)
    else if cmp(s.cache.value, line) == 0 then (NoDupsState(s.cache, false), None)
    else (NoDupsState(Some(line), true), if s.pendingWrite then s.cache else None)
  }

  function NoDupsFlush(s: NoDupsState): Option<Record>
  {
    if s.pendingWrite then s.cache else None
  }

  function NoDups(cmp: Comparator): Accumulator<NoDupsState>
  {
    Accumulator(NoDupsState(None, false), (s, line) => NoDupsReduce(cmp, s, line), NoDupsFlush)
  }

  ghost predicate NoDupsInv(cmp: Comparator, xs: seq<Record>, r: (NoDupsState, seq<Record>))
  {
    var gs := Groups(cmp, xs);
    if xs == [] then r.0.cache == None && !r.0.pendingWrite && r.1 == []
    else
      var l := Last(gs);
      && r.0.cache == Some(l[0])
      && (r.0.pendingWrite <==> |l| == 1)
      && r.1 == EachGroup(Closed(gs), IfSingle)
  }

  lemma {:induction false} NoDupsStep(cmp: Comparator, xs: seq<Record>, x: Record)
    requires ValidComparator(cmp)
    requires NoDupsInv(cmp, xs, Feed(NoDups(cmp), xs))
    ensures NoDupsInv(cmp, xs + [x], Feed(NoDups(cmp), xs + [x]))
  {
    if xs == [] {
      NoDupsFirstRecord(cmp, x);
    } else {
      SameGroupAsHead(cmp, xs, x);
      if cmp(Last(xs), x) == 0 {
        NoDupsSameGroup(cmp, xs, x);
      } else {
        NoDupsNewGroup(cmp, xs, x);
      }
    }
  }

  lemma {:induction false} NoDupsFirstRecord(cmp: Comparator, x: Record)
    ensures NoDupsInv(cmp, [x], Feed(NoDups(cmp), [x]))
  {
    FeedSnoc(NoDups(cmp), NoDups(cmp).init, [], x);
    EachGroupOnSnoc(cmp, [], x, IfSingle);
    assert [] + [x] == [x];
    assert NoDupsReduce(cmp, NoDups(cmp).init, x) == (NoDupsState(Some(x), true), None);
  }

  lemma {:induction false} NoDupsSameGroup(cmp: Comparator, xs: seq<Record>, x: Record)
    requires xs != [] && cmp(Last(xs), x) == 0 && cmp(Last(Groups(cmp, xs))[0], x) == 0
    requires NoDupsInv(cmp, xs, Feed(NoDups(cmp), xs))
    ensures NoDupsInv(cmp, xs + [x], Feed(NoDups(cmp), xs + [x]))
  {
    FeedSnoc(NoDups(cmp), NoDups(cmp).init, xs, x);
    EachGroupOnSnoc(cmp, xs, x, IfSingle);
    var s := Feed(NoDups(cmp), xs).0;
    assert NoDupsReduce(cmp, s, x) == (NoDupsState(s.cache, false), None);
  }

  lemma {:induction false} NoDupsNewGroup(cmp: Comparator, xs: seq<Record>, x: Record)
    requires xs != [] && cmp(Last(xs), x) != 0 && cmp(Last(Groups(cmp, xs))[0], x) != 0
    requires NoDupsInv(cmp, xs, Feed(NoDups(cmp), xs))
    ensures NoDupsInv(cmp, xs + [x], Feed(NoDups(cmp), xs + [x]))
  {
    FeedSnoc(NoDups(cmp), NoDups(cmp).init, xs, x);
    EachGroupOnSnoc(cmp, xs, x, IfSingle);
    var s := Feed(NoDups(cmp), xs).0;
    var gs := Groups(cmp, xs);
    var l := Last(gs);
    assert NoDupsReduce(cmp, s, x) == (NoDupsState(Some(x), true), if |l| == 1 then Some(l[0]) else None);
    SplitLast(gs, IfSingle);
    if |l| == 1 {
      assert l == [l[0]];
    }
  }

  lemma {:induction false} NoDupsFeed(cmp: Comparator, xs: seq<Record>)
    requires ValidComparator(cmp)
    ensures NoDupsInv(cmp, xs, Feed(NoDups(cmp), xs))
    decreases |xs|
  {
    if xs != [] {
      var p := xs[..|xs| - 1];
      SnocLast(xs);
      NoDupsFeed(cmp, p);
      NoDupsStep(cmp, p, Last(xs));
    }
  }

  /** noDups() writes exactly the records that form a group on their own, the first and last groups included. */
  lemma {:induction false} NoDupsKeepsSingles(cmp: Comparator, xs: seq<Record>)
    requires ValidComparator(cmp)
    ensures Run(NoDups(cmp), xs) == EachGroup(Groups(cmp, xs), IfSingle)
  {
    NoDupsFeed(cmp, xs);
    var gs := Groups(cmp, xs);
    if xs != [] {
      var l := Last(gs);
      EachGroupSnoc(Closed(gs), l, IfSingle);
      assert Closed(gs) + [l] == gs;
      if |l| == 1 {
        assert l == [l[0]];
      }
    }
  }

  // ---------------------------------------------------------------- firstDup

  /** FirstDupReorgWriter: cache holds the previous record, isGarbage says the group's first record is already written. */
  datatype FirstDupState = FirstDupState(cache: Option<Record>, isGarbage: bool)

  function FirstDupReduce(cmp: Comparator, s: FirstDupState, line: Record): (FirstDupState, Option<Record>)
  {
    if s.cache.None? || cmp(s.cache.value, line) != 0 then (FirstDupState(Some(line), false), None)
    else if s.isGarbage then (FirstDupState(Some(line), true), None)
    else (FirstDupState(Some(line), true), s.cache)
  }

  function FirstDup(cmp: Comparator): Accumulator<FirstDupState>
  {
    Accumulator(FirstDupState(None, false), (s, line) => FirstDupReduce(cmp, s, line), s => None)
  }

  ghost predicate FirstDupInv(cmp: Comparator, xs: seq<Record>, r: (FirstDupState, seq<Record>))
  {
    var gs := Groups(cmp, xs);
    && (if xs == [] then r.0.cache == None && !r.0.isGarbage
        else r.0.cache == Some(Last(xs)) && (r.0.isGarbage <==> |Last(gs)| >= 2))
    && r.1 == EachGroup(gs, FirstDupOf)
  }

  lemma {:induction false} FirstDupStep(cmp: Comparator, xs: seq<Record>, x: Record)
    requires FirstDupInv(cmp, xs, Feed(FirstDup(cmp), xs))
    ensures FirstDupInv(cmp, xs + [x], Feed(FirstDup(cmp), xs + [x]))
  {
    if xs == [] || cmp(Last(xs), x) != 0 {
      FirstDupNewGroup(cmp, xs, x);
    } else {
      FirstDupSameGroup(cmp, xs, x);
    }
  }

  lemma {:induction false} FirstDupNewGroup(cmp: Comparator, xs: seq<Record>, x: Record)
    requires xs == [] || cmp(Last(xs), x) != 0
    requires FirstDupInv(cmp, xs, Feed(FirstDup(cmp), xs))
    ensures FirstDupInv(cmp, xs + [x], Feed(FirstDup(cmp), xs + [x]))
  {
    FeedSnoc(FirstDup(cmp), FirstDup(cmp).init, xs, x);
    EachGroupOnSnoc(cmp, xs, x, FirstDupOf);
    var s := Feed(FirstDup(cmp), xs).0;
    assert FirstDupReduce(cmp, s, x) == (FirstDupState(Some(x), false), None);
  }

  lemma {:induction false} FirstDupSameGroup(cmp: Comparator, xs: seq<Record>, x: Record)
    requires xs != [] && cmp(Last(xs), x) == 0
    requires FirstDupInv(cmp, xs, Feed(FirstDup(cmp), xs))
    ensures FirstDupInv(cmp, xs + [x], Feed(FirstDup(cmp), xs + [x]))
  {
    FeedSnoc(FirstDup(cmp), FirstDup(cmp).init, xs, x);
    EachGroupOnSnoc(cmp, xs, x, FirstDupOf);
    var s := Feed(FirstDup(cmp), xs).0;
    var gs := Groups(cmp, xs);
    var l := Last(gs);
    SplitLast(gs, FirstDupOf);
    if |l| >= 2 {
      assert FirstDupReduce(cmp, s, x) == (FirstDupState(Some(x), true), None);
    } else {
      assert FirstDupReduce(cmp, s, x) == (FirstDupState(Some(x), true), Some(Last(xs)));
      assert l[0] == Last(xs);
    }
  }

  lemma {:induction false} FirstDupFeed(cmp: Comparator, xs: seq<Record>)
    ensures FirstDupInv(cmp, xs, Feed(FirstDup(cmp), xs))
    decreases |xs|
  {
    if xs != [] {
      var p := xs[..|xs| - 1];
      SnocLast(xs);
      FirstDupFeed(cmp, p);
      FirstDupStep(cmp, p, Last(xs));
    }
  }

  /** firstDup() writes the first record of every group of two or more. */
  lemma {:induction false} FirstDupKeepsFirstOfDuplicates(cmp: Comparator, xs: seq<Record>)
    ensures Run(FirstDup(cmp), xs) == EachGroup(Groups(cmp, xs), FirstDupOf)
  {
    FirstDupFeed(cmp, xs);
  }

  // ---------------------------------------------------------------- lastDup

  /** LastDupReorgWriter: cache holds the previous record, isGarbage says its group has only one record so far. */
  datatype LastDupState = LastDupState(cache: Option<Record>, isGarbage: bool)

  function LastDupReduce(cmp: Comparator, s: LastDupState, line: Record): (LastDupState, Option<Record>)
  {
    if s.cache.None? then (LastDupState(Some(line), true), None)
    else if cmp(s.cache.value, line) == 0 then (LastDupState(Some(line), false), None)
    else if s.isGarbage then (LastDupState(Some(line), true), None)
    else (LastDupState(Some(line), true), s.cache)
  }

  function LastDupFlush(s: LastDupState): Option<Record>
  {
    if s.isGarbage then None else s.cache
  }

  function LastDup(cmp: Comparator): Accumulator<LastDupState>
  {
    Accumulator(LastDupState(None, false), (s, line) => LastDupReduce(cmp, s, line), LastDupFlush)
  }

  ghost predicate LastDupInv(cmp: Comparator, xs: seq<Record>, r: (LastDupState, seq<Record>))
  {
    var gs := Groups(cmp, xs);
    && (if xs == [] then r.0.cache == None && !r.0.isGarbage
        else r.0.cache == Some(Last(xs)) && (r.0.isGarbage <==> |Last(gs)| == 1))
    && r.1 == EachGroup(Closed(gs), LastDupOf)
  }

  lemma {:induction false} LastDupStep(cmp: Comparator, xs: seq<Record>, x: Record)
    requires LastDupInv(cmp, xs, Feed(LastDup(cmp), xs))
    ensures LastDupInv(cmp, xs + [x], Feed(LastDup(cmp), xs + [x]))
  {
    if xs == [] {
      assert xs + [x] == [x];
      LastDupFirstRecord(cmp, x);
    } else if cmp(Last(xs), x) != 0 {
      LastDupNewGroup(cmp, xs, x);
    } else {
      LastDupSameGroup(cmp, xs, x);
    }
  }

  lemma {:induction false} LastDupFirstRecord(cmp: Comparator, x: Record)
    ensures LastDupInv(cmp, [x], Feed(LastDup(cmp), [x]))
  {
    var acc := LastDup(cmp);
    FeedSnoc(acc, acc.init, [], x);
    assert [] + [x] == [x];
    assert LastDupReduce(cmp, acc.init, x) == (LastDupState(Some(x), true), None);
    assert Feed(acc, [x]) == (LastDupState(Some(x), true), []);
    GroupsSnoc(cmp, [], x);
    assert Groups(cmp, [x]) == [[x]];
  }

  lemma {:induction false} LastDupSameGroup(cmp: Comparator, xs: seq<Record>, x: Record)
    requires xs != [] && cmp(Last(xs), x) == 0
    requires LastDupInv(cmp, xs, Feed(LastDup(cmp), xs))
    ensures LastDupInv(cmp, xs + [x], Feed(LastDup(cmp), xs + [x]))
  {
    var acc := LastDup(cmp);
    var r := Feed(acc, xs);
    FeedSnoc(acc, acc.init, xs, x);
    assert LastDupReduce(cmp, r.0, x) == (LastDupState(Some(x), false), None);
    assert r.1 + [] == r.1;
    assert Feed(acc, xs + [x]) == (LastDupState(Some(x), false), r.1);
    EachGroupOnSnoc(cmp, xs, x, LastDupOf);
    var gs := Groups(cmp, xs);
    var gs' := Groups(cmp, xs + [x]);
    assert Closed(gs') == Closed(gs);
    assert Last(gs') == Last(gs) + [x];
  }

  lemma {:induction false} LastDupNewGroup(cmp: Comparator, xs: seq<Record>, x: Record)
    requires xs != [] && cmp(Last(xs), x) != 0
    requires LastDupInv(cmp, xs, Feed(LastDup(cmp), xs))
    ensures LastDupInv(cmp, xs + [x], Feed(LastDup(cmp), xs + [x]))
  {
    FeedSnoc(LastDup(cmp), LastDup(cmp).init, xs, x);
    EachGroupOnSnoc(cmp, xs, x, LastDupOf);
    var s := Feed(LastDup(cmp), xs).0;
    var gs := Groups(cmp, xs);
    var l := Last(gs);
    assert LastDupReduce(cmp, s, x) == (LastDupState(Some(x), true), if |l| == 1 then None else Some(Last(xs)));
    SplitLast(gs, LastDupOf);
  }

  lemma {:induction false} LastDupFeed(cmp: Comparator, xs: seq<Record>)
    ensures LastDupInv(cmp, xs, Feed(LastDup(cmp), xs))
    decreases |xs|
  {
    if xs != [] {
      var p := xs[..|xs| - 1];
      SnocLast(xs);
      LastDupFeed(cmp, p);
      LastDupStep(cmp, p, Last(xs));
    }
  }

  /** lastDup() writes the last record of every group of two or more, the final one from flush. */
  lemma {:induction false} LastDupKeepsLastOfDuplicates(cmp: Comparator, xs: seq<Record>)
    ensures Run(LastDup(cmp), xs) == EachGroup(Groups(cmp, xs), LastDupOf)
  {
    LastDupFeed(cmp, xs);
    var gs := Groups(cmp, xs);
    if xs != [] {
      EachGroupSnoc(Closed(gs), Last(gs), LastDupOf);
      assert Closed(gs) + [Last(gs)] == gs;
    }
  }
}
