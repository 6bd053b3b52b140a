/**
 * SumFields rules and the sum() adapter that drives them.
 *
 * A rule is an object with mutable fields; here its fields are a state of
 * type A that reset and add transform and getSummary reads. The adapter
 * remembers the first record of the current group, calls reset once when a
 * group opens, add on every record, and getSummary on the group's first
 * record when the group closes.
 */
module SumFields {
  import opened Wrappers
  import opened Ordering
  import opened Seqs
  import opened Grouping
  import opened Accumulators
  import Operators

  /** A SumFields rule; start is the state of a freshly built rule object. */
  datatype SumRule<!A> = SumRule(start: A, reset: A -> A, add: (A, Record) -> A, summary: (A, Record) -> Record)

  /** The adapter's fields: the first record of the current group (null before the first record) and the rule's state. */
  datatype SumState<A> = SumState(cache: Option<Record>, rule: A)

  function SumReduce<A>(cmp: Comparator, rule: SumRule<A>, s: SumState<A>, line: Record): (SumState<A>, Option<Record>)
  {
    if s.cache.None? then (SumState(Some(line), rule.add(rule.reset(s.rule), line)), None)
    else if cmp(s.cache.value, line) == 0 then (SumState(s.cache, rule.add(s.rule, line)), None)
    else (SumState(Some(line), rule.add(rule.reset(s.rule), line)), Some(rule.summary(s.rule, s.cache.value)))
  }

  function SumFlush<A>(rule: SumRule<A>, s: SumState<A>): Option<Record>
  {
    match s.cache
    case None => None
    case Some(first) => Some(rule.summary(s.rule, first))
  }

  /** sum(rule) as an accumulator. */
  function Sum<A>(cmp: Comparator, rule: SumRule<A>): Accumulator<SumState<A>>
  {
    Accumulator(SumState(None, rule.start), (s, line) => SumReduce(cmp, rule, s, line), s => SumFlush(rule, s))
  }

  /** The rule's state after add on each record of g, in order. */
  function AddAll<A>(rule: SumRule<A>, a: A, g: seq<Record>): A
    decreases |g|
  {
    if g == [] then a else rule.add(AddAll(rule, a, g[..|g| - 1]), Last(g))
  }

  /**
   * The group specification of sum(): for each group in turn the state is
   * reset once, every record of the group is added, and the summary of the
   * resulting state is taken against the group's first record. Returns the
   * final state and the summaries.
   */
  function SumSpec<A>(rule: SumRule<A>, gs: seq<seq<Record>>): (A, seq<Record>)
    decreases |gs|
  {
    if gs == [] then (rule.start, [])
    else
      var (a, outs) := SumSpec(rule, gs[..|gs| - 1]);
      var a' := AddAll(rule, rule.reset(a), Last(gs));
      (a', outs + if Last(gs) == [] then [] else [rule.summary(a', Last(gs)[0])])
  }

  lemma {:induction false} SumSpecSnoc<A>(rule: SumRule<A>, gs: seq<seq<Record>>, g: seq<Record>)
    requires g != []
    ensures var (a, outs) := SumSpec(rule, gs);
      var a' := AddAll(rule, rule.reset(a), g);
      SumSpec(rule, gs + [g]) == (a', outs + [rule.summary(a', g[0])])
  {
    assert (gs + [g])[..|gs|] == gs;
  }

  lemma {:induction false} AddAllSnoc<A>(rule: SumRule<A>, a: A, g: seq<Record>, x: Record)
    ensures AddAll(rule, a, g + [x]) == rule.add(AddAll(rule, a, g), x)
  {
    assert (g + [x])[..|g|] == g;
  }

  ghost predicate SumInv<A>(cmp: Comparator, rule: SumRule<A>, xs: seq<Record>, r: (SumState<A>, seq<Record>))
  {
    var gs := Groups(cmp, xs);
    if xs == [] then r.0.cache == None && r.0.rule == rule.start && r.1 == []
    else
      && r.0.cache == Some(Last(gs)[0])
      && r.0.rule == SumSpec(rule, gs).0
      && r.1 == SumSpec(rule, Operators.Closed(gs)).1
  }

  lemma {:induction false} SumFirstRecord<A>(cmp: Comparator, rule: SumRule<A>, x: Record)
    ensures SumInv(cmp, rule, [x], Feed(Sum(cmp, rule), [x]))
  {
    var acc := Sum(cmp, rule);
    FeedSnoc(acc, acc.init, [], x);
    assert [] + [x] == [x];
    assert SumReduce(cmp, rule, acc.init, x) == (SumState(Some(x), rule.add(rule.reset(rule.start), x)), None);
    GroupsSnoc(cmp, [], x);
    SumSpecSnoc(rule, [], [x]);
    AddAllSnoc(rule, rule.reset(rule.start), [], x);
    assert [] + [[x]] == [[x]];
  }

  lemma {:induction false} SumSameGroup<A>(cmp: Comparator, rule: SumRule<A>, xs: seq<Record>, x: Record)
    requires xs != [] && cmp(Last(xs), x) == 0 && cmp(Last(Groups(cmp, xs))[0], x) == 0
    requires SumInv(cmp, rule, xs, Feed(Sum(cmp, rule), xs))
    ensures SumInv(cmp, rule, xs + [x], Feed(Sum(cmp, rule), xs + [x]))
  {
    var acc := Sum(cmp, rule);
    var r := Feed(acc, xs);
    var gs := Groups(cmp, xs);
    var l := Last(gs);
    var s' := SumState(r.0.cache, rule.add(r.0.rule, x));
    assert SumReduce(cmp, rule, r.0, x) == (s', None);
    FeedSnoc(acc, acc.init, xs, x);
    assert r.1 + [] == r.1;
    assert Feed(acc, xs + [x]) == (s', r.1);
    EachGroupOnSnoc(cmp, xs, x, FirstOf);
    var gs' := Groups(cmp, xs + [x]);
    var closed := Operators.Closed(gs);
    Operators.SplitLast(gs, FirstOf);
    Operators.SplitLast(gs', FirstOf);
    assert Operators.Closed(gs') == closed;
    assert gs' == closed + [l + [x]];
    var a := SumSpec(rule, closed).0;
    SumSpecSnoc(rule, closed, l);
    SumSpecSnoc(rule, closed, l + [x]);
    AddAllSnoc(rule, rule.reset(a), l, x);
    assert SumSpec(rule, gs').0 == s'.rule;
    assert Last(gs')[0] == l[0];
  }

  lemma {:induction false} SumNewGroup<A>(cmp: Comparator, rule: SumRule<A>, xs: seq<Record>, x: Record)
    requires xs != [] && cmp(Last(xs), x) != 0 && cmp(Last(Groups(cmp, xs))[0], x) != 0
    requires SumInv(cmp, rule, xs, Feed(Sum(cmp, rule), xs))
    ensures SumInv(cmp, rule, xs + [x], Feed(Sum(cmp, rule), xs + [x]))
  {
    var acc := Sum(cmp, rule);
    var r := Feed(acc, xs);
    var gs := Groups(cmp, xs);
    var l := Last(gs);
    var a := r.0.rule;
    assert SumReduce(cmp, rule, r.0, x) == (SumState(Some(x), rule.add(rule.reset(a), x)), Some(rule.summary(a, l[0])));
    FeedSnoc(acc, acc.init, xs, x);
    assert Feed(acc, xs + [x]) == (SumState(Some(x), rule.add(rule.reset(a), x)), r.1 + [rule.summary(a, l[0])]);
    EachGroupOnSnoc(cmp, xs, x, FirstOf);
    Operators.SplitLast(gs, FirstOf);
    SumSpecSnoc(rule, Operators.Closed(gs), l);
    SumSpecSnoc(rule, gs, [x]);
    AddAllSnoc(rule, rule.reset(a), [], x);
    assert [] + [x] == [x];
  }

  lemma {:induction false} SumFeed<A>(cmp: Comparator, rule: SumRule<A>, xs: seq<Record>)
    requires ValidComparator(cmp)
    ensures SumInv(cmp, rule, xs, Feed(Sum(cmp, rule), xs))
    decreases |xs|
  {
    if xs != [] {
      var p := xs[..|xs| - 1];
      var x := Last(xs);
      SnocLast(xs);
      SumFeed(cmp, rule, p);
      if p == [] {
        SumFirstRecord(cmp, rule, x);
      } else {
        SameGroupAsHead(cmp, p, x);
        if cmp(Last(p), x) == 0 {
          SumSameGroup(cmp, rule, p, x);
        } else {
          SumNewGroup(cmp, rule, p, x);
        }
      }
    }
  }

  /**
   * sum(rule) writes one summary per group, in order: reset once when the
   * group opens, add on each of its records, getSummary on its first record.
   */
  lemma {:induction false} SumSummarisesGroups<A>(cmp: Comparator, rule: SumRule<A>, xs: seq<Record>)
    requires ValidComparator(cmp)
    ensures Run(Sum(cmp, rule), xs) == SumSpec(rule, Groups(cmp, xs)).1
  {
    SumFeed(cmp, rule, xs);
    var gs := Groups(cmp, xs);
    if xs != [] {
      Operators.SplitLast(gs, FirstOf);
      SumSpecSnoc(rule, Operators.Closed(gs), Last(gs));
    }
  }

  // ---------------------------------------------------------------- the calls a rule sees

  /** One call the adapter makes on its rule. */
  datatype Call = Reset | Add(line: Record)

  /** A rule that logs each reset and add call. */
  function Logger(): SumRule<seq<Call>>
  {
    SumRule([], log => log + [Reset], (log, line) => log + [Add(line)], (log, line) => line)
  }

  /** The calls one group should cause: one reset, then one add per record, in order. */
  function GroupCalls(g: seq<Record>): (calls: seq<Call>)
    ensures |calls| == |g| + 1
    ensures calls[0] == Reset
    ensures forall i :: 0 <= i < |g| ==> calls[i + 1] == Add(g[i])
  {
    [Reset] + seq(|g|, i requires 0 <= i < |g| => Add(g[i]))
  }

  function CallsOf(gs: seq<seq<Record>>): seq<Call>
    decreases |gs|
  {
    if gs == [] then [] else CallsOf(gs[..|gs| - 1]) + GroupCalls(Last(gs))
  }

  lemma {:induction false} LoggerAddAll(log: seq<Call>, g: seq<Record>)
    ensures AddAll(Logger(), log, g) == log + GroupCalls(g)[1..]
    decreases |g|
  {
    if g != [] {
      var g' := g[..|g| - 1];
      LoggerAddAll(log, g');
      assert GroupCalls(g)[1..] == GroupCalls(g')[1..] + [Add(Last(g))];
    } else {
      assert GroupCalls(g)[1..] == [];
    }
  }

  /**
   * Over the whole stream the rule sees, group after group, exactly one
   * reset followed by one add per record of the group, in order.
   */
  lemma {:induction false} ResetOncePerGroup(gs: seq<seq<Record>>)
    ensures SumSpec(Logger(), gs).0 == CallsOf(gs)
    decreases |gs|
  {
    if gs != [] {
      var init := gs[..|gs| - 1];
      var g := Last(gs);
      ResetOncePerGroup(init);
      var log := CallsOf(init);
      LoggerAddAll(log + [Reset], g);
      assert GroupCalls(g) == [Reset] + GroupCalls(g)[1..];
      Associative(log, [Reset], GroupCalls(g)[1..]);
    }
  }

  /**
   * Fed through the adapter, a logging rule ends up with one reset followed by
   * one add per record for every group of the input, in order, and no other
   * reset or add.
   */
  lemma {:induction false} SumCallsResetThenAdds(cmp: Comparator, xs: seq<Record>)
    requires ValidComparator(cmp)
    ensures Feed(Sum(cmp, Logger()), xs).0.rule == CallsOf(Groups(cmp, xs))
  {
    SumFeed(cmp, Logger(), xs);
    ResetOncePerGroup(Groups(cmp, xs));
  }

  /** Each group's summary, one summary per non-empty group. */
  lemma {:induction false} SumSpecLength<A>(rule: SumRule<A>, gs: seq<seq<Record>>)
    requires forall i :: 0 <= i < |gs| ==> gs[i] != []
    ensures |SumSpec(rule, gs).1| == |gs|
    decreases |gs|
  {
    if gs != [] {
      var init := gs[..|gs| - 1];
      assert forall i :: 0 <= i < |init| ==> init[i] == gs[i];
      SumSpecLength(rule, init);
    }
  }

  /** The adapter calls getSummary, and writes, exactly once per group. */
  lemma {:induction false} SumWritesOnePerGroup<A>(cmp: Comparator, rule: SumRule<A>, xs: seq<Record>)
    requires ValidComparator(cmp)
    ensures |Run(Sum(cmp, rule), xs)| == |Groups(cmp, xs)|
  {
    SumSummarisesGroups(cmp, rule, xs);
    GroupsIsGrouping(cmp, xs);
    SumSpecLength(rule, Groups(cmp, xs));
  }

  // ---------------------------------------------------------------- none()

  /** SumFields.none(): reset and add do nothing, getSummary returns the record it is given. */
  function NoneRule(): SumRule<()>
  {
    SumRule((), a => a, (a, line) => a, (a, line) => line)
  }

  lemma {:induction false} NoneSummarisesFirsts(gs: seq<seq<Record>>)
    requires forall i :: 0 <= i < |gs| ==> gs[i] != []
    ensures SumSpec(NoneRule(), gs).1 == EachGroup(gs, FirstOf)
    decreases |gs|
  {
    if gs != [] {
      var init := gs[..|gs| - 1];
      assert forall i :: 0 <= i < |init| ==> init[i] == gs[i];
      NoneSummarisesFirsts(init);
      assert gs == init + [Last(gs)];
      SumSpecSnoc(NoneRule(), init, Last(gs));
      EachGroupSnoc(init, Last(gs), FirstOf);
    }
  }

  /** sum(SumFields.none()) writes the same records as first(). */
  lemma {:induction false} SumNoneIsFirst(cmp: Comparator, xs: seq<Record>)
    requires ValidComparator(cmp)
    ensures Run(Sum(cmp, NoneRule()), xs) == Run(Operators.First(cmp), xs)
  {
    SumSummarisesGroups(cmp, NoneRule(), xs);
    GroupsIsGrouping(cmp, xs);
    NoneSummarisesFirsts(Groups(cmp, xs));
    Operators.FirstKeepsGroupHeads(cmp, xs);
  }
}
