/**
 * The GroupCount example, written once as a SumFields rule (reset sets the
 * count to 0, add increments it, getSummary writes key + "%03d" count) and
 * once as a hand-written RecordAccumulator, with the 3-character key
 * comparator the examples sort by. Both write one "key + count" record per
 * group.
 */
module GroupCount {
  import opened Wrappers
  import opened Ordering
  import opened Seqs
  import opened Grouping
  import opened Accumulators
  import Operators
  import opened SumFields

  /** keyOf: the first three characters of the record (the whole record when it is shorter). */
  function Prefix3(s: Record): (k: Record)
    ensures |k| == if |s| >= 3 then 3 else |s|
    ensures k <= s
  {
    if |s| >= 3 then s[..3] else s
  }

  /** The examples' comparator: the keys compared with String.compareTo. */
  function KeyCompare(a: Record, b: Record): int
  {
    NaturalCompare(Prefix3(a), Prefix3(b))
  }

  lemma {:induction false} KeyCompareIsValid()
    ensures ValidComparator(KeyCompare)
    ensures forall a, b :: KeyCompare(a, b) == 0 <==> Prefix3(a) == Prefix3(b)
  {
    forall a, b ensures Sign(KeyCompare(a, b)) == -Sign(KeyCompare(b, a)) {
      NaturalAntisymmetric(Prefix3(a), Prefix3(b));
    }
    forall a, b, c | Le(KeyCompare, a, b) && Le(KeyCompare, b, c)
      ensures Le(KeyCompare, a, c)
    {
      NaturalTransitive(Prefix3(a), Prefix3(b), Prefix3(c));
    }
    forall a, b ensures KeyCompare(a, b) == 0 <==> Prefix3(a) == Prefix3(b) {
      NaturalZeroIffEqual(Prefix3(a), Prefix3(b));
    }
  }

  // ---------------------------------------------------------------- "%03d"

  function Digit(d: nat): char
    requires d < 10
  {
    ('0' as int + d) as char
  }

  /** The decimal digits of n, without leading zeros ("0" for zero). */
  function Decimal(n: nat): (s: string)
    ensures 1 <= |s|
    ensures forall i :: 0 <= i < |s| ==> '0' <= s[i] <= '9'
    decreases n
  {
    if n < 10 then [Digit(n)] else Decimal(n / 10) + [Digit(n % 10)]
  }

  function Zeros(k: nat): (s: string)
    ensures |s| == k
    ensures forall i :: 0 <= i < k ==> s[i] == '0'
  {
    seq(k, i => '0')
  }

  /** String.format("%03d", n) for a count n >= 0: its decimal digits, left-padded with zeros to three characters. */
  function Pad3(n: nat): (s: string)
    ensures |s| == if |Decimal(n)| < 3 then 3 else |Decimal(n)|
    ensures n < 1000 ==> |s| == 3
  {
    DecimalLength(n);
    Zeros(if |Decimal(n)| < 3 then 3 - |Decimal(n)| else 0) + Decimal(n)
  }

  lemma {:induction false} DecimalLength(n: nat)
    ensures n < 10 ==> |Decimal(n)| == 1
    ensures n < 100 ==> |Decimal(n)| <= 2
    ensures n < 1000 ==> |Decimal(n)| <= 3
  {
    if n >= 10 {
      DecimalLength(n / 10);
    }
  }

  /** The value of a string of decimal digits, leading zeros allowed (Integer.parseInt on a digit string). */
  function DigitsValue(s: string): int
    decreases |s|
  {
    if s == [] then 0 else DigitsValue(s[..|s| - 1]) * 10 + (Last(s) as int - '0' as int)
  }

  lemma {:induction false} DecimalValue(n: nat)
    ensures DigitsValue(Decimal(n)) == n
    decreases n
  {
    if n >= 10 {
      DecimalValue(n / 10);
      var s := Decimal(n / 10) + [Digit(n % 10)];
      assert s[..|s| - 1] == Decimal(n / 10);
    }
  }

  lemma {:induction false} LeadingZerosValue(k: nat, s: string)
    ensures DigitsValue(Zeros(k) + s) == DigitsValue(s)
    decreases |s|
  {
    if s == [] {
      assert Zeros(k) + s == Zeros(k);
      ZerosValue(k);
    } else {
      var t := Zeros(k) + s;
      assert t[..|t| - 1] == Zeros(k) + s[..|s| - 1];
      LeadingZerosValue(k, s[..|s| - 1]);
    }
  }

  lemma {:induction false} ZerosValue(k: nat)
    ensures DigitsValue(Zeros(k)) == 0
    decreases k
  {
    if k > 0 {
      assert Zeros(k)[..k - 1] == Zeros(k - 1);
      ZerosValue(k - 1);
    }
  }

  /** Reading back the padded count gives the count: the padding loses nothing. */
  lemma {:induction false} Pad3RoundTrip(n: nat)
    ensures DigitsValue(Pad3(n)) == n
  {
    DecimalValue(n);
    LeadingZerosValue(if |Decimal(n)| < 3 then 3 - |Decimal(n)| else 0, Decimal(n));
  }

  // ---------------------------------------------------------------- as a SumFields rule

  /** GroupCount2: reset sets count to 0, add increments it, getSummary writes keyOf(line) + "%03d" count. */
  function CountRule(): SumRule<nat>
  {
    SumRule(0, count => 0, (count, line) => count + 1, (count, line) => Prefix3(line) + Pad3(count))
  }

  /** What GroupCount writes for one group: its key followed by its size. */
  function CountOf(g: seq<Record>): (r: seq<Record>)
    ensures g != [] ==> r == [Prefix3(g[0]) + Pad3(|g|)]
  {
    if g == [] then [] else [Prefix3(g[0]) + Pad3(|g|)]
  }

  lemma {:induction false} CountAddAll(a: nat, g: seq<Record>)
    ensures AddAll(CountRule(), a, g) == a + |g|
    decreases |g|
  {
    if g != [] {
      CountAddAll(a, g[..|g| - 1]);
    }
  }

  lemma {:induction false} CountRuleCountsGroups(gs: seq<seq<Record>>)
    requires forall i :: 0 <= i < |gs| ==> gs[i] != []
    ensures SumSpec(CountRule(), gs).1 == EachGroup(gs, CountOf)
    decreases |gs|
  {
    if gs != [] {
      var init := gs[..|gs| - 1];
      assert forall i :: 0 <= i < |init| ==> init[i] == gs[i];
      CountRuleCountsGroups(init);
      assert gs == init + [Last(gs)];
      SumSpecSnoc(CountRule(), init, Last(gs));
      EachGroupSnoc(init, Last(gs), CountOf);
      CountAddAll(0, Last(gs));
    }
  }

  /** sum(new GroupCount2()) writes key + count for every group. */
  lemma {:induction false} SumCountWritesCounts(xs: seq<Record>)
    ensures Run(Sum(KeyCompare, CountRule()), xs) == EachGroup(Groups(KeyCompare, xs), CountOf)
  {
    KeyCompareIsValid();
    SumSummarisesGroups(KeyCompare, CountRule(), xs);
    GroupsIsGrouping(KeyCompare, xs);
    CountRuleCountsGroups(Groups(KeyCompare, xs));
  }

  // ---------------------------------------------------------------- as a RecordAccumulator

  /** GroupCount's fields: count starts at 0, cacheKey at null. */
  datatype CounterState = CounterState(count: nat, cacheKey: Option<Record>)

  function CounterReduce(s: CounterState, line: Record): (CounterState, Option<Record>)
  {
    var key := Prefix3(line);
    if s.cacheKey.None? then (CounterState(s.count + 1, Some(key)), None)
    else if NaturalCompare(s.cacheKey.value, key) == 0 then (CounterState(s.count + 1, s.cacheKey), None)
    else (CounterState(1, Some(key)), Some(s.cacheKey.value + Pad3(s.count)))
  }

  /** flush: cacheKey + "%03d" count, where a null cacheKey prints as "null". */
  function CounterFlush(s: CounterState): Option<Record>
  {
    Some((if s.cacheKey.None? then "null" else s.cacheKey.value) + Pad3(s.count))
  }

  function Counter(): Accumulator<CounterState>
  {
    Accumulator(CounterState(0, None), CounterReduce, CounterFlush)
  }

  ghost predicate CounterInv(xs: seq<Record>, r: (CounterState, seq<Record>))
  {
    var gs := Groups(KeyCompare, xs);
    if xs == [] then r.0 == CounterState(0, None) && r.1 == []
    else
      && r.0.cacheKey == Some(Prefix3(Last(gs)[0]))
      && r.0.count == |Last(gs)|
      && r.1 == EachGroup(Operators.Closed(gs), CountOf)
  }

  lemma {:induction false} CounterFirstRecord(x: Record)
    ensures CounterInv([x], Feed(Counter(), [x]))
  {
    FeedSnoc(Counter(), Counter().init, [], x);
    assert [] + [x] == [x];
    assert CounterReduce(Counter().init, x) == (CounterState(1, Some(Prefix3(x))), None);
    GroupsSnoc(KeyCompare, [], x);
    assert [] + [[x]] == [[x]];
  }

  lemma {:induction false} CounterSameGroup(xs: seq<Record>, x: Record)
    requires xs != [] && Prefix3(Last(Groups(KeyCompare, xs))[0]) == Prefix3(x)
    requires KeyCompare(Last(xs), x) == 0
    requires CounterInv(xs, Feed(Counter(), xs))
    ensures CounterInv(xs + [x], Feed(Counter(), xs + [x]))
  {
    var r := Feed(Counter(), xs);
    var s' := CounterState(r.0.count + 1, r.0.cacheKey);
    NaturalZeroIffEqual(r.0.cacheKey.value, Prefix3(x));
    assert CounterReduce(r.0, x) == (s', None);
    FeedSnoc(Counter(), Counter().init, xs, x);
    assert r.1 + [] == r.1;
    assert Feed(Counter(), xs + [x]) == (s', r.1);
    EachGroupOnSnoc(KeyCompare, xs, x, CountOf);
    var gs := Groups(KeyCompare, xs);
    var gs' := Groups(KeyCompare, xs + [x]);
    Operators.SplitLast(gs, CountOf);
    Operators.SplitLast(gs', CountOf);
  }

  lemma {:induction false} CounterNewGroup(xs: seq<Record>, x: Record)
    requires xs != [] && Prefix3(Last(Groups(KeyCompare, xs))[0]) != Prefix3(x)
    requires KeyCompare(Last(xs), x) != 0
    requires CounterInv(xs, Feed(Counter(), xs))
    ensures CounterInv(xs + [x], Feed(Counter(), xs + [x]))
  {
    var r := Feed(Counter(), xs);
    var gs := Groups(KeyCompare, xs);
    var l := Last(gs);
    var s' := CounterState(1, Some(Prefix3(x)));
    NaturalZeroIffEqual(r.0.cacheKey.value, Prefix3(x));
    assert CounterReduce(r.0, x) == (s', Some(Prefix3(l[0]) + Pad3(|l|)));
    FeedSnoc(Counter(), Counter().init, xs, x);
    assert Feed(Counter(), xs + [x]) == (s', r.1 + [Prefix3(l[0]) + Pad3(|l|)]);
    EachGroupOnSnoc(KeyCompare, xs, x, CountOf);
    Operators.SplitLast(gs, CountOf);
  }

  lemma {:induction false} CounterFeed(xs: seq<Record>)
    ensures CounterInv(xs, Feed(Counter(), xs))
    decreases |xs|
  {
    if xs != [] {
      var p := xs[..|xs| - 1];
      var x := Last(xs);
      SnocLast(xs);
      CounterFeed(p);
      if p == [] {
        CounterFirstRecord(x);
      } else {
        KeyCompareIsValid();
        SameGroupAsHead(KeyCompare, p, x);
        if KeyCompare(Last(p), x) == 0 {
          CounterSameGroup(p, x);
        } else {
          CounterNewGroup(p, x);
        }
      }
    }
  }

  /**
   * The hand-written GroupCount writes key + count for every group; on an
   * empty stream its flush still writes "null000".
   */
  lemma {:induction false} CounterWritesCounts(xs: seq<Record>)
    ensures xs != [] ==> Run(Counter(), xs) == EachGroup(Groups(KeyCompare, xs), CountOf)
    ensures xs == [] ==> Run(Counter(), xs) == ["null000"]
  {
    CounterFeed(xs);
    var gs := Groups(KeyCompare, xs);
    if xs != [] {
      Operators.SplitLast(gs, CountOf);
    } else {
      assert Decimal(0) == "0";
      assert Zeros(2) == "00";
      assert Pad3(0) == "000";
      assert "null" + "000" == "null000";
      assert CounterFlush(Counter().init) == Some("null000");
    }
  }

  /** On any non-empty stream the two ways of writing GroupCount agree. */
  lemma {:induction false} CountersAgree(xs: seq<Record>)
    requires xs != []
    ensures Run(Counter(), xs) == Run(Sum(KeyCompare, CountRule()), xs)
  {
    CounterWritesCounts(xs);
    SumCountWritesCounts(xs);
  }
}
