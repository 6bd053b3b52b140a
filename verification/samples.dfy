/**
 * The worked examples: the seven- and nine-record files sorted by their
 * 3-character key, and what each reduction operator writes for them.
 */
module Samples {
  import opened Ordering
  import opened Seqs
  import opened Grouping
  import opened Accumulators
  import opened Operators
  import opened SumFields
  import opened GroupCount
  import opened Wrappers
  import Merging
  import Splitting
  import Engine

  const Seven: seq<Record> := ["001001", "001002", "002003", "003004", "004005", "004006", "004007"]

  const SevenGroups: seq<seq<Record>> := [["001001", "001002"], ["002003"], ["003004"], ["004005", "004006", "004007"]]

  const Nine: seq<Record> := ["000000"] + Seven + ["005008"]

  const NineGroups: seq<seq<Record>> := [["000000"]] + SevenGroups + [["005008"]]

  /** How the adjacent sample records compare under the key comparator. */
  lemma {:induction false} SampleKeys()
    ensures KeyCompare("001001", "001002") == 0
    ensures KeyCompare("004005", "004006") == 0 && KeyCompare("004006", "004007") == 0
    ensures KeyCompare("000000", "001001") != 0 && KeyCompare("001002", "002003") != 0
    ensures KeyCompare("002003", "003004") != 0 && KeyCompare("003004", "004005") != 0
    ensures KeyCompare("004007", "005008") != 0
  {
    KeyCompareIsValid();
    assert Prefix3("000000") == "000" && Prefix3("005008") == "005";
    assert Prefix3("001001") == "001" && Prefix3("001002") == "001";
    assert Prefix3("002003") == "002" && Prefix3("003004") == "003";
    assert Prefix3("004005") == "004" && Prefix3("004006") == "004" && Prefix3("004007") == "004";
  }

  lemma {:induction false} SevenFlatten()
    ensures Flatten(SevenGroups) == Seven
  {
    var gs := SevenGroups;
    assert Flatten(gs[3..]) == gs[3] + Flatten(gs[4..]);
    assert Flatten(gs[2..]) == gs[2] + Flatten(gs[3..]);
    assert Flatten(gs[1..]) == gs[1] + Flatten(gs[2..]);
  }

  lemma {:induction false} SevenRuns()
    ensures forall i :: 0 <= i < |SevenGroups| ==> SevenGroups[i] != [] && Unbroken(KeyCompare, SevenGroups[i])
  {
    var gs := SevenGroups;
    SampleKeys();
    assert Unbroken(KeyCompare, gs[0]) && Unbroken(KeyCompare, gs[3]);
  }

  lemma {:induction false} SevenCuts()
    ensures forall i :: 0 <= i < |SevenGroups| - 1 ==> Cut(KeyCompare, SevenGroups[i], SevenGroups[i + 1])
  {
    var gs := SevenGroups;
    SampleKeys();
    assert Cut(KeyCompare, gs[0], gs[1]) && Cut(KeyCompare, gs[1], gs[2]) && Cut(KeyCompare, gs[2], gs[3]);
  }

  /** The seven records fall into four key groups: 001, 002, 003 and 004. */
  lemma {:induction false} SevenGrouped()
    ensures Groups(KeyCompare, Seven) == SevenGroups
  {
    SevenFlatten();
    SevenRuns();
    SevenCuts();
    GroupingUnique(KeyCompare, SevenGroups, Seven);
  }

  lemma {:induction false} NineFlatten()
    ensures Flatten(NineGroups) == Nine
  {
    var gs := NineGroups;
    assert gs[1..5] == SevenGroups && gs[5..] == [["005008"]];
    FlattenAppend([["000000"]], SevenGroups + [["005008"]]);
    FlattenAppend(SevenGroups, [["005008"]]);
    assert gs == [["000000"]] + (SevenGroups + [["005008"]]);
    SevenFlatten();
    assert Flatten([["005008"]]) == ["005008"] + Flatten([["005008"]][1..]);
    assert Flatten([["000000"]]) == ["000000"] + Flatten([["000000"]][1..]);
  }

  lemma {:induction false} NineRuns()
    ensures forall i :: 0 <= i < |NineGroups| ==> NineGroups[i] != [] && Unbroken(KeyCompare, NineGroups[i])
  {
    SevenRuns();
    forall i | 0 <= i < |NineGroups| ensures NineGroups[i] != [] && Unbroken(KeyCompare, NineGroups[i]) {
      if 1 <= i <= 4 {
        assert NineGroups[i] == SevenGroups[i - 1];
      }
    }
  }

  lemma {:induction false} NineCuts()
    ensures forall i :: 0 <= i < |NineGroups| - 1 ==> Cut(KeyCompare, NineGroups[i], NineGroups[i + 1])
  {
    SampleKeys();
    SevenCuts();
    forall i | 0 <= i < |NineGroups| - 1 ensures Cut(KeyCompare, NineGroups[i], NineGroups[i + 1]) {
      if 1 <= i <= 3 {
        assert NineGroups[i] == SevenGroups[i - 1] && NineGroups[i + 1] == SevenGroups[i];
      }
    }
  }

  /** The nine records add a singleton group at each end. */
  lemma {:induction false} NineGrouped()
    ensures Groups(KeyCompare, Nine) == NineGroups
  {
    NineFlatten();
    NineRuns();
    NineCuts();
    GroupingUnique(KeyCompare, NineGroups, Nine);
  }

  lemma {:induction false} EachGroupCons(g: seq<Record>, gs: seq<seq<Record>>, pick: seq<Record> -> seq<Record>)
    ensures EachGroup([g] + gs, pick) == pick(g) + EachGroup(gs, pick)
    decreases |gs|
  {
    var all := [g] + gs;
    if gs == [] {
      assert all[..|all| - 1] == [];
    } else {
      var init := gs[..|gs| - 1];
      assert all[..|all| - 1] == [g] + init;
      EachGroupCons(g, init, pick);
    }
  }

  lemma {:induction false} EachGroupOfFour(gs: seq<seq<Record>>, pick: seq<Record> -> seq<Record>)
    requires |gs| == 4
    ensures EachGroup(gs, pick) == pick(gs[0]) + pick(gs[1]) + pick(gs[2]) + pick(gs[3])
  {
    assert gs == [gs[0]] + ([gs[1]] + ([gs[2]] + ([gs[3]] + [])));
    EachGroupCons(gs[3], [], pick);
    EachGroupCons(gs[2], [gs[3]] + [], pick);
    EachGroupCons(gs[1], [gs[2]] + ([gs[3]] + []), pick);
    EachGroupCons(gs[0], [gs[1]] + ([gs[2]] + ([gs[3]] + [])), pick);
  }

  lemma {:induction false} EachGroupOfSix(gs: seq<seq<Record>>, pick: seq<Record> -> seq<Record>)
    requires |gs| == 6
    ensures EachGroup(gs, pick) == pick(gs[0]) + (pick(gs[1]) + pick(gs[2]) + pick(gs[3]) + pick(gs[4])) + pick(gs[5])
  {
    var mid := gs[1..5];
    assert gs == [gs[0]] + (mid + [gs[5]]);
    EachGroupCons(gs[0], mid + [gs[5]], pick);
    EachGroupSnoc(mid, gs[5], pick);
    EachGroupOfFour(mid, pick);
  }

  /** first() on the seven records keeps the first record of each key. */
  lemma {:induction false} FirstOnSeven()
    ensures Run(First(KeyCompare), Seven) == ["001001", "002003", "003004", "004005"]
  {
    KeyCompareIsValid();
    FirstKeepsGroupHeads(KeyCompare, Seven);
    SevenGrouped();
    EachGroupOfFour(SevenGroups, FirstOf);
  }

  /** last() on the seven records keeps the last record of each key. */
  lemma {:induction false} LastOnSeven()
    ensures Run(LastOp(KeyCompare), Seven) == ["001002", "002003", "003004", "004007"]
  {
    LastKeepsGroupTails(KeyCompare, Seven);
    SevenGrouped();
    EachGroupOfFour(SevenGroups, LastOf);
  }

  /** allDups() on the seven records keeps the keys 001 and 004, whole. */
  lemma {:induction false} AllDupsOnSeven()
    ensures Run(AllDups(KeyCompare), Seven) == ["001001", "001002", "004005", "004006", "004007"]
  {
    AllDupsKeepsDuplicates(KeyCompare, Seven);
    SevenGrouped();
    EachGroupOfFour(SevenGroups, IfDup);
  }

  /** noDups() on the seven records keeps the keys seen once. */
  lemma {:induction false} NoDupsOnSeven()
    ensures Run(NoDups(KeyCompare), Seven) == ["002003", "003004"]
  {
    KeyCompareIsValid();
    NoDupsKeepsSingles(KeyCompare, Seven);
    SevenGrouped();
    EachGroupOfFour(SevenGroups, IfSingle);
  }

  lemma {:induction false} FirstDupOnSeven()
    ensures Run(FirstDup(KeyCompare), Seven) == ["001001", "004005"]
  {
    FirstDupKeepsFirstOfDuplicates(KeyCompare, Seven);
    SevenGrouped();
    EachGroupOfFour(SevenGroups, FirstDupOf);
  }

  /** The seven records are already in key order. */
  lemma {:induction false} SevenSorted()
    ensures Sorted(KeyCompare, Seven)
  {
    KeyCompareIsValid();
    SampleKeys();
    assert Prefix3("001002") == "001" && Prefix3("002003") == "002";
    assert Prefix3("003004") == "003" && Prefix3("004005") == "004";
    assert NaturalCompare("001", "002") < 0 by {
      assert "001"[1..] == "01" && "002"[1..] == "02";
      assert "01"[1..] == "1" && "02"[1..] == "2";
    }
    assert NaturalCompare("002", "003") < 0 by {
      assert "002"[1..] == "02" && "003"[1..] == "03";
      assert "02"[1..] == "2" && "03"[1..] == "3";
    }
    assert NaturalCompare("003", "004") < 0 by {
      assert "003"[1..] == "03" && "004"[1..] == "04";
      assert "03"[1..] == "3" && "04"[1..] == "4";
    }
    SortedFromNeighbours(KeyCompare, Seven);
  }

  /** A sortIn(file) chain with no options hands the splitter every line of a file without an end-of-file mark. */
  lemma {:induction false} AcceptedSeven()
    ensures Splitting.Accepted(Splitting.DefaultScan(), Seven) == Seven
  {
    var opts := Splitting.DefaultScan();
    assert forall i :: 0 <= i < |Seven| ==> |Seven[i]| == 6;
    assert Splitting.FirstEof(Seven) == |Seven|;
    assert Splitting.Records(Seven) == Seven;
    KeepAll(opts, Seven);
  }

  lemma {:induction false} KeepAll(opts: Splitting.ScanOptions, s: seq<Record>)
    requires opts.filter.None? && opts.inRec.None?
    ensures Splitting.Keep(opts, s) == s
    decreases |s|
  {
    if s != [] {
      KeepAll(opts, s[..|s| - 1]);
      SnocLast(s);
    }
  }

  lemma {:induction false} SortSeven()
    ensures Merging.Sort(KeyCompare, Seven) == Seven
  {
    SevenSorted();
    KeyCompareIsValid();
    Merging.SortIdempotent(KeyCompare, Seven);
  }

  lemma {:induction false} EmitFirstDupOnSeven()
    ensures Emit(PostSort(Some(FirstDup(KeyCompare)), None), Seven) == ["001001", "004005"]
  {
    var post: PostSort<FirstDupState> := PostSort(Some(FirstDup(KeyCompare)), None);
    FirstDupOnSeven();
    var written := Run(post.reorg.value, Seven);
    assert Map(line => OutRec(post, line), written) == written;
  }

  /** What sortOut promises for the seven records under no scan options and firstDup(). */
  lemma {:induction false} FirstDupTargetOnSeven()
    ensures Splitting.Accepted(Splitting.DefaultScan(), Seven) != []
    ensures Emit(PostSort(Some(FirstDup(KeyCompare)), None),
              Merging.Sort(KeyCompare, Splitting.Accepted(Splitting.DefaultScan(), Seven)))
         == ["001001", "004005"]
  {
    AcceptedSeven();
    SortSeven();
    EmitFirstDupOnSeven();
  }

  /**
   * The whole engine on the seven records, with a batch of 256, no scan
   * options, the key comparator and firstDup(): the target holds 001001 and 004005.
   */
  method SortOutFirstDupOnSeven(processors: nat) returns (target: Option<seq<Record>>)
    ensures target == Some(["001001", "004005"])
  {
    var settings := Engine.Configure(256, None, 0, None, processors);
    KeyCompareIsValid();
    target := Engine.SortOut(settings, KeyCompare, PostSort(Some(FirstDup(KeyCompare)), None), Splitting.DefaultScan(), Seven);
    FirstDupTargetOnSeven();
  }

  lemma {:induction false} LastDupOnSeven()
    ensures Run(LastDup(KeyCompare), Seven) == ["001002", "004007"]
  {
    LastDupKeepsLastOfDuplicates(KeyCompare, Seven);
    SevenGrouped();
    EachGroupOfFour(SevenGroups, LastDupOf);
  }

  lemma {:induction false} CountsOfSeven()
    ensures EachGroup(SevenGroups, CountOf) == ["001002", "002001", "003001", "004003"]
  {
    EachGroupOfFour(SevenGroups, CountOf);
    assert Decimal(1) == "1" && Decimal(2) == "2" && Decimal(3) == "3";
    assert Zeros(2) == "00";
    assert Pad3(1) == "001" && Pad3(2) == "002" && Pad3(3) == "003";
    assert Prefix3("001001") == "001" && Prefix3("002003") == "002";
    assert Prefix3("003004") == "003" && Prefix3("004005") == "004";
    assert "001" + "002" == "001002" && "002" + "001" == "002001";
    assert "003" + "001" == "003001" && "004" + "003" == "004003";
  }

  /** The hand-written GroupCount on the seven records: each key with its count. */
  lemma {:induction false} CounterOnSeven()
    ensures Run(Counter(), Seven) == ["001002", "002001", "003001", "004003"]
  {
    CounterWritesCounts(Seven);
    SevenGrouped();
    CountsOfSeven();
  }

  /** sum() with the counting rule on the seven records: the same four records. */
  lemma {:induction false} SumCountOnSeven()
    ensures Run(Sum(KeyCompare, CountRule()), Seven) == ["001002", "002001", "003001", "004003"]
  {
    SumCountWritesCounts(Seven);
    SevenGrouped();
    CountsOfSeven();
  }

  /** sum(none()) on the seven records writes what first() writes. */
  lemma {:induction false} SumNoneOnSeven()
    ensures Run(Sum(KeyCompare, NoneRule()), Seven) == ["001001", "002003", "003004", "004005"]
  {
    KeyCompareIsValid();
    SumNoneIsFirst(KeyCompare, Seven);
    FirstOnSeven();
  }

  lemma {:induction false} FirstOnNine()
    ensures Run(First(KeyCompare), Nine) == ["000000", "001001", "002003", "003004", "004005", "005008"]
  {
    KeyCompareIsValid();
    FirstKeepsGroupHeads(KeyCompare, Nine);
    NineGrouped();
    EachGroupOfSix(NineGroups, FirstOf);
  }

  lemma {:induction false} LastOnNine()
    ensures Run(LastOp(KeyCompare), Nine) == ["000000", "001002", "002003", "003004", "004007", "005008"]
  {
    LastKeepsGroupTails(KeyCompare, Nine);
    NineGrouped();
    EachGroupOfSix(NineGroups, LastOf);
  }

  lemma {:induction false} AllDupsOnNine()
    ensures Run(AllDups(KeyCompare), Nine) == ["001001", "001002", "004005", "004006", "004007"]
  {
    AllDupsKeepsDuplicates(KeyCompare, Nine);
    NineGrouped();
    EachGroupOfSix(NineGroups, IfDup);
  }

  /** noDups() keeps the singleton groups at both ends of the stream too. */
  lemma {:induction false} NoDupsOnNine()
    ensures Run(NoDups(KeyCompare), Nine) == ["000000", "002003", "003004", "005008"]
  {
    KeyCompareIsValid();
    NoDupsKeepsSingles(KeyCompare, Nine);
    NineGrouped();
    EachGroupOfSix(NineGroups, IfSingle);
  }

  lemma {:induction false} FirstDupOnNine()
    ensures Run(FirstDup(KeyCompare), Nine) == ["001001", "004005"]
  {
    FirstDupKeepsFirstOfDuplicates(KeyCompare, Nine);
    NineGrouped();
    EachGroupOfSix(NineGroups, FirstDupOf);
  }

  lemma {:induction false} LastDupOnNine()
    ensures Run(LastDup(KeyCompare), Nine) == ["001002", "004007"]
  {
    LastDupKeepsLastOfDuplicates(KeyCompare, Nine);
    NineGrouped();
    EachGroupOfSix(NineGroups, LastDupOf);
  }
}
