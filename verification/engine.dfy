/**
 * PmSortEngine as a whole: the constructor's defaulting of its settings,
 * sortOut (split, then merge when more than one file was left), and sort()
 * with the natural order.
 */
module Engine {
  import opened Wrappers
  import opened Ordering
  import opened Seqs
  import opened Grouping
  import opened Merging
  import opened Accumulators
  import opened Scheduling
  import opened Splitting

  /** DEFAULT_MAX: the batch size used when the caller gives none. */
  const DefaultMax: int := 2048

  /** The charset used when the caller gives none (StandardCharsets.UTF_8). */
  const DefaultCharset: string := "UTF-8"

  /** The engine's settings after the constructor: charset by name, the temporary directory as an optional path. */
  datatype Settings = Settings(maxNumRecord: int, charset: string, maxThread: int, swap: Option<string>)

  /**
   * The constructor: a non-positive batch size becomes 2048, a missing charset
   * UTF-8, a non-positive thread count half the processors (at least one);
   * the temporary directory is kept as given, missing or not.
   * `processors` stands for Runtime.availableProcessors().
   */
  function Configure(maxNumRecord: int, charset: Option<string>, maxThread: int, tempDirectory: Option<string>, processors: nat)
    : (s: Settings)
    ensures s.maxNumRecord > 0 && s.maxThread > 0
    ensures maxNumRecord > 0 ==> s.maxNumRecord == maxNumRecord
    ensures maxNumRecord <= 0 ==> s.maxNumRecord == DefaultMax
    ensures maxThread > 0 ==> s.maxThread == maxThread
    ensures maxThread <= 0 ==> s.maxThread == (if processors / 2 > 1 then processors / 2 else 1)
    ensures maxThread <= 0 ==> s.maxThread >= 1 && (processors >= 2 ==> s.maxThread == processors / 2)
    ensures charset.Some? ==> s.charset == charset.value
    ensures charset.None? ==> s.charset == DefaultCharset
    ensures s.swap == tempDirectory
  {
    Settings(
      if maxNumRecord > 0 then maxNumRecord else DefaultMax,
      if charset.Some? then charset.value else DefaultCharset,
      if maxThread > 0 then maxThread else if processors / 2 > 1 then processors / 2 else 1,
      tempDirectory)
  }

  /** The constructor's defaults are a fixed point: configuring again from the result changes nothing, whatever the processor count. */
  lemma ConfigureSettles(maxNumRecord: int, charset: Option<string>, maxThread: int, tempDirectory: Option<string>, processors: nat, again: nat)
    ensures var s := Configure(maxNumRecord, charset, maxThread, tempDirectory, processors);
      Configure(s.maxNumRecord, Some(s.charset), s.maxThread, s.swap, again) == s
  {
  }

  /**
   * sortOut: split the input; if more than one temporary file is left, merge
   * them into the target. The target is written only when some record was
   * accepted, and then holds the reduced and edited stable sort of the
   * accepted records. A temporary file is taken to read back as the records
   * written to it, which TempFiles.ReadBackIff shows holds exactly when no
   * accepted record contains a line terminator; only for such records is the
   * result the same whatever the batch size.
   */
  method SortOut<S>(settings: Settings, cmp: Comparator, post: PostSort<S>, opts: ScanOptions, lines: seq<Record>)
    returns (target: Option<seq<Record>>)
    requires settings.maxNumRecord > 0 && ValidComparator(cmp)
    ensures Accepted(opts, lines) == [] <==> target.None?
    ensures target.Some? ==> target.value == Emit(post, Sort(cmp, Accepted(opts, lines)))
  {
    ghost var acc := Accepted(opts, lines);
    var out := Split(cmp, post, settings.maxNumRecord, opts, lines);
    if out.Final? {
      target := Some(out.written);
    } else if |out.files| > 1 {
      var (c, d) := Spill(settings.maxNumRecord, acc);
      SpillShape(settings.maxNumRecord, acc);
      SortEachKeepsOrder(cmp, c + [d]);
      assert SortEach(cmp, c + [d]) == out.files;
      FlattenSnoc(c, d);
      var written, _ := MergeFiles(cmp, post, out.files);
      SortByClasses(cmp, Flatten(out.files), acc);
      target := Some(written);
    } else {
      target := None;
    }
  }

  /** sort() without a comparator: exactly sort(naturalOrder). */
  method SortOutNatural<S>(settings: Settings, post: PostSort<S>, opts: ScanOptions, lines: seq<Record>)
    returns (target: Option<seq<Record>>)
    requires settings.maxNumRecord > 0
    ensures Accepted(opts, lines) == [] <==> target.None?
    ensures target.Some? ==> target.value == Emit(post, Sort(NaturalCompare, Accepted(opts, lines)))
  {
    NaturalIsValid();
    target := SortOut(settings, NaturalCompare, post, opts, lines);
  }

  /**
   * A plain sort() writes the accepted records in non-decreasing
   * String.compareTo order, as a rearrangement of them.
   */
  lemma {:induction false} NaturalSortNonDecreasing(xs: seq<Record>)
    ensures var out := Sort(NaturalCompare, xs);
      && multiset(out) == multiset(xs)
      && forall i, j :: 0 <= i < j < |out| ==> NaturalCompare(out[i], out[j]) <= 0
  {
    NaturalIsValid();
    SortIsStable(NaturalCompare, xs);
  }

  /** Under the natural order the operators' groups are runs of identical records. */
  lemma {:induction false} NaturalGroupsIdentical(xs: seq<Record>)
    ensures forall i :: 0 <= i < |Groups(NaturalCompare, xs)| ==>
      forall j :: 0 <= j < |Groups(NaturalCompare, xs)[i]| ==> Groups(NaturalCompare, xs)[i][j] == Groups(NaturalCompare, xs)[i][0]
  {
    var gs := Groups(NaturalCompare, xs);
    GroupsIsGrouping(NaturalCompare, xs);
    NaturalIsValid();
    NaturalIdentifiesEqual();
    forall i, j | 0 <= i < |gs| && 0 <= j < |gs[i]| ensures gs[i][j] == gs[i][0] {
      UnbrokenMembersEquivalent(NaturalCompare, gs[i], j);
    }
  }
}
