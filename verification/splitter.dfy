/**
 * The input side of PmSort: split() reads the unsorted file, stops at the
 * end-of-file mark, skips the first records, keeps those the include filter
 * accepts (edited by inRec) until stopAfter of them were taken, and hands
 * each to the Splitter, which spills full sorted batches to temporary files.
 */
module Splitting {
  import opened Wrappers
  import opened Ordering
  import opened Seqs
  import opened Merging
  import opened Accumulators
  import Scheduling

  /** The single character of the end-of-file line (Ctrl-Z, U+001A). */
  const EofChar: char := 26 as char

  /** skipRecord, include, stopAfter and inRec; a null filter or editor is None. */
  datatype ScanOptions = ScanOptions(
    skip: int,
    filter: Option<Record -> bool>,
    stop: int,
    inRec: Option<Record -> Record>)

  /** The options of a sortIn(file) chain that sets none of them: no skip, no filter, stop at Integer.MAX_VALUE, no editor. */
  function DefaultScan(): ScanOptions
  {
    ScanOptions(0, None, 0x7fff_ffff, None)
  }

  // ---------------------------------------------------------------- reference definitions

  /** The number of lines before the first end-of-file line (all of them when there is none). */
  function FirstEof(lines: seq<Record>): (n: nat)
    ensures n <= |lines|
    ensures forall i :: 0 <= i < n ==> lines[i] != [EofChar]
    ensures n < |lines| ==> lines[n] == [EofChar]
  {
    if lines == [] || lines[0] == [EofChar] then 0
    else
      var n := 1 + FirstEof(lines[1..]);
      assert forall i :: 1 <= i < n ==> lines[i] == lines[1..][i - 1];
      n
  }

  /** A position no later than the first end-of-file mark, at the end of the lines or at a mark, is that mark. */
  lemma {:induction false} AtEof(lines: seq<Record>, p: nat)
    requires p <= FirstEof(lines)
    requires p == |lines| || (p < |lines| && lines[p] == [EofChar])
    ensures p == FirstEof(lines)
  {
  }

  /** The records of the file: the lines before the end-of-file mark. */
  function Records(lines: seq<Record>): seq<Record>
  {
    lines[..FirstEof(lines)]
  }

  /** The number of leading records skipRecord drops from a file of n records (a negative count drops none). */
  function Skipped(skip: int, n: nat): (k: nat)
    ensures k <= n
  {
    if skip <= 0 then 0 else if skip >= n then n else skip
  }

  /** include: a missing filter accepts every record. */
  function Accepts(opts: ScanOptions, line: Record): bool
  {
    opts.filter.None? || opts.filter.value(line)
  }

  function Edit(opts: ScanOptions, line: Record): Record
  {
    match opts.inRec
    case None => line
    case Some(edit) => edit(line)
  }

  /** The records that pass the filter, in order. */
  function Filter(p: Record -> bool, s: seq<Record>): (r: seq<Record>)
    ensures |r| <= |s|
  {
    if s == [] then [] else (if p(s[0]) then [s[0]] else []) + Filter(p, s[1..])
  }

  /** What the splitter is handed for a stretch of candidate records: each accepted one, edited, in order. */
  function Keep(opts: ScanOptions, s: seq<Record>): (r: seq<Record>)
    ensures |r| <= |s|
  {
    if s == [] then []
    else Keep(opts, s[..|s| - 1]) + (if Accepts(opts, Last(s)) then [Edit(opts, Last(s))] else [])
  }

  /** The first k records of s (none for k <= 0). */
  function Take(k: int, s: seq<Record>): (r: seq<Record>)
    ensures |r| == if k <= 0 then 0 else if k >= |s| then |s| else k
    ensures r <= s
  {
    if k <= 0 then [] else if k >= |s| then s else s[..k]
  }

  /** The records split() hands to the splitter, as they end up in the sort buffer. */
  function Accepted(opts: ScanOptions, lines: seq<Record>): (acc: seq<Record>)
    ensures opts.stop >= 0 ==> |acc| <= opts.stop
  {
    var recs := Records(lines);
    Take(opts.stop, Keep(opts, recs[Skipped(opts.skip, |recs|)..]))
  }

  lemma {:induction false} KeepAppend(opts: ScanOptions, a: seq<Record>, b: seq<Record>)
    ensures Keep(opts, a + b) == Keep(opts, a) + Keep(opts, b)
    decreases |b|
  {
    if b == [] {
      assert a + b == a;
    } else {
      var b' := b[..|b| - 1];
      assert (a + b)[..|a + b| - 1] == a + b';
      KeepAppend(opts, a, b');
    }
  }

  lemma {:induction false} FilterAppend(p: Record -> bool, a: seq<Record>, b: seq<Record>)
    ensures Filter(p, a + b) == Filter(p, a) + Filter(p, b)
    decreases |a|
  {
    if a == [] {
      assert a + b == b;
    } else {
      var h := if p(a[0]) then [a[0]] else [];
      assert (a + b)[1..] == a[1..] + b;
      assert Filter(p, a + b) == h + Filter(p, a[1..] + b);
      FilterAppend(p, a[1..], b);
      assert Filter(p, a) == h + Filter(p, a[1..]);
    }
  }

  /**
   * The include filter looks at the raw line and inRec only edits what it
   * accepted: the splitter receives exactly the accepted raw records, edited,
   * in read order.
   */
  lemma {:induction false} KeepIsFilterThenEdit(opts: ScanOptions, s: seq<Record>)
    ensures Keep(opts, s) == Map(line => Edit(opts, line), Filter(line => Accepts(opts, line), s))
    decreases |s|
  {
    if s != [] {
      var init := s[..|s| - 1];
      KeepIsFilterThenEdit(opts, init);
      assert s == init + [Last(s)];
      FilterAppend(line => Accepts(opts, line), init, [Last(s)]);
      assert Filter(line => Accepts(opts, line), [Last(s)][1..]) == [];
      MapAppend(line => Edit(opts, line), Filter(line => Accepts(opts, line), init),
                Filter(line => Accepts(opts, line), [Last(s)]));
    }
  }

  // ---------------------------------------------------------------- the splitter's buffer

  /**
   * The splitter after it was handed acc: the batches already spilled (before
   * sorting) and the records in the buffer. A full buffer is spilled when the
   * next record arrives, not when it fills up.
   */
  function Spill(maxNum: nat, acc: seq<Record>): (r: (seq<seq<Record>>, seq<Record>))
    requires maxNum > 0
  {
    if acc == [] then ([], [])
    else
      var (c, d) := Spill(maxNum, acc[..|acc| - 1]);
      if |d| >= maxNum then (c + [d], [Last(acc)]) else (c, d + [Last(acc)])
  }

  /**
   * The spilled batches followed by the buffer are the accepted records in
   * read order; every spilled batch holds exactly maxNum records; the buffer
   * never exceeds maxNum and is empty only when nothing was accepted; nothing
   * is spilled exactly when at most maxNum records were accepted.
   */
  lemma {:induction false} SpillShape(maxNum: nat, acc: seq<Record>)
    requires maxNum > 0
    ensures Flatten(Spill(maxNum, acc).0) + Spill(maxNum, acc).1 == acc
    ensures forall i :: 0 <= i < |Spill(maxNum, acc).0| ==> |Spill(maxNum, acc).0[i]| == maxNum
    ensures |Spill(maxNum, acc).1| <= maxNum
    ensures Spill(maxNum, acc).1 == [] <==> acc == []
    ensures Spill(maxNum, acc).0 == [] <==> |acc| <= maxNum
    decreases |acc|
  {
    if acc != [] {
      var init := acc[..|acc| - 1];
      SpillShape(maxNum, init);
      var (c, d) := Spill(maxNum, init);
      assert init + [Last(acc)] == acc;
      if |d| >= maxNum {
        FlattenSnoc(c, d);
        assert Flatten(c + [d]) + [Last(acc)] == acc;
        assert (c + [d])[0] == (if c == [] then d else c[0]);
        FlattenLength(maxNum, c + [d]);
      } else {
        assert Flatten(c) + (d + [Last(acc)]) == acc;
        if c != [] {
          FlattenLength(maxNum, c);
        }
      }
    }
  }

  lemma {:induction false} FlattenLength(maxNum: nat, c: seq<seq<Record>>)
    requires c != [] && |c[0]| == maxNum
    ensures |Flatten(c)| >= maxNum
  {
    assert Flatten(c) == c[0] + Flatten(c[1..]);
  }

  /** The temporary files of the spilled batches: each batch sorted (sortAndSave). */
  function SortEach(cmp: Comparator, c: seq<seq<Record>>): (r: seq<seq<Record>>)
    ensures |r| == |c|
    ensures forall i :: 0 <= i < |c| ==> r[i] == Sort(cmp, c[i])
  {
    seq(|c|, i requires 0 <= i < |c| => Sort(cmp, c[i]))
  }

  /** Sorting each batch keeps every class of the concatenation in order, and makes every file sorted. */
  lemma {:induction false} SortEachKeepsOrder(cmp: Comparator, c: seq<seq<Record>>)
    requires ValidComparator(cmp)
    ensures Scheduling.AllSorted(cmp, SortEach(cmp, c))
    ensures Scheduling.SameClasses(cmp, Flatten(SortEach(cmp, c)), Flatten(c))
    decreases |c|
  {
    forall i | 0 <= i < |c| ensures Sorted(cmp, SortEach(cmp, c)[i]) {
      SortIsStable(cmp, c[i]);
    }
    if c != [] {
      SortEachKeepsOrder(cmp, c[1..]);
      var f := SortEach(cmp, c);
      assert f[1..] == SortEach(cmp, c[1..]);
      SortIsStable(cmp, c[0]);
      forall k ensures Class(cmp, k, Flatten(f)) == Class(cmp, k, Flatten(c)) {
        ClassAppend(cmp, k, f[0], Flatten(f[1..]));
        ClassAppend(cmp, k, c[0], Flatten(c[1..]));
      }
    }
  }

  /** The splitter holds the sorted spilled batches and the raw buffer of what it was handed. */
  ghost predicate Holds(cmp: Comparator, maxNum: nat, acc: seq<Record>, chunks: seq<seq<Record>>, data: seq<Record>)
    requires maxNum > 0
  {
    chunks == SortEach(cmp, Spill(maxNum, acc).0) && data == Spill(maxNum, acc).1
  }

  /** Splitter.process: test the raw line, edit it, spill a full buffer, then buffer the record. */
  method Process(cmp: Comparator, maxNum: nat, opts: ScanOptions, chunks: seq<seq<Record>>, data: seq<Record>,
                 ghost acc: seq<Record>, line: Record)
    returns (taken: bool, chunks': seq<seq<Record>>, data': seq<Record>)
    requires maxNum > 0 && Holds(cmp, maxNum, acc, chunks, data)
    ensures taken == Accepts(opts, line)
    ensures taken ==> Holds(cmp, maxNum, acc + [Edit(opts, line)], chunks', data')
    ensures !taken ==> chunks' == chunks && data' == data
  {
    chunks', data' := chunks, data;
    taken := opts.filter.None? || opts.filter.value(line);
    if taken {
      var rec := if opts.inRec.Some? then opts.inRec.value(line) else line;
      ghost var acc' := acc + [rec];
      assert acc'[..|acc'| - 1] == acc;
      ghost var c := Spill(maxNum, acc).0;
      if |data| >= maxNum {
        var chunk := Sort(cmp, data);
        chunks' := chunks + [chunk];
        assert SortEach(cmp, c + [data]) == SortEach(cmp, c) + [chunk];
        data' := [];
      }
      data' := data' + [rec];
    }
  }

  // ---------------------------------------------------------------- split()

  /** What split() leaves behind: the temporary files to merge, or the target already written. */
  datatype Outcome = Spilled(files: seq<seq<Record>>) | Final(written: seq<Record>)

  /** The candidate records are those numbered above skipRecord. */
  ghost function Candidates(opts: ScanOptions, lines: seq<Record>): seq<Record>
  {
    var recs := Records(lines);
    recs[Skipped(opts.skip, |recs|)..]
  }

  /** What the scan has handed the splitter after reading p records, as a slice of the candidates. */
  lemma {:induction false} ScanStep(opts: ScanOptions, lines: seq<Record>, p: nat)
    requires p < FirstEof(lines)
    ensures var from := Skipped(opts.skip, p);
      var from' := Skipped(opts.skip, p + 1);
      Keep(opts, lines[from'..p + 1])
        == Keep(opts, lines[from..p]) + (if p + 1 > opts.skip && Accepts(opts, lines[p]) then [Edit(opts, lines[p])] else [])
  {
    var from := Skipped(opts.skip, p);
    var from' := Skipped(opts.skip, p + 1);
    if p + 1 > opts.skip {
      assert from' == from;
      assert lines[from'..p + 1][..p - from] == lines[from..p];
    } else {
      assert from' == p + 1 && from == p;
    }
  }

  /** Reading stopped at the end of the file or at its end-of-file mark: every candidate was seen. */
  lemma {:induction false} ScanEndOfRecords(opts: ScanOptions, lines: seq<Record>, acc: seq<Record>)
    requires acc == Keep(opts, lines[Skipped(opts.skip, FirstEof(lines))..FirstEof(lines)])
    requires acc == [] || |acc| <= opts.stop
    ensures acc == Accepted(opts, lines)
  {
    var recs := Records(lines);
    assert lines[Skipped(opts.skip, FirstEof(lines))..FirstEof(lines)] == recs[Skipped(opts.skip, |recs|)..];
  }

  /** Reading stopped after stopAfter records were taken: the candidates not read cannot change what was accepted. */
  lemma {:induction false} ScanEndOfStop(opts: ScanOptions, lines: seq<Record>, p: nat, acc: seq<Record>)
    requires p <= FirstEof(lines)
    requires acc == Keep(opts, lines[Skipped(opts.skip, p)..p])
    requires acc == [] || |acc| <= opts.stop
    requires |acc| >= opts.stop
    ensures acc == Accepted(opts, lines)
  {
    var recs := Records(lines);
    var from := Skipped(opts.skip, |recs|);
    var cands := recs[from..];
    if acc == [] {
      assert Take(opts.stop, Keep(opts, cands)) == [];
    } else {
      assert Skipped(opts.skip, p) == from;
      assert cands == lines[from..p] + recs[p..];
      KeepAppend(opts, lines[from..p], recs[p..]);
      assert Keep(opts, cands)[..|acc|] == acc;
    }
  }

  /** The scan's state after reading p records: what was handed on, and the splitter's buffers for it. */
  ghost predicate Scanned(cmp: Comparator, maxNum: nat, opts: ScanOptions, lines: seq<Record>, p: nat,
                          acc: seq<Record>, chunks: seq<seq<Record>>, data: seq<Record>)
    requires maxNum > 0
  {
    && p <= FirstEof(lines)
    && acc == Keep(opts, lines[Skipped(opts.skip, p)..p])
    && Holds(cmp, maxNum, acc, chunks, data)
  }

  /** One turn of split()'s loop on a record: number it, and hand it to the splitter when it is past skipRecord. */
  method ReadOne(cmp: Comparator, maxNum: nat, opts: ScanOptions, lines: seq<Record>, p: nat,
                 chunks: seq<seq<Record>>, data: seq<Record>, ghost acc: seq<Record>)
    returns (taken: bool, chunks': seq<seq<Record>>, data': seq<Record>, ghost acc': seq<Record>)
    requires maxNum > 0 && p < FirstEof(lines)
    requires Scanned(cmp, maxNum, opts, lines, p, acc, chunks, data)
    ensures taken <==> p + 1 > opts.skip && Accepts(opts, lines[p])
    ensures acc' == acc + (if taken then [Edit(opts, lines[p])] else [])
    ensures Scanned(cmp, maxNum, opts, lines, p + 1, acc', chunks', data')
  {
    ScanStep(opts, lines, p);
    taken, chunks', data', acc' := false, chunks, data, acc;
    if p + 1 > opts.skip {
      taken, chunks', data' := Process(cmp, maxNum, opts, chunks, data, acc, lines[p]);
      if taken {
        acc' := acc + [Edit(opts, lines[p])];
      }
    }
  }

  /**
   * Splitter.files(): with nothing buffered the spilled files are the result;
   * a buffer that was never spilled is sorted, reduced and written straight
   * to the target; otherwise the buffer is sorted into one more file.
   */
  method Files<S>(cmp: Comparator, post: PostSort<S>, maxNum: nat, ghost acc: seq<Record>,
                  chunks: seq<seq<Record>>, data: seq<Record>)
    returns (out: Outcome)
    requires maxNum > 0 && Holds(cmp, maxNum, acc, chunks, data)
    ensures acc == [] ==> out == Spilled([])
    ensures 0 < |acc| <= maxNum ==> out == Final(Emit(post, Sort(cmp, acc)))
    ensures |acc| > maxNum ==>
      && out.Spilled?
      && out.files == SortEach(cmp, Spill(maxNum, acc).0) + [Sort(cmp, Spill(maxNum, acc).1)]
      && |out.files| >= 2
  {
    SpillShape(maxNum, acc);
    if data == [] {
      out := Spilled(chunks);
    } else if chunks == [] {
      assert acc == data;
      var written := SortAndFinalSave(cmp, post, data);
      out := Final(written);
    } else {
      var chunk := Sort(cmp, data);
      out := Spilled(chunks + [chunk]);
    }
  }

  /**
   * split(): read lines until the end of the file, the end-of-file mark or
   * stopAfter accepted records; number every record read; hand those numbered
   * above skipRecord to the splitter; then Splitter.files(). With no record
   * accepted nothing is written and no file is left; with at most maxNum the
   * target is written directly (sort, reduce, outRec); with more, the sorted
   * batches and the sorted remainder are left for the merge, two files or more.
   */
  method Split<S>(cmp: Comparator, post: PostSort<S>, maxNum: nat, opts: ScanOptions, lines: seq<Record>)
    returns (out: Outcome)
    requires maxNum > 0
    ensures Accepted(opts, lines) == [] ==> out == Spilled([])
    ensures 0 < |Accepted(opts, lines)| <= maxNum ==> out == Final(Emit(post, Sort(cmp, Accepted(opts, lines))))
    ensures |Accepted(opts, lines)| > maxNum ==>
      && out.Spilled?
      && out.files == SortEach(cmp, Spill(maxNum, Accepted(opts, lines)).0) + [Sort(cmp, Spill(maxNum, Accepted(opts, lines)).1)]
      && |out.files| >= 2
  {
    var nmRecRd: nat := 0;
    var nmRecWr: nat := 0;
    var chunks: seq<seq<Record>> := [];
    var data: seq<Record> := [];
    ghost var acc: seq<Record> := [];
    while nmRecWr < opts.stop && nmRecRd < |lines|
      invariant Scanned(cmp, maxNum, opts, lines, nmRecRd, acc, chunks, data)
      invariant nmRecWr == |acc| && (acc == [] || |acc| <= opts.stop)
      decreases |lines| - nmRecRd
    {
      var line := lines[nmRecRd];
      if |line| == 1 && line[0] == EofChar {
        assert line == [EofChar];
        AtEof(lines, nmRecRd);
        break;
      }
      var taken;
      taken, chunks, data, acc := ReadOne(cmp, maxNum, opts, lines, nmRecRd, chunks, data, acc);
      nmRecRd := nmRecRd + 1;
      if taken {
        nmRecWr := nmRecWr + 1;
      }
    }
    if nmRecWr < opts.stop {
      if nmRecRd == |lines| {
        AtEof(lines, nmRecRd);
      }
      ScanEndOfRecords(opts, lines, acc);
    } else {
      ScanEndOfStop(opts, lines, nmRecRd, acc);
    }
    out := Files(cmp, post, maxNum, acc, chunks, data);
  }
}
