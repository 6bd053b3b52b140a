/**
 * The RecordAccumulator contract and the way the engine drives it once the
 * records are in order: every record goes through reduce exactly once, in
 * order; an absent result is dropped; flush is called once at the end; and
 * outRec edits whatever survives.
 */
module Accumulators {
  import opened Wrappers
  import opened Ordering
  import opened Seqs
  import Merging

  /**
   * A RecordAccumulator with its mutable fields made explicit as a state:
   * reduce maps (state, record) to the next state and an optional record,
   * flush returns whatever is left in the state.
   */
  datatype Accumulator<!S> = Accumulator(init: S, reduce: (S, Record) -> (S, Option<Record>), flush: S -> Option<Record>)

  /** Calling reduce on each record of xs in order, from state s: the state reached and the records returned. */
  function FeedFrom<S>(acc: Accumulator<S>, s: S, xs: seq<Record>): (r: (S, seq<Record>))
    ensures |r.1| <= |xs|
    decreases |xs|
  {
    if xs == [] then (s, [])
    else
      var (s', out) := FeedFrom(acc, s, xs[..|xs| - 1]);
      var (s'', o) := acc.reduce(s', Last(xs));
      (s'', out + o.ToSeq())
  }

  /** Feeding a fresh accumulator. */
  function Feed<S>(acc: Accumulator<S>, xs: seq<Record>): (r: (S, seq<Record>))
    ensures |r.1| <= |xs|
  {
    FeedFrom(acc, acc.init, xs)
  }

  /** Feeding one more record: the unfolding of FeedFrom with the slicing taken away. */
  lemma {:induction false} FeedSnoc<S>(acc: Accumulator<S>, s: S, xs: seq<Record>, x: Record)
    ensures var (s', out) := FeedFrom(acc, s, xs);
      var (s'', o) := acc.reduce(s', x);
      FeedFrom(acc, s, xs + [x]) == (s'', out + o.ToSeq())
  {
    assert (xs + [x])[..|xs|] == xs;
  }

  /** Reducing a stream in two pieces is reducing it whole: the state carries over the cut. */
  lemma {:induction false} FeedAppend<S>(acc: Accumulator<S>, s: S, xs: seq<Record>, ys: seq<Record>)
    ensures var (s1, o1) := FeedFrom(acc, s, xs);
      var (s2, o2) := FeedFrom(acc, s1, ys);
      FeedFrom(acc, s, xs + ys) == (s2, o1 + o2)
    decreases |ys|
  {
    var (s1, o1) := FeedFrom(acc, s, xs);
    if ys == [] {
      assert xs + ys == xs;
      assert FeedFrom(acc, s1, ys) == (s1, []);
      assert o1 + [] == o1;
    } else {
      var ys' := ys[..|ys| - 1];
      var y := Last(ys);
      FeedAppend(acc, s, xs, ys');
      assert ys == ys' + [y];
      assert xs + ys == (xs + ys') + [y];
      FeedSnoc(acc, s, xs + ys', y);
      FeedSnoc(acc, s1, ys', y);
      var (s2, o2) := FeedFrom(acc, s1, ys');
      var (s3, o) := acc.reduce(s2, y);
      Associative(o1, o2, o.ToSeq());
    }
  }

  /** The whole reduction: reduce on every record, then one flush. */
  function Run<S>(acc: Accumulator<S>, xs: seq<Record>): (r: seq<Record>)
    ensures |r| <= |xs| + 1
  {
    var (s, out) := Feed(acc, xs);
    out + acc.flush(s).ToSeq()
  }

  /** What happens to the sorted records before they are written: an optional reduction, then an optional outRec edit. */
  datatype PostSort<!S> = PostSort(reorg: Option<Accumulator<S>>, outRec: Option<Record -> Record>)

  function OutRec<S>(post: PostSort<S>, line: Record): Record
  {
    match post.outRec
    case None => line
    case Some(edit) => edit(line)
  }

  /** The records written for a sorted stream. */
  function Emit<S>(post: PostSort<S>, sorted: seq<Record>): (r: seq<Record>)
    ensures post.reorg.None? ==> |r| == |sorted|
    ensures post.reorg.Some? ==> |r| <= |sorted| + 1
    ensures post.outRec.None? && post.reorg.None? ==> r == sorted
  {
    var reduced := if post.reorg.None? then sorted else Run(post.reorg.value, sorted);
    Map(line => OutRec(post, line), reduced)
  }

  /** reorg: reduce every record in order, keep the present results, then flush once. */
  method Reorg<S>(acc: Accumulator<S>, data: seq<Record>) returns (roll: seq<Record>)
    ensures roll == Run(acc, data)
  {
    var st := acc.init;
    roll := [];
    for i := 0 to |data|
      invariant (st, roll) == Feed(acc, data[..i])
    {
      FeedSnoc(acc, acc.init, data[..i], data[i]);
      assert data[..i + 1] == data[..i] + [data[i]];
      var (st', temp) := acc.reduce(st, data[i]);
      assert Feed(acc, data[..i + 1]) == (st', roll + temp.ToSeq());
      st := st';
      if temp.Some? {
        roll := roll + [temp.value];
      } else {
        assert roll + temp.ToSeq() == roll;
      }
    }
    assert data[..|data|] == data;
    var temp := acc.flush(st);
    if temp.Some? {
      roll := roll + [temp.value];
    }
  }

  /** The outRec loop of sortAndFinalSave: every record edited, in order. */
  method EditAll<S>(post: PostSort<S>, data: seq<Record>) returns (good: seq<Record>)
    requires post.outRec.Some?
    ensures good == Map(line => OutRec(post, line), data)
  {
    good := [];
    for i := 0 to |data|
      invariant good == Map(line => OutRec(post, line), data[..i])
    {
      MapAppend(line => OutRec(post, line), data[..i], [data[i]]);
      assert data[..i + 1] == data[..i] + [data[i]];
      good := good + [post.outRec.value(data[i])];
    }
    assert data[..|data|] == data;
  }

  /** sortAndFinalSave: sort the whole buffer, reduce it if asked, then edit each survivor with outRec. */
  method SortAndFinalSave<S>(cmp: Comparator, post: PostSort<S>, data: seq<Record>) returns (written: seq<Record>)
    ensures written == Emit(post, Merging.Sort(cmp, data))
  {
    var sorted := Merging.Sort(cmp, data);
    written := sorted;
    if post.reorg.Some? {
      written := Reorg(post.reorg.value, sorted);
    }
    if post.outRec.Some? {
      written := EditAll(post, written);
    } else {
      assert Map(line => OutRec(post, line), written) == written;
    }
  }
}
