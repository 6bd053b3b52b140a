/**
 * How merge() waits for the end of a round. Each MergeTask registers with the
 * round's Phaser in its constructor, just before it is submitted, and calls
 * arriveAndDeregister() when it ends; merge() then calls awaitAdvance(0).
 * The Phaser is reduced to what this uses: no parent, no tiering, the
 * default onAdvance (terminate when no party is left).
 */
module Barrier {
  import opened Wrappers
  import opened Seqs

  /** A Phaser's phase, its registered parties, the parties yet to arrive in this phase, and whether it has terminated. */
  datatype Phaser = Phaser(phase: nat, parties: nat, unarrived: nat, terminated: bool)

  predicate Wf(p: Phaser)
  {
    p.unarrived <= p.parties
  }

  /** new Phaser(parties). */
  function NewPhaser(parties: nat): (p: Phaser)
    ensures Wf(p) && !p.terminated && p.phase == 0
  {
    Phaser(0, parties, parties, false)
  }

  /** awaitAdvance(0) and arriveAndAwaitAdvance() in phase 0 return once this holds. */
  predicate Released(p: Phaser)
  {
    p.terminated || p.phase != 0
  }

  /** register(): one more party, unarrived in the current phase; no effect on a terminated phaser. */
  function Register(p: Phaser): (q: Phaser)
    requires Wf(p)
    ensures Wf(q)
    ensures p.terminated ==> q == p
    ensures !p.terminated ==> q == p.(parties := p.parties + 1, unarrived := p.unarrived + 1)
  {
    if p.terminated then p else p.(parties := p.parties + 1, unarrived := p.unarrived + 1)
  }

  /**
   * The last arrival of a phase: the default onAdvance terminates the phaser
   * when no party is left, and otherwise the next phase starts with every
   * party unarrived.
   */
  function Advance(p: Phaser, parties: nat): (q: Phaser)
    ensures Wf(q)
    ensures q.terminated <==> parties == 0
    ensures !q.terminated ==> q.phase == p.phase + 1 && q.parties == parties && q.unarrived == parties
  {
    if parties == 0 then p.(parties := 0, unarrived := 0, terminated := true)
    else Phaser(p.phase + 1, parties, parties, false)
  }

  /**
   * arrive() (leave false) or arriveAndDeregister() (leave true). A terminated
   * phaser ignores it; an arrival with no unarrived party throws
   * IllegalStateException, which is None.
   */
  function ArriveAt(p: Phaser, leave: bool): (r: Option<Phaser>)
    requires Wf(p)
    ensures r.Some? ==> Wf(r.value)
    ensures p.terminated ==> r == Some(p)
    ensures !p.terminated ==> (r.None? <==> p.unarrived == 0)
    ensures !p.terminated && p.unarrived > 0 ==>
      var parties := if leave then p.parties - 1 else p.parties;
      if p.unarrived == 1 then r == Some(Advance(p, parties))
      else r == Some(p.(parties := parties, unarrived := p.unarrived - 1))
  {
    if p.terminated then Some(p)
    else if p.unarrived == 0 then None
    else
      var parties := if leave then p.parties - 1 else p.parties;
      if p.unarrived == 1 then Some(Advance(p, parties))
      else Some(p.(parties := parties, unarrived := p.unarrived - 1))
  }

  // ---------------------------------------------------------------- one round

  /**
   * How the main thread takes part: AsWritten registers each task and then
   * calls awaitAdvance(0) on a `new Phaser()`; MainParty starts from
   * `new Phaser(1)`, the main thread being the one party, and ends with
   * arriveAndAwaitAdvance().
   */
  datatype Protocol = AsWritten | MainParty

  /** The main thread creates and submits the next task, starts waiting, or a task ends. */
  datatype Event = Submit | Await | Finish(task: nat)

  /** A moment of a round: the phaser, the tasks submitted so far, whether the main thread waits, and the tasks still merging. */
  datatype Round = Round(p: Phaser, submitted: nat, waiting: bool, running: set<nat>)

  function Start(proto: Protocol): (r: Round)
    ensures Wf(r.p)
  {
    Round(NewPhaser(if proto == MainParty then 1 else 0), 0, false, {})
  }

  /** One event; None when it cannot happen at that moment or the phaser throws. */
  function Step(proto: Protocol, r: Round, e: Event): (next: Option<Round>)
    requires Wf(r.p)
    ensures next.Some? ==> Wf(next.value.p)
  {
    match e
    case Submit =>
      if r.waiting then None
      else Some(r.(p := Register(r.p), submitted := r.submitted + 1, running := r.running + {r.submitted}))
    case Await =>
      if r.waiting then None
      else if proto == AsWritten then Some(r.(waiting := true))
      else
        var q := ArriveAt(r.p, false);
        if q.None? then None else Some(r.(p := q.value, waiting := true))
    case Finish(k) =>
      if k !in r.running then None
      else
        var q := ArriveAt(r.p, true);
        if q.None? then None else Some(r.(p := q.value, running := r.running - {k}))
  }

  /** The moment reached after a schedule of events, when every event could happen. */
  function Run(proto: Protocol, s: seq<Event>): (r: Option<Round>)
    ensures r.Some? ==> Wf(r.value.p)
    decreases |s|
  {
    if s == [] then Some(Start(proto))
    else
      match Run(proto, s[..|s| - 1])
      case None => None
      case Some(r) => Step(proto, r, Last(s))
  }

  // ---------------------------------------------------------------- as written

  /** Two tasks: the first ends before the second is created, and then the main thread waits. */
  const EarlyEnd: seq<Event> := [Submit, Finish(0), Submit, Await]

  /**
   * With the code as written the first task's deregistration leaves no party,
   * the phaser terminates, the second task's register() has no effect, and
   * awaitAdvance(0) returns while the second merge is still running.
   */
  lemma AsWrittenReleasesEarly()
    ensures var r := Run(AsWritten, EarlyEnd);
      r.Some? && r.value.waiting && Released(r.value.p) && 1 in r.value.running
  {
    var s := EarlyEnd;
    var r0 := Round(Phaser(0, 0, 0, false), 0, false, {});
    var r1 := Round(Phaser(0, 1, 1, false), 1, false, {0});
    var r2 := Round(Phaser(0, 0, 0, true), 1, false, {});
    var r3 := Round(Phaser(0, 0, 0, true), 2, false, {1});
    assert s[..0] == [] && s[..1][..0] == s[..0] && s[..2][..1] == s[..1] && s[..3][..2] == s[..2] && s[..3] == s[..|s| - 1];
    assert {} + {0} == {0} && {} + {1} == {1};
    assert Run(AsWritten, s[..1]) == Step(AsWritten, r0, Submit) == Some(r1);
    assert {0} - {0} == {};
    assert Run(AsWritten, s[..2]) == Step(AsWritten, r1, Finish(0)) == Some(r2);
    assert Run(AsWritten, s[..3]) == Step(AsWritten, r2, Submit) == Some(r3);
    assert Run(AsWritten, s) == Step(AsWritten, r3, Await);
  }

  // ---------------------------------------------------------------- corrected

  /** What holds at every moment of a MainParty round. */
  ghost predicate MainInv(r: Round)
  {
    && (forall k :: k in r.running ==> k < r.submitted)
    && (!Released(r.p) ==>
          && r.p.parties == 1 + |r.running|
          && r.p.unarrived == (if r.waiting then 0 else 1) + |r.running|
          && r.p.unarrived >= 1)
    && (Released(r.p) ==>
          r.waiting && r.running == {} && r.p == Phaser(1, 1, 1, false))
  }

  lemma {:induction false} MainInvStep(r: Round, e: Event)
    requires Wf(r.p) && MainInv(r)
    ensures var next := Step(MainParty, r, e); next.Some? ==> MainInv(next.value)
  {
    var next := Step(MainParty, r, e);
    if next.Some? && !Released(r.p) {
      var n := next.value;
      match e
      case Submit =>
        assert r.submitted !in r.running;
        assert |r.running + {r.submitted}| == |r.running| + 1;
      case Await =>
      case Finish(k) =>
        assert |r.running - {k}| == |r.running| - 1;
    }
  }

  lemma {:induction false} MainInvRun(s: seq<Event>)
    ensures var r := Run(MainParty, s); r.Some? ==> MainInv(r.value)
    decreases |s|
  {
    if s != [] {
      MainInvRun(s[..|s| - 1]);
      var prev := Run(MainParty, s[..|s| - 1]);
      if prev.Some? {
        MainInvStep(prev.value, Last(s));
      }
    }
  }

  /**
   * With the main thread registered as a party from the start, it is released
   * exactly when it has started waiting and every task it submitted has
   * ended, whatever the order in which the tasks end.
   */
  lemma {:induction false} MainPartyWaitsForAll(s: seq<Event>)
    ensures var r := Run(MainParty, s);
      r.Some? ==> (Released(r.value.p) <==> r.value.waiting && r.value.running == {})
  {
    MainInvRun(s);
  }
}
