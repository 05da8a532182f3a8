/**
  * Running a fixed set of prompts with a bounded number in flight, stopping once the
  * account is dry: `all`, the `exhausted` flag and the tallies of
  * apps/agen/scripts/benchmark-prompts.ts.
  *
  * The workers share one thread, so each runs undisturbed from one await to the next. A
  * step below is one such stretch, and a run is any interleaving of steps.
  */
module WorkerPool {

  import opened Basics

  /** A prompt, by its symbol. */
  datatype Case = Case(symbol: string)

  /** A finished build; starved when it failed with MODEL_UNAVAILABLE. */
  datatype Result = Result(entry: Case, starved: bool)

  datatype Worker =
    | Ready                    // at the head of its loop
    | Building(entry: Case)    // awaiting the build
    | Built(result: Result)    // the build resolved, the worker not yet resumed
    | Stopped

  datatype Pool = Pool(queue: seq<Case>, results: seq<Result>, exhausted: bool, workers: seq<Worker>)

  datatype Step =
    | Head(worker: nat)
    | Finish(worker: nat, starved: bool)
    | Resume(worker: nat)

  function WorkerCount(cases: seq<Case>, concurrency: int): nat {
    Max(1, Min(concurrency, |cases|))
  }

  function Start(cases: seq<Case>, concurrency: int): Pool {
    Pool(cases, [], false, seq(WorkerCount(cases, concurrency), _ => Ready))
  }

  predicate Enabled(s: Pool, step: Step) {
    step.worker < |s.workers| &&
    match step
    case Head(i) => s.workers[i].Ready?
    case Finish(i, _) => s.workers[i].Building?
    case Resume(i) => s.workers[i].Built?
  }

  function Apply(s: Pool, step: Step): Pool
    requires Enabled(s, step)
  {
    match step
    case Head(i) =>
      if s.exhausted || s.queue == [] then s.(workers := s.workers[i := Stopped])
      else s.(queue := s.queue[1..], workers := s.workers[i := Building(s.queue[0])])
    case Finish(i, starved) =>
      s.(exhausted := s.exhausted || starved,
         workers := s.workers[i := Built(Result(s.workers[i].entry, starved))])
    case Resume(i) =>
      s.(results := s.results + [s.workers[i].result], workers := s.workers[i := Ready])
  }

  /** The steps lead from s to t. */
  predicate Runs(s: Pool, steps: seq<Step>, t: Pool)
    decreases |steps|
  {
    if steps == [] then s == t
    else Enabled(s, steps[0]) && Runs(Apply(s, steps[0]), steps[1..], t)
  }

  predicate Done(s: Pool) { forall i | 0 <= i < |s.workers| :: s.workers[i].Stopped? }

  // ----- where every case is --------------------------------------------------------------

  function Total(workers: seq<Worker>, f: Worker -> nat): nat {
    if workers == [] then 0 else f(workers[0]) + Total(workers[1..], f)
  }

  lemma {:induction false} ReplaceOne(workers: seq<Worker>, i: nat, w: Worker, f: Worker -> nat)
    requires i < |workers|
    ensures Total(workers[i := w], f) + f(workers[i]) == Total(workers, f) + f(w)
  {
    if i == 0 {
      assert workers[i := w][1..] == workers[1..];
    } else {
      ReplaceOne(workers[1..], i - 1, w, f);
      assert workers[i := w][1..] == workers[1..][i - 1 := w];
    }
  }

  lemma {:induction false} TotalAtMost(workers: seq<Worker>, f: Worker -> nat)
    requires forall w :: f(w) <= 1
    ensures Total(workers, f) <= |workers|
  {
    if workers != [] {
      TotalAtMost(workers[1..], f);
    }
  }

  lemma {:induction false} TotalOf(workers: seq<Worker>, f: Worker -> nat, each: nat)
    requires forall i | 0 <= i < |workers| :: f(workers[i]) == each
    ensures Total(workers, f) == |workers| * each
  {
    if workers != [] {
      TotalOf(workers[1..], f, each);
    }
  }

  /** Whether a worker has a case in hand, and whether it is this one. */
  function Busy(worker: Worker): nat {
    if worker.Building? || worker.Built? then 1 else 0
  }

  function Holds(entry: Case, worker: Worker): nat {
    match worker
    case Building(held) => if held == entry then 1 else 0
    case Built(result) => if result.entry == entry then 1 else 0
    case _ => 0
  }

  /** Workers with this case in hand. */
  function Held(workers: seq<Worker>, entry: Case): nat {
    Total(workers, w => Holds(entry, w))
  }

  function InFlight(workers: seq<Worker>): nat { Total(workers, Busy) }

  function Copies(cases: seq<Case>, entry: Case): nat {
    if cases == [] then 0
    else Copies(cases[..|cases| - 1], entry) + if cases[|cases| - 1] == entry then 1 else 0
  }

  function Results(results: seq<Result>, entry: Case): nat {
    if results == [] then 0
    else Results(results[..|results| - 1], entry) + if results[|results| - 1].entry == entry then 1 else 0
  }

  function Starved(results: seq<Result>): nat {
    if results == [] then 0
    else Starved(results[..|results| - 1]) + if results[|results| - 1].starved then 1 else 0
  }

  predicate BuiltStarved(worker: Worker) { worker.Built? && worker.result.starved }

  // ----- what every step keeps ---------------------------------------------------------------

  /** Started cases: those no longer queued. */
  function StartedCases(cases: seq<Case>, s: Pool): seq<Case>
    requires |s.queue| <= |cases|
  {
    cases[..|cases| - |s.queue|]
  }

  /** Cases leave the queue in the order given, so none is started twice. */
  predicate InOrder(cases: seq<Case>, s: Pool) {
    |s.queue| <= |cases| && s.queue == cases[|cases| - |s.queue|..]
  }

  /** What was started is being built or has its result, and nothing else is. */
  ghost predicate Accounted(cases: seq<Case>, s: Pool) {
    && InOrder(cases, s)
    && |StartedCases(cases, s)| == |s.results| + InFlight(s.workers)
    && forall entry :: Copies(StartedCases(cases, s), entry) == Results(s.results, entry) + Held(s.workers, entry)
  }

  /** The flag is up exactly when some build starved, and workers stop only for a reason. */
  ghost predicate Flagged(s: Pool) {
    && (s.exhausted <==> Starved(s.results) > 0 || exists i :: 0 <= i < |s.workers| && BuiltStarved(s.workers[i]))
    && (forall i | 0 <= i < |s.workers| && s.workers[i].Stopped? :: s.exhausted || s.queue == [])
  }

  ghost predicate Inv(cases: seq<Case>, s: Pool) {
    |s.workers| >= 1 && Accounted(cases, s) && Flagged(s)
  }

  lemma InvStart(cases: seq<Case>, concurrency: int)
    ensures Inv(cases, Start(cases, concurrency))
  {
    var s := Start(cases, concurrency);
    TotalOf(s.workers, Busy, 0);
    forall entry ensures Held(s.workers, entry) == 0 {
      TotalOf(s.workers, w => Holds(entry, w), 0);
    }
  }

  predicate Takes(s: Pool, step: Step) { step.Head? && !s.exhausted && s.queue != [] }

  /** A step moves cases between hands and results, and only a take brings a new one in. */
  lemma HandsStep(s: Pool, step: Step, entry: Case)
    requires Enabled(s, step)
    ensures
      var u := Apply(s, step);
      && |u.results| + InFlight(u.workers) == |s.results| + InFlight(s.workers) + (if Takes(s, step) then 1 else 0)
      && Results(u.results, entry) + Held(u.workers, entry)
         == Results(s.results, entry) + Held(s.workers, entry)
            + (if Takes(s, step) && s.queue[0] == entry then 1 else 0)
  {
    var u, i := Apply(s, step), step.worker;
    ReplaceOne(s.workers, i, u.workers[i], Busy);
    ReplaceOne(s.workers, i, u.workers[i], w => Holds(entry, w));
    hide Total;
    if step.Resume? {
      assert u.results[..|u.results| - 1] == s.results;
    }
  }

  lemma StartedStep(cases: seq<Case>, s: Pool, step: Step, entry: Case)
    requires Enabled(s, step) && InOrder(cases, s)
    ensures
      var t := Apply(s, step);
      && InOrder(cases, t)
      && Copies(StartedCases(cases, t), entry)
         == Copies(StartedCases(cases, s), entry) + if Takes(s, step) && s.queue[0] == entry then 1 else 0
  {
    if Takes(s, step) {
      var before, after := StartedCases(cases, s), StartedCases(cases, Apply(s, step));
      assert after == before + [s.queue[0]];
      assert after[..|after| - 1] == before;
    }
  }

  lemma AccountedStep(cases: seq<Case>, s: Pool, step: Step)
    requires Accounted(cases, s) && Enabled(s, step)
    ensures Accounted(cases, Apply(s, step))
  {
    var t := Apply(s, step);
    HandsStep(s, step, Case(""));
    StartedStep(cases, s, step, Case(""));
    forall entry
      ensures Copies(StartedCases(cases, t), entry) == Results(t.results, entry) + Held(t.workers, entry)
    {
      hide Apply, Results, Held, Copies;
      HandsStep(s, step, entry);
      StartedStep(cases, s, step, entry);
    }
  }

  lemma FlaggedStep(s: Pool, step: Step)
    requires Flagged(s) && Enabled(s, step)
    ensures Flagged(Apply(s, step))
  {
    var t, i := Apply(s, step), step.worker;
    assert forall j | 0 <= j < |s.workers| && j != i :: t.workers[j] == s.workers[j];
    match step
    case Head(_) =>
      Carried(s.workers, t.workers, i);
    case Finish(_, starved) =>
      Carried(s.workers, t.workers, i);
      if starved {
        assert BuiltStarved(t.workers[i]);
      }
    case Resume(_) =>
      assert t.results[..|t.results| - 1] == s.results;
      if exists j :: 0 <= j < |s.workers| && BuiltStarved(s.workers[j]) {
        var j :| 0 <= j < |s.workers| && BuiltStarved(s.workers[j]);
        if j != i {
          assert BuiltStarved(t.workers[j]);
        }
      }
  }

  /** The other workers' results are still waiting. */
  lemma Carried(workers: seq<Worker>, next: seq<Worker>, i: nat)
    requires |next| == |workers| && i < |workers| && !workers[i].Built?
    requires forall j | 0 <= j < |workers| && j != i :: next[j] == workers[j]
    ensures (exists j :: 0 <= j < |workers| && BuiltStarved(workers[j])) ==>
              exists j :: 0 <= j < |next| && BuiltStarved(next[j])
    ensures (exists j :: 0 <= j < |next| && BuiltStarved(next[j])) ==>
              BuiltStarved(next[i]) || exists j :: 0 <= j < |workers| && BuiltStarved(workers[j])
  {
    if j :| 0 <= j < |workers| && BuiltStarved(workers[j]) {
      assert BuiltStarved(next[j]);
    }
    if j :| 0 <= j < |next| && BuiltStarved(next[j]) && j != i {
      assert BuiltStarved(workers[j]);
    }
  }

  lemma {:induction false} InvHolds(cases: seq<Case>, s: Pool, steps: seq<Step>, t: Pool)
    requires Inv(cases, s) && Runs(s, steps, t)
    ensures Inv(cases, t)
    decreases |steps|
  {
    if steps != [] {
      AccountedStep(cases, s, steps[0]);
      FlaggedStep(s, steps[0]);
      hide Accounted, Flagged;
      InvHolds(cases, Apply(s, steps[0]), steps[1..], t);
    }
  }

  // ----- the end of a run ---------------------------------------------------------------------

  lemma {:induction false} StarvedAtMost(results: seq<Result>)
    ensures Starved(results) <= |results|
  {
    if results != [] {
      StarvedAtMost(results[..|results| - 1]);
    }
  }

  /**
    * However the workers interleave, when all have stopped every case was either built once
    * or never tried, in the order given, and cases are left untried only if one starved.
    */
  lemma RunAccountsForEveryCase(cases: seq<Case>, concurrency: int, steps: seq<Step>, t: Pool)
    requires Runs(Start(cases, concurrency), steps, t) && Done(t)
    ensures InOrder(cases, t)
    ensures forall entry :: Results(t.results, entry) == Copies(StartedCases(cases, t), entry)
    ensures |t.results| + |t.queue| == |cases|
    ensures t.exhausted <==> Starved(t.results) > 0
    ensures t.queue != [] ==> t.exhausted
  {
    InvStart(cases, concurrency);
    InvHolds(cases, Start(cases, concurrency), steps, t);
    TotalOf(t.workers, Busy, 0);
    forall entry ensures Held(t.workers, entry) == 0 {
      TotalOf(t.workers, w => Holds(entry, w), 0);
    }
    assert t.workers[0].Stopped?;
  }

  /** The three tallies the run reports. */
  function Measured(s: Pool): int { |s.results| - Starved(s.results) }

  function Skipped(s: Pool): int { |s.queue| }

  predicate Incomplete(s: Pool) { Starved(s.results) > 0 || Skipped(s) > 0 }

  /** They cover the cases, and a run is incomplete exactly when some build starved. */
  lemma TalliesCoverTheCases(cases: seq<Case>, concurrency: int, steps: seq<Step>, t: Pool)
    requires Runs(Start(cases, concurrency), steps, t) && Done(t)
    ensures 0 <= Measured(t) && Measured(t) + Starved(t.results) + Skipped(t) == |cases|
    ensures Incomplete(t) <==> Starved(t.results) > 0
  {
    RunAccountsForEveryCase(cases, concurrency, steps, t);
    StarvedAtMost(t.results);
  }

  lemma {:induction false} CopiesConcat(a: seq<Case>, b: seq<Case>, entry: Case)
    ensures Copies(a + b, entry) == Copies(a, entry) + Copies(b, entry)
  {
    if b == [] {
      assert a + b == a;
    } else {
      CopiesConcat(a, b[..|b| - 1], entry);
      assert (a + b)[..|a + b| - 1] == a + b[..|b| - 1];
    }
  }

  /** At no point of any run has a case been built twice, or been taken while still queued. */
  lemma NoCaseBuiltTwice(cases: seq<Case>, concurrency: int, steps: seq<Step>, t: Pool, entry: Case)
    requires Runs(Start(cases, concurrency), steps, t)
    ensures Results(t.results, entry) + Held(t.workers, entry) + Copies(t.queue, entry) == Copies(cases, entry)
  {
    InvStart(cases, concurrency);
    InvHolds(cases, Start(cases, concurrency), steps, t);
    assert cases == StartedCases(cases, t) + t.queue;
    CopiesConcat(StartedCases(cases, t), t.queue, entry);
  }

  // ----- how many at a time -----------------------------------------------------------------------

  /** As many workers as asked for, but no more than cases, and always one. */
  lemma WorkersAreFew(cases: seq<Case>, concurrency: int)
    ensures |Start(cases, concurrency).workers|
            == if concurrency < 1 || |cases| == 0 then 1 else if concurrency <= |cases| then concurrency else |cases|
  {
  }

  lemma {:induction false} WorkersAreFixed(s: Pool, steps: seq<Step>, t: Pool)
    requires Runs(s, steps, t)
    ensures |t.workers| == |s.workers|
    decreases |steps|
  {
    if steps != [] {
      WorkersAreFixed(Apply(s, steps[0]), steps[1..], t);
    }
  }

  /** At no point of any run are more builds in flight than asked for. */
  lemma InFlightWithinConcurrency(cases: seq<Case>, concurrency: int, steps: seq<Step>, t: Pool)
    requires Runs(Start(cases, concurrency), steps, t)
    ensures InFlight(t.workers) <= if concurrency >= 1 then concurrency else 1
  {
    WorkersAreFew(cases, concurrency);
    WorkersAreFixed(Start(cases, concurrency), steps, t);
    TotalAtMost(t.workers, Busy);
  }

  // ----- after the account is dry -----------------------------------------------------------------

  /** Once the flag is up the queue is frozen, and only builds already in flight finish. */
  lemma {:induction false} FrozenOnceExhausted(s: Pool, steps: seq<Step>, t: Pool, entry: Case)
    requires s.exhausted && Runs(s, steps, t)
    ensures t.exhausted && t.queue == s.queue && |t.workers| == |s.workers|
    ensures |t.results| + InFlight(t.workers) == |s.results| + InFlight(s.workers)
    ensures Results(t.results, entry) + Held(t.workers, entry) == Results(s.results, entry) + Held(s.workers, entry)
    decreases |steps|
  {
    if steps != [] {
      HandsStep(s, steps[0], entry);
      hide InFlight, Held, Results;
      FrozenOnceExhausted(Apply(s, steps[0]), steps[1..], t, entry);
    }
  }

  /**
    * At most one build fewer than the limit still finishes besides the one that raises the flag, at
    * whatever point of a run that is.
    */
  lemma FewFinishAfterExhaustion(cases: seq<Case>, concurrency: int, before: seq<Step>, s: Pool, i: nat, steps: seq<Step>, t: Pool)
    requires Runs(Start(cases, concurrency), before, s)
    requires Enabled(s, Finish(i, true)) && Runs(Apply(s, Finish(i, true)), steps, t)
    ensures |t.results| <= |s.results| + 1 + (if concurrency >= 1 then concurrency - 1 else 0)
  {
    var u := Apply(s, Finish(i, true));
    FrozenOnceExhausted(u, steps, t, Case(""));
    TotalAtMost(u.workers, Busy);
    WorkersAreFixed(Start(cases, concurrency), before, s);
    WorkersAreFew(cases, concurrency);
  }

  // ----- every result is its build's --------------------------------------------------------------

  function Times(results: seq<Result>, r: Result): nat {
    if results == [] then 0 else Times(Front(results), r) + if Last(results) == r then 1 else 0
  }

  function HasBuilt(r: Result, worker: Worker): nat { if worker == Built(r) then 1 else 0 }

  /** Results a worker has not yet handed in. */
  function Waiting(workers: seq<Worker>, r: Result): nat { Total(workers, w => HasBuilt(r, w)) }

  /** How often a run's builds of this case ended this way. */
  function Builds(s: Pool, steps: seq<Step>, r: Result): nat
    decreases |steps|
  {
    if steps == [] || !Enabled(s, steps[0]) then 0
    else
      var step := steps[0];
      (if step.Finish? && s.workers[step.worker] == Building(r.entry) && step.starved == r.starved then 1 else 0)
      + Builds(Apply(s, step), steps[1..], r)
  }

  lemma OutcomeStep(s: Pool, step: Step, r: Result)
    requires Enabled(s, step)
    ensures
      var u := Apply(s, step);
      Times(u.results, r) + Waiting(u.workers, r)
      == Times(s.results, r) + Waiting(s.workers, r)
         + if step.Finish? && s.workers[step.worker] == Building(r.entry) && step.starved == r.starved then 1 else 0
  {
    var u, i := Apply(s, step), step.worker;
    ReplaceOne(s.workers, i, u.workers[i], w => HasBuilt(r, w));
    hide Total;
    if step.Resume? {
      assert Front(u.results) == s.results;
    }
  }

  lemma {:induction false} OutcomesAddUp(s: Pool, steps: seq<Step>, t: Pool, r: Result)
    requires Runs(s, steps, t)
    ensures Times(t.results, r) + Waiting(t.workers, r) == Times(s.results, r) + Waiting(s.workers, r) + Builds(s, steps, r)
    decreases |steps|
  {
    if steps != [] {
      OutcomeStep(s, steps[0], r);
      hide Times, Waiting, Apply, Enabled;
      OutcomesAddUp(Apply(s, steps[0]), steps[1..], t, r);
    }
  }

  /** On return a case stands as measured or as starved exactly as often as its builds ended so. */
  lemma ResultsAreTheBuilds(cases: seq<Case>, concurrency: int, steps: seq<Step>, t: Pool, r: Result)
    requires Runs(Start(cases, concurrency), steps, t) && Done(t)
    ensures Times(t.results, r) == Builds(Start(cases, concurrency), steps, r)
  {
    OutcomesAddUp(Start(cases, concurrency), steps, t, r);
    TotalOf(t.workers, w => HasBuilt(r, w), 0);
    TotalOf(Start(cases, concurrency).workers, w => HasBuilt(r, w), 0);
  }

  // ----- every run ends ------------------------------------------------------------------------------

  function Weight(worker: Worker): nat {
    match worker
    case Ready => 1
    case Building(_) => 3
    case Built(_) => 2
    case Stopped => 0
  }

  /** Steps left at most. */
  function Remaining(s: Pool): nat { 3 * |s.queue| + Total(s.workers, Weight) }

  /** No run is longer than the work there is. */
  lemma {:induction false} RunsAreBounded(s: Pool, steps: seq<Step>, t: Pool)
    requires Runs(s, steps, t)
    ensures |steps| + Remaining(t) <= Remaining(s)
    decreases |steps|
  {
    if steps != [] {
      var u, i := Apply(s, steps[0]), steps[0].worker;
      ReplaceOne(s.workers, i, u.workers[i], Weight);
      hide Total;
      RunsAreBounded(u, steps[1..], t);
    }
  }

  /** A run that can go no further has stopped every worker, within three steps a case and one a worker. */
  lemma EveryRunStops(cases: seq<Case>, concurrency: int, steps: seq<Step>, t: Pool)
    requires Runs(Start(cases, concurrency), steps, t)
    ensures |steps| <= 3 * |cases| + (if concurrency < 1 || |cases| == 0 then 1
                                      else if concurrency <= |cases| then concurrency else |cases|)
    ensures (forall step :: !Enabled(t, step)) <==> Done(t)
  {
    RunsAreBounded(Start(cases, concurrency), steps, t);
    WorkersAreFew(cases, concurrency);
    TotalOf(Start(cases, concurrency).workers, Weight, 1);
    if !Done(t) {
      var i :| 0 <= i < |t.workers| && !t.workers[i].Stopped?;
      assert Enabled(t, Head(i)) || Enabled(t, Finish(i, true)) || Enabled(t, Resume(i));
    }
  }
}
