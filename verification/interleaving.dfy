/** Workers that each run the jobs of one chunk, where effects of different jobs commute: every
    interleaving ends as the jobs done one after another, up to what `view` sees of the state. */
module Interleaving {
  import opened Chunking

  /** The effects of a job, and its end; the end of a failed job waits until every worker is done. */
  datatype Job<E> = Job(effects: seq<E>, end: E, failed: bool) {
    function At(k: nat): E {
      if k < |effects| then effects[k] else end
    }

    /** How much of the job is done once its worker is done with it. */
    function WorkedOff(): nat {
      |effects| + if failed then 0 else 1
    }
  }

  ghost predicate SameAfter<S(!new), V, E>(step: (S, E) -> S, view: S -> V, a: S, b: S, e: E) {
    view(a) == view(b) ==> view(step(a, e)) == view(step(b, e))
  }

  ghost predicate CommuteAt<S(!new), V, E>(step: (S, E) -> S, view: S -> V, s: S, e: E, f: E) {
    view(step(step(s, e), f)) == view(step(step(s, f), e))
  }

  /** The view is kept by every effect, and effects of different jobs commute under it. */
  ghost predicate Commuting<S(!new), V, E(!new)>(step: (S, E) -> S, view: S -> V, jobs: seq<Job<E>>) {
    && (forall a: S, b: S, e: E :: SameAfter(step, view, a, b, e))
    && (forall s: S, i, k: nat, j, l: nat | 0 <= i < |jobs| && 0 <= j < |jobs| && i != j ::
          CommuteAt(step, view, s, jobs[i].At(k), jobs[j].At(l)))
  }

  // ----- job after job -----

  function UpTo<S, E>(step: (S, E) -> S, s: S, j: Job<E>, k: nat): S {
    if k == 0 then s else step(UpTo(step, s, j, k - 1), j.At(k - 1))
  }

  /** The first pcs[i] effects of each job i below n, job after job. */
  function InTurn<S, E>(step: (S, E) -> S, s: S, jobs: seq<Job<E>>, pcs: seq<nat>, n: nat): S
    requires n <= |jobs| == |pcs|
  {
    if n == 0 then s else UpTo(step, InTurn(step, s, jobs, pcs, n - 1), jobs[n - 1], pcs[n - 1])
  }

  lemma {:induction false} UpToSame<S(!new), V, E(!new)>(
      step: (S, E) -> S, view: S -> V, jobs: seq<Job<E>>, a: S, b: S, j: Job<E>, k: nat)
    requires Commuting(step, view, jobs) && view(a) == view(b)
    ensures view(UpTo(step, a, j, k)) == view(UpTo(step, b, j, k))
  {
    if k > 0 {
      UpToSame(step, view, jobs, a, b, j, k - 1);
      assert SameAfter(step, view, UpTo(step, a, j, k - 1), UpTo(step, b, j, k - 1), j.At(k - 1));
    }
  }

  lemma {:induction false} UpToCommutes<S(!new), V, E(!new)>(
      step: (S, E) -> S, view: S -> V, jobs: seq<Job<E>>, s: S, i: nat, l: nat, j: nat, k: nat)
    requires Commuting(step, view, jobs) && i < |jobs| && j < |jobs| && i != j
    ensures view(UpTo(step, step(s, jobs[i].At(l)), jobs[j], k)) == view(step(UpTo(step, s, jobs[j], k), jobs[i].At(l)))
  {
    if k > 0 {
      var e, f := jobs[i].At(l), jobs[j].At(k - 1);
      var before := UpTo(step, s, jobs[j], k - 1);
      UpToCommutes(step, view, jobs, s, i, l, j, k - 1);
      assert SameAfter(step, view, UpTo(step, step(s, e), jobs[j], k - 1), step(before, e), f);
      assert CommuteAt(step, view, before, e, f);
    }
  }

  lemma {:induction false} InTurnBefore<S, E>(
      step: (S, E) -> S, s: S, jobs: seq<Job<E>>, pcs: seq<nat>, i: nat, pc: nat, n: nat)
    requires n <= i < |jobs| == |pcs|
    ensures InTurn(step, s, jobs, pcs[i := pc], n) == InTurn(step, s, jobs, pcs, n)
  {
    if n > 0 {
      InTurnBefore(step, s, jobs, pcs, i, pc, n - 1);
    }
  }

  /** One more effect of any job, whatever the others have done, is as if it had come in its turn. */
  lemma {:induction false} InTurnStep<S(!new), V, E(!new)>(
      step: (S, E) -> S, view: S -> V, s: S, jobs: seq<Job<E>>, pcs: seq<nat>, i: nat, n: nat)
    requires Commuting(step, view, jobs) && i < n <= |jobs| == |pcs|
    ensures view(InTurn(step, s, jobs, pcs[i := pcs[i] + 1], n))
            == view(step(InTurn(step, s, jobs, pcs, n), jobs[i].At(pcs[i])))
  {
    if i == n - 1 {
      InTurnBefore(step, s, jobs, pcs, i, pcs[i] + 1, i);
    } else {
      var before, e := InTurn(step, s, jobs, pcs, n - 1), jobs[i].At(pcs[i]);
      InTurnStep(step, view, s, jobs, pcs, i, n - 1);
      UpToSame(step, view, jobs, InTurn(step, s, jobs, pcs[i := pcs[i] + 1], n - 1), step(before, e), jobs[n - 1],
          pcs[n - 1]);
      UpToCommutes(step, view, jobs, before, i, pcs[i], n - 1, pcs[n - 1]);
    }
  }

  // ----- the machine -----

  /** The batch under way: how many effects of each job are done, the jobs whose worker is done with
      them, and the failed ones in the order they were appended. */
  datatype Batch<S> = Batch(state: S, pcs: seq<nat>, recorded: set<nat>, failed: seq<nat>)

  function Start<S, E>(s: S, jobs: seq<Job<E>>): Batch<S> {
    Batch(s, seq(|jobs|, i => 0), {}, [])
  }

  /** One step of the worker on job i: its next effect, or, for a failed job, the append. */
  function JobStep<S, E>(step: (S, E) -> S, jobs: seq<Job<E>>, b: Batch<S>, i: nat): Batch<S>
    requires i < |jobs| == |b.pcs|
  {
    var j, pc := jobs[i], b.pcs[i];
    if pc < |j.effects| then b.(state := step(b.state, j.At(pc)), pcs := b.pcs[i := pc + 1])
    else if j.failed then b.(recorded := b.recorded + {i}, failed := b.failed + [i])
    else Batch(step(b.state, j.At(pc)), b.pcs[i := pc + 1], b.recorded + {i}, b.failed)
  }

  /** The first job from `from` on that is not recorded, or the end of the chunk. */
  function Current(recorded: set<nat>, from: nat, end: nat): (i: nat)
    requires from <= end
    ensures from <= i <= end && (i < end ==> i !in recorded)
    ensures forall k: nat | from <= k < i :: k in recorded
    decreases end - from
  {
    if from == end || from !in recorded then from else Current(recorded, from + 1, end)
  }

  /** One step of worker w; a worker at the end of its chunk does nothing. */
  function WorkerStep<S, E>(step: (S, E) -> S, jobs: seq<Job<E>>, chunks: seq<Chunk>, b: Batch<S>, w: nat): Batch<S>
    requires Covers(chunks, |jobs|) && |b.pcs| == |jobs|
  {
    if w >= |chunks| then b else
      var i := Current(b.recorded, chunks[w].start, chunks[w].end);
      if i == chunks[w].end then b else JobStep(step, jobs, b, i)
  }

  /** The workers' steps in the order the schedule names the workers. */
  function Run<S, E>(step: (S, E) -> S, jobs: seq<Job<E>>, chunks: seq<Chunk>, s: S, schedule: seq<nat>): (b: Batch<S>)
    requires Covers(chunks, |jobs|)
    ensures |b.pcs| == |jobs|
    decreases |schedule|
  {
    if schedule == [] then Start(s, jobs)
    else WorkerStep(step, jobs, chunks, Run(step, jobs, chunks, s, schedule[..|schedule| - 1]),
        schedule[|schedule| - 1])
  }

  /** Every worker is at the end of its chunk. */
  ghost predicate Waited<S>(chunks: seq<Chunk>, b: Batch<S>) {
    forall w | 0 <= w < |chunks| :: forall i: nat | In(i, chunks[w]) :: i in b.recorded
  }

  /** After the workers: the ends of the failed jobs, in the order they were appended. */
  function EndFailed<S, E>(step: (S, E) -> S, jobs: seq<Job<E>>, failed: seq<nat>, s: S): S
    requires forall k | 0 <= k < |failed| :: failed[k] < |jobs|
    decreases |failed|
  {
    if failed == [] then s else
      var n := |failed| - 1;
      step(EndFailed(step, jobs, failed[..n], s), jobs[failed[n]].end)
  }

  // ----- what every step keeps -----

  ghost predicate FailedShape<E>(jobs: seq<Job<E>>, recorded: set<nat>, failed: seq<nat>) {
    && (forall i, j | 0 <= i < j < |failed| :: failed[i] != failed[j])
    && (forall i: nat :: i in failed <==> i in recorded && i < |jobs| && jobs[i].failed)
  }

  ghost predicate Progressed<E>(jobs: seq<Job<E>>, pcs: seq<nat>, recorded: set<nat>) {
    && |pcs| == |jobs|
    && (forall i | i in recorded :: i < |jobs|)
    && (forall i: nat | i < |jobs| ::
          if i in recorded then pcs[i] == jobs[i].WorkedOff() else pcs[i] <= |jobs[i].effects|)
  }

  ghost predicate BatchShape<S, V, E>(step: (S, E) -> S, view: S -> V, jobs: seq<Job<E>>, s: S, b: Batch<S>) {
    && Progressed(jobs, b.pcs, b.recorded)
    && FailedShape(jobs, b.recorded, b.failed)
    && view(b.state) == view(InTurn(step, s, jobs, b.pcs, |jobs|))
  }

  lemma {:induction false} NothingDone<S, E>(step: (S, E) -> S, s: S, jobs: seq<Job<E>>, pcs: seq<nat>, n: nat)
    requires n <= |jobs| == |pcs| && forall i | 0 <= i < n :: pcs[i] == 0
    ensures InTurn(step, s, jobs, pcs, n) == s
  {
    if n > 0 {
      NothingDone(step, s, jobs, pcs, n - 1);
    }
  }

  lemma RecordFailed<E>(jobs: seq<Job<E>>, recorded: set<nat>, failed: seq<nat>, i: nat)
    requires FailedShape(jobs, recorded, failed) && i < |jobs| && i !in recorded
    ensures FailedShape(jobs, recorded + {i}, if jobs[i].failed then failed + [i] else failed)
  {
    assert forall j: nat | j < |failed| :: failed[j] in failed;
  }

  /** A step of any job that is not recorded keeps the closed form. */
  lemma JobStepKeeps<S(!new), V, E(!new)>(step: (S, E) -> S, view: S -> V, jobs: seq<Job<E>>, s: S, b: Batch<S>, i: nat)
    requires Commuting(step, view, jobs) && BatchShape(step, view, jobs, s, b) && i < |jobs| && i !in b.recorded
    ensures BatchShape(step, view, jobs, s, JobStep(step, jobs, b, i))
  {
    var before := InTurn(step, s, jobs, b.pcs, |jobs|);
    InTurnStep(step, view, s, jobs, b.pcs, i, |jobs|);
    assert SameAfter(step, view, b.state, before, jobs[i].At(b.pcs[i]));
    if b.pcs[i] == |jobs[i].effects| {
      RecordFailed(jobs, b.recorded, b.failed, i);
    }
  }

  lemma {:induction false} RunKeeps<S(!new), V, E(!new)>(
      step: (S, E) -> S, view: S -> V, jobs: seq<Job<E>>, chunks: seq<Chunk>, s: S, schedule: seq<nat>)
    requires Commuting(step, view, jobs) && Covers(chunks, |jobs|)
    ensures BatchShape(step, view, jobs, s, Run(step, jobs, chunks, s, schedule))
    decreases |schedule|
  {
    if schedule == [] {
      NothingDone(step, s, jobs, Start(s, jobs).pcs, |jobs|);
    } else {
      var n := |schedule| - 1;
      RunKeeps(step, view, jobs, chunks, s, schedule[..n]);
      var b := Run(step, jobs, chunks, s, schedule[..n]);
      var w := schedule[n];
      if w < |chunks| {
        var i := Current(b.recorded, chunks[w].start, chunks[w].end);
        if i < chunks[w].end {
          JobStepKeeps(step, view, jobs, s, b, i);
        }
      }
    }
  }

  // ----- the end -----

  /** The indexes below n. */
  function Below(n: nat): (r: set<nat>)
    ensures forall i: nat :: i in r <==> i < n
  {
    if n == 0 then {} else Below(n - 1) + {n - 1}
  }

  function AllWorkedOff<E>(jobs: seq<Job<E>>): seq<nat> {
    seq(|jobs|, i requires 0 <= i < |jobs| => jobs[i].WorkedOff())
  }

  /** Every effect of every job, its end included. */
  function Complete<E>(jobs: seq<Job<E>>): seq<nat> {
    seq(|jobs|, i requires 0 <= i < |jobs| => |jobs[i].effects| + 1)
  }

  lemma WaitedMeansAll<S, E>(jobs: seq<Job<E>>, chunks: seq<Chunk>, b: Batch<S>)
    requires Covers(chunks, |jobs|) && Progressed(jobs, b.pcs, b.recorded) && Waited(chunks, b)
    ensures b.recorded == Below(|jobs|) && b.pcs == AllWorkedOff(jobs)
  {
    forall i: nat | i < |jobs| ensures i in b.recorded && b.pcs[i] == jobs[i].WorkedOff() {
      InOneChunk(chunks, |jobs|, i);
      var w: nat :| w < |chunks| && In(i, chunks[w]);
    }
  }

  /** The progress of the jobs once those listed in `failed` have had their end. */
  function Ended<E>(jobs: seq<Job<E>>, failed: seq<nat>): seq<nat> {
    seq(|jobs|, i requires 0 <= i < |jobs| => jobs[i].WorkedOff() + if i in failed then 1 else 0)
  }

  lemma EndedLast<E>(jobs: seq<Job<E>>, failed: seq<nat>, n: nat)
    requires n < |failed| && failed[n] < |jobs| && failed[n] !in failed[..n]
    ensures Ended(jobs, failed[..n + 1]) == Ended(jobs, failed[..n])[failed[n] := jobs[failed[n]].WorkedOff() + 1]
  {
    assert failed[..n + 1] == failed[..n] + [failed[n]];
  }

  lemma {:induction false} EndFailedKeeps<S(!new), V, E(!new)>(
      step: (S, E) -> S, view: S -> V, jobs: seq<Job<E>>, s: S, failed: seq<nat>, now: S, n: nat)
    requires Commuting(step, view, jobs) && n <= |failed| && FailedShape(jobs, Below(|jobs|), failed)
    requires forall k | 0 <= k < |failed| :: failed[k] < |jobs| && jobs[failed[k]].failed
    requires view(now) == view(InTurn(step, s, jobs, AllWorkedOff(jobs), |jobs|))
    ensures view(EndFailed(step, jobs, failed[..n], now))
            == view(InTurn(step, s, jobs, Ended(jobs, failed[..n]), |jobs|))
  {
    if n == 0 {
      assert Ended(jobs, failed[..0]) == AllWorkedOff(jobs);
    } else {
      EndFailedKeeps(step, view, jobs, s, failed, now, n - 1);
      assert failed[..n][..n - 1] == failed[..n - 1];
      var i, pcs := failed[n - 1], Ended(jobs, failed[..n - 1]);
      EndedLast(jobs, failed, n - 1);
      InTurnStep(step, view, s, jobs, pcs, i, |jobs|);
      assert SameAfter(step, view, EndFailed(step, jobs, failed[..n - 1], now), InTurn(step, s, jobs, pcs, |jobs|),
             jobs[i].end);
    }
  }

  /** Once every job is worked off and the failed ones have had their end, all is done once. */
  lemma AllEnded<S(!new), V, E(!new)>(
      step: (S, E) -> S, view: S -> V, jobs: seq<Job<E>>, s: S, failed: seq<nat>, now: S)
    requires Commuting(step, view, jobs) && FailedShape(jobs, Below(|jobs|), failed)
    requires view(now) == view(InTurn(step, s, jobs, AllWorkedOff(jobs), |jobs|))
    ensures forall k | 0 <= k < |failed| :: failed[k] < |jobs| && jobs[failed[k]].failed
    ensures view(EndFailed(step, jobs, failed, now)) == view(InTurn(step, s, jobs, Complete(jobs), |jobs|))
  {
    assert forall k | 0 <= k < |failed| :: failed[k] in failed;
    EndFailedKeeps(step, view, jobs, s, failed, now, |failed|);
    assert failed[..|failed|] == failed;
    assert Ended(jobs, failed) == Complete(jobs);
  }

  /** Whatever the schedule, once every worker is done and the failed jobs have had their end, the state
      looks as if the jobs had been done one after another. */
  lemma ScheduleIrrelevant<S(!new), V, E(!new)>(
      step: (S, E) -> S, view: S -> V, jobs: seq<Job<E>>, chunks: seq<Chunk>, s: S, schedule: seq<nat>)
    requires Commuting(step, view, jobs) && Covers(chunks, |jobs|)
    requires Waited(chunks, Run(step, jobs, chunks, s, schedule))
    ensures var b := Run(step, jobs, chunks, s, schedule);
            && (forall k | 0 <= k < |b.failed| :: b.failed[k] < |jobs|)
            && view(EndFailed(step, jobs, b.failed, b.state)) == view(InTurn(step, s, jobs, Complete(jobs), |jobs|))
  {
    var b := Run(step, jobs, chunks, s, schedule);
    RunKeeps(step, view, jobs, chunks, s, schedule);
    WaitedMeansAll(jobs, chunks, b);
    AllEnded(step, view, jobs, s, b.failed, b.state);
  }

  // ----- the workers finish -----

  /** The steps that jobs 0 to n - 1 still have to make. */
  function Left<E>(jobs: seq<Job<E>>, pcs: seq<nat>, recorded: set<nat>, n: nat): int
    requires n <= |jobs| == |pcs|
  {
    if n == 0 then 0 else
      Left(jobs, pcs, recorded, n - 1) + if n - 1 in recorded then 0 else |jobs[n - 1].effects| - pcs[n - 1] + 1
  }

  lemma {:induction false} JobStepLeaves<S, E>(step: (S, E) -> S, jobs: seq<Job<E>>, b: Batch<S>, i: nat, n: nat)
    requires i < |jobs| == |b.pcs| && n <= |jobs| && i !in b.recorded && b.pcs[i] <= |jobs[i].effects|
    ensures var b' := JobStep(step, jobs, b, i);
            Left(jobs, b'.pcs, b'.recorded, n) == Left(jobs, b.pcs, b.recorded, n) - if i < n then 1 else 0
  {
    if n > 0 {
      JobStepLeaves(step, jobs, b, i, n - 1);
    }
  }

  /** While the workers are not all done, a step of some worker brings the end nearer by one, so every
      schedule that keeps stepping unfinished workers ends after Left steps. */
  lemma WorkersFinish<S, E>(step: (S, E) -> S, jobs: seq<Job<E>>, chunks: seq<Chunk>, b: Batch<S>)
    requires Covers(chunks, |jobs|) && Progressed(jobs, b.pcs, b.recorded) && !Waited(chunks, b)
    ensures exists w: nat | w < |chunks| ::
              var b' := WorkerStep(step, jobs, chunks, b, w);
              Left(jobs, b'.pcs, b'.recorded, |jobs|) == Left(jobs, b.pcs, b.recorded, |jobs|) - 1
  {
    var w: nat, i: nat :| w < |chunks| && In(i, chunks[w]) && i !in b.recorded;
    var k := Current(b.recorded, chunks[w].start, chunks[w].end);
    JobStepLeaves(step, jobs, b, k, |jobs|);
    var b' := WorkerStep(step, jobs, chunks, b, w);
    assert Left(jobs, b'.pcs, b'.recorded, |jobs|) == Left(jobs, b.pcs, b.recorded, |jobs|) - 1;
  }
}
