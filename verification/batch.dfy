/** processBatch and the failure table as methods on shared objects. */
module BatchProcessing {
  import opened Domain
  import opened CheckLink
  import opened LinkChecking
  import opened SqlRepositories
  import opened FailureReports
  import opened Chunking
  import opened Effects
  import opened Interleaving
  import opened Pool

  class FailureTable {
    var reportedFailures: map<int, string>
    var reports: seq<Report>

    constructor ()
      ensures reportedFailures == map[] && reports == []
    {
      reportedFailures, reports := map[], [];
    }

    method ShouldReportFailure(link: int, preview: string) returns (should: bool)
      modifies this`reportedFailures
      ensures should == (Lookup(old(reportedFailures), link) != Some(preview))
      ensures reportedFailures == if should then old(reportedFailures)[link := preview] else old(reportedFailures)
    {
      if link in reportedFailures && reportedFailures[link] == preview {
        return false;
      }
      reportedFailures := reportedFailures[link := preview];
      should := true;
    }

    method ClearReportedFailure(link: int)
      modifies this`reportedFailures
      ensures reportedFailures == old(reportedFailures) - {link}
    {
      reportedFailures := reportedFailures - {link};
    }

    method ReportLinkFailure(link: int, f: Outcome)
      requires f.Failure?
      modifies this
      ensures reportedFailures == After(old(reportedFailures), link, f).0
      ensures reports == old(reports) + AsSeq(After(old(reportedFailures), link, f).1)
    {
      var should := ShouldReportFailure(link, f.preview);
      if !should {
        return;
      }
      if f.subscribers.None? {
        ClearReportedFailure(link);
        return;
      }
      if |f.subscribers.value| == 0 {
        return;
      }
      reports := reports + [Report(link, f.subscribers.value, f.preview)];
      if !f.sends {
        ClearReportedFailure(link);
      }
    }
  }

  class BatchProcessor {
    const checker: LinkChecker
    const failures: FailureTable
    const workerCount: int

    constructor (checker: LinkChecker, failures: FailureTable, workerCount: int)
      ensures this.checker == checker && this.failures == failures
      ensures this.workerCount == if workerCount <= 0 then 1 else workerCount
    {
      this.checker, this.failures := checker, failures;
      this.workerCount := if workerCount <= 0 then 1 else workerCount;
    }

    function Now(): Shared
      reads this, checker, checker.db, failures
    {
      Shared(checker.Now(), failures.reportedFailures, failures.reports)
    }

    /** One turn of a worker's loop. */
    method TakeOne(v: Visit, i: nat, failed: seq<nat>) returns (failed': seq<nat>)
      modifies checker, checker.db, failures
      ensures (Now(), failed') == Turn(checker.outboxEnabled, old(Now()), failed, v, i)
      ensures MarksOnly(old(checker.db.tables), checker.db.tables)
    {
      var ok := checker.ProcessLink(v.link, v.met);
      if !ok {
        return failed + [i];
      }
      failures.ClearReportedFailure(v.link.id);
      failed' := failed;
    }

    /** One worker: the links of its chunk in order. */
    method Work(ghost base: Shared, visits: seq<Visit>, chunk: Chunk, failed: seq<nat>) returns (failed': seq<nat>)
      requires chunk.start <= chunk.end <= |visits|
      requires (Now(), failed) == Turns(checker.outboxEnabled, base, visits, chunk.start)
      modifies checker, checker.db, failures
      ensures (Now(), failed') == Turns(checker.outboxEnabled, base, visits, chunk.end)
      ensures MarksOnly(old(checker.db.tables), checker.db.tables)
    {
      failed' := failed;
      MarksOnlyItself(checker.db.tables);
      for i := chunk.start to chunk.end
        invariant (Now(), failed') == Turns(checker.outboxEnabled, base, visits, i)
        invariant MarksOnly(old(checker.db.tables), checker.db.tables)
      {
        ghost var before := checker.db.tables;
        failed' := TakeOne(visits[i], i, failed');
        MarksOnlyJoins(old(checker.db.tables), before, checker.db.tables);
      }
    }

    /** The workers one after another. */
    method WorkAll(visits: seq<Visit>) returns (failed: seq<nat>)
      modifies checker, checker.db, failures
      ensures (Now(), failed) == Turns(checker.outboxEnabled, old(Now()), visits, |visits|)
      ensures MarksOnly(old(checker.db.tables), checker.db.tables)
    {
      ghost var base := Now();
      MarksOnlyItself(checker.db.tables);
      var chunks := Chunks(|visits|, workerCount);
      failed := [];
      ghost var reached := 0;
      for w := 0 to |chunks|
        invariant reached == (if w == 0 then 0 else chunks[w - 1].end) <= |visits|
        invariant (Now(), failed) == Turns(checker.outboxEnabled, base, visits, reached)
        invariant MarksOnly(old(checker.db.tables), checker.db.tables)
      {
        ghost var before := checker.db.tables;
        failed := Work(base, visits, chunks[w], failed);
        MarksOnlyJoins(old(checker.db.tables), before, checker.db.tables);
        reached := chunks[w].end;
      }
    }

    /** processBatch: it ends as one sequential pass over the batch does. */
    method ProcessBatch(visits: seq<Visit>)
      requires IsBatch(checker.outboxEnabled, visits)
      modifies checker, checker.db, failures
      ensures TallyOf(Now()) == TallyOf(Pass(checker.outboxEnabled, old(Now()), visits))
      ensures MarksOnly(old(checker.db.tables), checker.db.tables)
    {
      TurnsEnd(checker.outboxEnabled, Now(), visits);
      var failed := WorkAll(visits);
      ReportEach(visits, failed);
    }

    /** The loop after wg.Wait. */
    method ReportEach(visits: seq<Visit>, failed: seq<nat>)
      requires forall k | 0 <= k < |failed| :: failed[k] < |visits| && visits[failed[k]].ended.Failure?
      modifies failures
      ensures Now() == EndFailed(Apply, Jobs(checker.outboxEnabled, visits), failed, old(Now()))
    {
      ghost var jobs := Jobs(checker.outboxEnabled, visits);
      assert failed[..0] == [];
      for k := 0 to |failed|
        invariant Now() == EndFailed(Apply, jobs, failed[..k], old(Now()))
      {
        assert failed[..k + 1][..k] == failed[..k];
        failures.ReportLinkFailure(visits[failed[k]].link.id, visits[failed[k]].ended);
      }
      assert failed[..|failed|] == failed;
    }
  }

  // ----- what the turns of the workers' loops come to -----

  function Turn(outboxEnabled: bool, s: Shared, failed: seq<nat>, v: Visit, i: nat): (Shared, seq<nat>) {
    var (state, ok) := Check(outboxEnabled, s.state, v.link, v.met);
    if ok then (Shared(state, s.table - {v.link.id}, s.reports), failed)
    else (Shared(state, s.table, s.reports), failed + [i])
  }

  function Turns(outboxEnabled: bool, base: Shared, visits: seq<Visit>, n: nat): (Shared, seq<nat>)
    requires n <= |visits|
  {
    if n == 0 then (base, []) else
      var (s, failed) := Turns(outboxEnabled, base, visits, n - 1);
      Turn(outboxEnabled, s, failed, visits[n - 1], n - 1)
  }

  /** A job that failed is worked off with its last effect, one that succeeded with its end. */
  lemma FailedTurn(outboxEnabled: bool, s: Shared, v: Visit)
    requires Fits(outboxEnabled, v) && v.ended.Failure?
    ensures UpTo(Apply, s, JobOf(outboxEnabled, v), JobOf(outboxEnabled, v).WorkedOff())
            == s.(state := Check(outboxEnabled, s.state, v.link, v.met).0)
  {
    EffectsAreTheCheck(outboxEnabled, s, v);
  }

  lemma GoodTurn(outboxEnabled: bool, s: Shared, v: Visit)
    requires Fits(outboxEnabled, v) && v.ended.Success?
    ensures UpTo(Apply, s, JobOf(outboxEnabled, v), JobOf(outboxEnabled, v).WorkedOff())
            == s.(state := Check(outboxEnabled, s.state, v.link, v.met).0, table := s.table - {v.link.id})
  {
    JobIsPassOne(outboxEnabled, s, v);
    VerdictIsStateless(outboxEnabled, s.state, v.link, v.met);
    assert s.reports + [] == s.reports;
  }

  lemma TurnIsJob(outboxEnabled: bool, s: Shared, failed: seq<nat>, v: Visit, i: nat)
    requires Fits(outboxEnabled, v)
    ensures Turn(outboxEnabled, s, failed, v, i)
            == (UpTo(Apply, s, JobOf(outboxEnabled, v), JobOf(outboxEnabled, v).WorkedOff()),
                if v.ended.Failure? then failed + [i] else failed)
  {
    VerdictIsStateless(outboxEnabled, s.state, v.link, v.met);
    if v.ended.Failure? {
      FailedTurn(outboxEnabled, s, v);
    } else {
      GoodTurn(outboxEnabled, s, v);
    }
  }

  lemma TurnsLast(outboxEnabled: bool, s: Shared, visits: seq<Visit>, n: nat)
    requires 0 < n <= |visits| && Fits(outboxEnabled, visits[n - 1])
    ensures var (before, failed) := Turns(outboxEnabled, s, visits, n - 1);
            var j := JobOf(outboxEnabled, visits[n - 1]);
            Turns(outboxEnabled, s, visits, n)
            == (UpTo(Apply, before, j, j.WorkedOff()),
                if visits[n - 1].ended.Failure? then failed + [n - 1] else failed)
  {
    var (before, failed) := Turns(outboxEnabled, s, visits, n - 1);
    TurnIsJob(outboxEnabled, before, failed, visits[n - 1], n - 1);
  }

  predicate FirstFit(outboxEnabled: bool, visits: seq<Visit>, n: nat)
    requires n <= |visits|
  {
    n == 0 || (FirstFit(outboxEnabled, visits, n - 1) && Fits(outboxEnabled, visits[n - 1]))
  }

  lemma {:induction false} AllFit(outboxEnabled: bool, visits: seq<Visit>, n: nat)
    requires IsBatch(outboxEnabled, visits) && n <= |visits|
    ensures FirstFit(outboxEnabled, visits, n)
  {
    if n > 0 {
      AllFit(outboxEnabled, visits, n - 1);
    }
  }

  /** What the workers' turns leave is the jobs worked off one after another. */
  lemma {:induction false} TurnsInTurn(outboxEnabled: bool, s: Shared, visits: seq<Visit>, n: nat)
    requires n <= |visits| && FirstFit(outboxEnabled, visits, n)
    ensures var jobs := Jobs(outboxEnabled, visits);
            Turns(outboxEnabled, s, visits, n).0 == InTurn(Apply, s, jobs, AllWorkedOff(jobs), n)
  {
    if n > 0 {
      TurnsInTurn(outboxEnabled, s, visits, n - 1);
      TurnsLast(outboxEnabled, s, visits, n);
    }
  }

  /** The failed links among the first n. */
  function FailedOf(visits: seq<Visit>, n: nat): seq<nat>
    requires n <= |visits|
  {
    if n == 0 then [] else FailedOf(visits, n - 1) + if visits[n - 1].ended.Failure? then [n - 1] else []
  }

  lemma {:induction false} TurnsListFailed(outboxEnabled: bool, s: Shared, visits: seq<Visit>, n: nat)
    requires n <= |visits| && FirstFit(outboxEnabled, visits, n)
    ensures Turns(outboxEnabled, s, visits, n).1 == FailedOf(visits, n)
  {
    if n > 0 {
      TurnsListFailed(outboxEnabled, s, visits, n - 1);
      TurnsLast(outboxEnabled, s, visits, n);
    }
  }

  lemma {:induction false} FailedOfHolds(visits: seq<Visit>, n: nat, i: nat)
    requires n <= |visits|
    ensures i in FailedOf(visits, n) <==> i < n && visits[i].ended.Failure?
  {
    if n > 0 {
      FailedOfHolds(visits, n - 1, i);
    }
  }

  lemma {:induction false} FailedOfDiffer(visits: seq<Visit>, n: nat)
    requires n <= |visits|
    ensures forall i, j | 0 <= i < j < |FailedOf(visits, n)| :: FailedOf(visits, n)[i] != FailedOf(visits, n)[j]
  {
    if n > 0 {
      FailedOfDiffer(visits, n - 1);
      FailedOfHolds(visits, n - 1, n - 1);
    }
  }

  lemma FailedOfShape(outboxEnabled: bool, visits: seq<Visit>)
    ensures FailedShape(Jobs(outboxEnabled, visits), Below(|visits|), FailedOf(visits, |visits|))
  {
    FailedOfDiffer(visits, |visits|);
    forall i: nat
      ensures i in FailedOf(visits, |visits|)
              <==> i in Below(|visits|) && i < |visits| && Jobs(outboxEnabled, visits)[i].failed
    {
      FailedOfHolds(visits, |visits|, i);
    }
  }

  lemma AllFailed(visits: seq<Visit>)
    ensures forall k | 0 <= k < |FailedOf(visits, |visits|)| ::
              FailedOf(visits, |visits|)[k] < |visits| && visits[FailedOf(visits, |visits|)[k]].ended.Failure?
  {
    forall k | 0 <= k < |FailedOf(visits, |visits|)|
      ensures FailedOf(visits, |visits|)[k] < |visits| && visits[FailedOf(visits, |visits|)[k]].ended.Failure?
    {
      FailedOfHolds(visits, |visits|, FailedOf(visits, |visits|)[k]);
    }
  }

  /** Once the workers are done, reporting the failed links gives the end of a sequential pass. */
  lemma TurnsEnd(outboxEnabled: bool, s: Shared, visits: seq<Visit>)
    requires IsBatch(outboxEnabled, visits)
    ensures var (now, failed) := Turns(outboxEnabled, s, visits, |visits|);
            && (forall k | 0 <= k < |failed| :: failed[k] < |visits| && visits[failed[k]].ended.Failure?)
            && TallyOf(EndFailed(Apply, Jobs(outboxEnabled, visits), failed, now))
                == TallyOf(Pass(outboxEnabled, s, visits))
  {
    var jobs := Jobs(outboxEnabled, visits);
    var (now, failed) := Turns(outboxEnabled, s, visits, |visits|);
    BatchCommutes(outboxEnabled, visits);
    AllFit(outboxEnabled, visits, |visits|);
    TurnsInTurn(outboxEnabled, s, visits, |visits|);
    TurnsListFailed(outboxEnabled, s, visits, |visits|);
    FailedOfShape(outboxEnabled, visits);
    AllFailed(visits);
    AllEnded(Apply, TallyOf, jobs, s, failed, now);
    InTurnIsPass(outboxEnabled, s, visits, |visits|);
    assert visits[..|visits|] == visits;
  }
}
