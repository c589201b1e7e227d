/** The workers of one batch of checks: every interleaving ends as one sequential pass. */
module Pool {
  import opened Domain
  import opened Fetch
  import opened CheckLink
  import opened FailureReports
  import opened Chunking
  import opened Effects
  import opened Interleaving

  /** What the workers and the reports after them change. */
  datatype Shared = Shared(state: State, table: map<int, string>, reports: seq<Report>)

  /** The end of a check clears its link's entry or reports the failure. */
  datatype Effect = Act(action: Action) | End(id: int, outcome: Outcome)

  function Apply(s: Shared, e: Effect): Shared {
    match e
    case Act(a) => s.(state := Perform1(s.state, a))
    case End(id, o) =>
      var (table, report) := After(s.table, id, o);
      s.(table := table, reports := s.reports + AsSeq(report))
  }

  /** The shared state up to the order of rows, sends and reports. */
  datatype Tally = Tally(
    marks: map<int, Time>, rows: multiset<Row>, sends: multiset<Notification>, table: map<int, string>,
        reports: multiset<Report>)

  function TallyOf(s: Shared): Tally {
    Tally(s.state.marks, multiset(s.state.outbox), multiset(s.state.handed), s.table, multiset(s.reports))
  }

  // ----- effects on different links commute -----

  predicate ActsOn(e: Effect, link: int) {
    match e
    case Act(Move(id, _)) => id == link
    case Act(Store(id, _, _)) => id == link
    case Act(_) => true
    case End(id, _) => id == link
  }

  function RowsIn(a: Action): seq<Row> {
    match a
    case Store(_, _, rows) => rows
    case StoreRows(rows) => rows
    case _ => []
  }

  function SendsIn(a: Action): seq<Notification> {
    if a.Send? then [a.message] else []
  }

  function Marked(marks: map<int, Time>, a: Action): map<int, Time> {
    match a
    case Move(id, time) => if id in marks then marks[id := time] else marks
    case Store(id, time, _) => if time != ZERO_TIME && id in marks then marks[id := time] else marks
    case _ => marks
  }

  lemma Parts(s: State, a: Action)
    ensures Perform1(s, a) == State(Marked(s.marks, a), s.outbox + RowsIn(a), s.handed + SendsIn(a))
  {
    assert s.outbox + [] == s.outbox && s.handed + [] == s.handed;
  }

  lemma SameBag<T>(a: seq<T>, b: seq<T>, more: seq<T>)
    requires multiset(a) == multiset(b)
    ensures multiset(a + more) == multiset(b + more)
  {}

  lemma SwappedBag<T>(s: seq<T>, a: seq<T>, b: seq<T>)
    ensures multiset(s + a + b) == multiset(s + b + a)
  {}

  lemma KeepsTally(a: Shared, b: Shared, e: Effect)
    requires TallyOf(a) == TallyOf(b)
    ensures TallyOf(Apply(a, e)) == TallyOf(Apply(b, e))
  {
    match e
    case Act(action) =>
      Parts(a.state, action);
      Parts(b.state, action);
      SameBag(a.state.outbox, b.state.outbox, RowsIn(action));
      SameBag(a.state.handed, b.state.handed, SendsIn(action));
    case End(id, o) =>
      SameBag(a.reports, b.reports, AsSeq(After(a.table, id, o).1));
  }

  lemma AfterIsLocal(a: map<int, string>, b: map<int, string>, id: int, o: Outcome)
    requires Lookup(a, id) == Lookup(b, id)
    ensures After(a, id, o).1 == After(b, id, o).1
    ensures Lookup(After(a, id, o).0, id) == Lookup(After(b, id, o).0, id)
    ensures forall x | x != id :: Lookup(After(a, id, o).0, x) == Lookup(a, x)
  {}

  lemma SameTable(a: map<int, string>, b: map<int, string>)
    requires forall id :: Lookup(a, id) == Lookup(b, id)
    ensures a == b
  {
    forall id ensures id in a <==> id in b {
      assert Lookup(a, id) == Lookup(b, id);
    }
    forall id | id in a ensures a[id] == b[id] {
      assert Lookup(a, id) == Lookup(b, id);
    }
  }

  /** The ends of checks of two links: same table, same reports, either way round. */
  lemma EndsCommute(table: map<int, string>, x: int, o: Outcome, y: int, p: Outcome)
    requires x != y
    ensures After(After(table, x, o).0, y, p).0 == After(After(table, y, p).0, x, o).0
    ensures After(After(table, x, o).0, y, p).1 == After(table, y, p).1
  {
    var tx, ty := After(table, x, o).0, After(table, y, p).0;
    AfterIsLocal(table, ty, x, o);
    AfterIsLocal(ty, table, x, o);
    AfterIsLocal(table, tx, y, p);
    AfterIsLocal(tx, table, y, p);
    SameTable(After(tx, y, p).0, After(ty, x, o).0);
  }

  lemma MarksCommute(marks: map<int, Time>, a: Action, x: int, b: Action, y: int)
    requires ActsOn(Act(a), x) && ActsOn(Act(b), y) && x != y
    ensures Marked(Marked(marks, a), b) == Marked(Marked(marks, b), a)
  {}

  lemma ActsCommute(s: Shared, a: Action, x: int, b: Action, y: int)
    requires ActsOn(Act(a), x) && ActsOn(Act(b), y) && x != y
    ensures TallyOf(Apply(Apply(s, Act(a)), Act(b))) == TallyOf(Apply(Apply(s, Act(b)), Act(a)))
  {
    Parts(s.state, a);
    Parts(s.state, b);
    Parts(Perform1(s.state, a), b);
    Parts(Perform1(s.state, b), a);
    MarksCommute(s.state.marks, a, x, b, y);
    SwappedBag(s.state.outbox, RowsIn(a), RowsIn(b));
    SwappedBag(s.state.handed, SendsIn(a), SendsIn(b));
  }

  lemma EffectsCommute(s: Shared, e: Effect, x: int, f: Effect, y: int)
    requires ActsOn(e, x) && ActsOn(f, y) && x != y
    ensures TallyOf(Apply(Apply(s, e), f)) == TallyOf(Apply(Apply(s, f), e))
  {
    match (e, f)
    case (Act(a), Act(b)) => ActsCommute(s, a, x, b, y);
    case (End(_, o), End(_, p)) =>
      EndsCommute(s.table, x, o, y, p);
      EndsCommute(s.table, y, p, x, o);
      SwappedBag(s.reports, AsSeq(After(s.table, x, o).1), AsSeq(After(s.table, y, p).1));
    case _ =>
  }

  // ----- a batch -----

  /** A link of the batch with what its check meets and how it ends. */
  datatype Visit = Visit(link: Link, met: Conditions, ended: Outcome)

  function Acts(actions: seq<Action>): seq<Effect> {
    seq(|actions|, k requires 0 <= k < |actions| => Act(actions[k]))
  }

  function JobOf(outboxEnabled: bool, v: Visit): Job<Effect> {
    Job(Acts(Program(outboxEnabled, v.link, v.met)), End(v.link.id, v.ended), v.ended.Failure?)
  }

  function Jobs(outboxEnabled: bool, visits: seq<Visit>): seq<Job<Effect>> {
    seq(|visits|, i requires 0 <= i < |visits| => JobOf(outboxEnabled, visits[i]))
  }

  /** processLink's verdict, which no state the workers share enters. */
  predicate Succeeds(outboxEnabled: bool, v: Visit) {
    Check(outboxEnabled, State(map[], [], []), v.link, v.met).1
  }

  predicate Fits(outboxEnabled: bool, v: Visit) {
    v.ended.Success? <==> Succeeds(outboxEnabled, v)
  }

  /** The links differ and each outcome is what processLink returns. */
  predicate IsBatch(outboxEnabled: bool, visits: seq<Visit>) {
    && (forall i, j | 0 <= i < |visits| && 0 <= j < |visits| && i != j :: visits[i].link.id != visits[j].link.id)
    && (forall i | 0 <= i < |visits| :: Fits(outboxEnabled, visits[i]))
  }

  lemma VerdictIsStateless(outboxEnabled: bool, s: State, link: Link, c: Conditions)
    ensures Check(outboxEnabled, s, link, c).1 == Check(outboxEnabled, State(map[], [], []), link, c).1
  {}

  lemma ProgramActsOnItsLink(outboxEnabled: bool, v: Visit, k: nat)
    ensures ActsOn(JobOf(outboxEnabled, v).At(k), v.link.id)
  {}

  lemma BatchCommutes(outboxEnabled: bool, visits: seq<Visit>)
    requires IsBatch(outboxEnabled, visits)
    ensures Commuting(Apply, TallyOf, Jobs(outboxEnabled, visits))
  {
    var jobs := Jobs(outboxEnabled, visits);
    forall a: Shared, b: Shared, e: Effect ensures SameAfter(Apply, TallyOf, a, b, e) {
      if TallyOf(a) == TallyOf(b) {
        KeepsTally(a, b, e);
      }
    }
    forall s: Shared, i, k: nat, j, l: nat | 0 <= i < |jobs| && 0 <= j < |jobs| && i != j
      ensures CommuteAt(Apply, TallyOf, s, jobs[i].At(k), jobs[j].At(l))
    {
      ProgramActsOnItsLink(outboxEnabled, visits[i], k);
      ProgramActsOnItsLink(outboxEnabled, visits[j], l);
      EffectsCommute(s, jobs[i].At(k), visits[i].link.id, jobs[j].At(l), visits[j].link.id);
    }
  }

  // ----- the sequential pass -----

  /** One link of the pass: checked, and at once cleared or reported. */
  function PassOne(outboxEnabled: bool, s: Shared, v: Visit): Shared {
    var (state, ok) := Check(outboxEnabled, s.state, v.link, v.met);
    var (table, report) := After(s.table, v.link.id, if ok then Success else v.ended);
    Shared(state, table, s.reports + AsSeq(report))
  }

  function Pass(outboxEnabled: bool, s: Shared, visits: seq<Visit>): Shared
    decreases |visits|
  {
    if visits == [] then s
    else PassOne(outboxEnabled, Pass(outboxEnabled, s, visits[..|visits| - 1]), visits[|visits| - 1])
  }

  lemma PerformLast(s: Shared, actions: seq<Action>, k: nat)
    requires 0 < k <= |actions|
    ensures Apply(s.(state := Perform(s.state, actions[..k - 1])), Act(actions[k - 1]))
            == s.(state := Perform(s.state, actions[..k]))
  {
    assert actions[..k][..k - 1] == actions[..k - 1];
  }

  lemma {:induction false} UpToPerforms(s: Shared, j: Job<Effect>, actions: seq<Action>, k: nat)
    requires j.effects == Acts(actions) && k <= |actions|
    ensures UpTo(Apply, s, j, k) == s.(state := Perform(s.state, actions[..k]))
  {
    if k > 0 {
      UpToPerforms(s, j, actions, k - 1);
      PerformLast(s, actions, k);
      assert j.At(k - 1) == Act(actions[k - 1]);
    }
  }

  /** The effects of a check done in one go are the check. */
  lemma EffectsAreTheCheck(outboxEnabled: bool, s: Shared, v: Visit)
    ensures var j := JobOf(outboxEnabled, v);
            UpTo(Apply, s, j, |j.effects|) == s.(state := Check(outboxEnabled, s.state, v.link, v.met).0)
  {
    var actions := Program(outboxEnabled, v.link, v.met);
    UpToPerforms(s, JobOf(outboxEnabled, v), actions, |actions|);
    assert actions[..|actions|] == actions;
    ProgramIsCheck(outboxEnabled, s.state, v.link, v.met);
  }

  lemma JobIsPassOne(outboxEnabled: bool, s: Shared, v: Visit)
    requires Fits(outboxEnabled, v)
    ensures UpTo(Apply, s, JobOf(outboxEnabled, v), |JobOf(outboxEnabled, v).effects| + 1)
            == PassOne(outboxEnabled, s, v)
  {
    EffectsAreTheCheck(outboxEnabled, s, v);
    VerdictIsStateless(outboxEnabled, s.state, v.link, v.met);
  }

  lemma {:induction false} InTurnIsPass(outboxEnabled: bool, s: Shared, visits: seq<Visit>, n: nat)
    requires IsBatch(outboxEnabled, visits) && n <= |visits|
    ensures var jobs := Jobs(outboxEnabled, visits);
            InTurn(Apply, s, jobs, Complete(jobs), n) == Pass(outboxEnabled, s, visits[..n])
  {
    if n > 0 {
      InTurnIsPass(outboxEnabled, s, visits, n - 1);
      assert visits[..n][..n - 1] == visits[..n - 1];
      JobIsPassOne(outboxEnabled, Pass(outboxEnabled, s, visits[..n - 1]), visits[n - 1]);
    }
  }

  /** Worker schedules do not matter: for any chunks and any interleaving of the workers' steps that lets
      them all finish, marks and failure table are those of one sequential pass over the batch, and so
      are, up to order, outbox rows, direct sends and failure reports. */
  lemma SchedulesDoNotMatter(outboxEnabled: bool, s: Shared, visits: seq<Visit>, chunks: seq<Chunk>, schedule: seq<nat>)
    requires IsBatch(outboxEnabled, visits) && Covers(chunks, |visits|)
    requires Waited(chunks, Run(Apply, Jobs(outboxEnabled, visits), chunks, s, schedule))
    ensures var jobs := Jobs(outboxEnabled, visits);
            var b := Run(Apply, jobs, chunks, s, schedule);
            && (forall k | 0 <= k < |b.failed| :: b.failed[k] < |jobs|)
            && TallyOf(EndFailed(Apply, jobs, b.failed, b.state)) == TallyOf(Pass(outboxEnabled, s, visits))
  {
    var jobs := Jobs(outboxEnabled, visits);
    BatchCommutes(outboxEnabled, visits);
    ScheduleIrrelevant(Apply, TallyOf, jobs, chunks, s, schedule);
    InTurnIsPass(outboxEnabled, s, visits, |visits|);
    assert visits[..|visits|] == visits;
  }
}
