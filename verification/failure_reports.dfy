/** The table that keeps the scheduler from reporting the same failure of a link again and again. */
module FailureReports {
  import opened Domain

  /** A failure report as handed to SendUpdate. */
  datatype Report = Report(link: int, chats: seq<int>, preview: string)

  /** How a check ended. A failed one carries its preview, the subscribers its report would find (none
      when the lookup fails) and whether the send of the report would work. */
  datatype Outcome = Success | Failure(preview: string, subscribers: Option<seq<int>>, sends: bool)

  /** reportLinkFailure: the table after it and the report it handed over, if any. */
  function Report1(table: map<int, string>, link: int, f: Outcome): (map<int, string>, Option<Report>)
    requires f.Failure?
  {
    if link in table && table[link] == f.preview then (table, None)
    else
      var marked := table[link := f.preview];
      if f.subscribers.None? then (marked - {link}, None)
      else if f.subscribers.value == [] then (marked, None)
      else (if f.sends then marked else marked - {link}, Some(Report(link, f.subscribers.value, f.preview)))
  }

  function After(table: map<int, string>, link: int, o: Outcome): (map<int, string>, Option<Report>) {
    if o.Success? then (table - {link}, None) else Report1(table, link, o)
  }

  function AsSeq(r: Option<Report>): seq<Report> {
    if r.Some? then [r.value] else []
  }

  // ----- traces -----

  datatype Checked = Checked(link: int, outcome: Outcome)

  /** The table and the reports after a trace of completed checks of any links. */
  function Trace(checks: seq<Checked>): (map<int, string>, seq<Report>) {
    if checks == [] then (map[], []) else
      var n := |checks| - 1;
      var (table, reports) := Trace(checks[..n]);
      var (table', report) := After(table, checks[n].link, checks[n].outcome);
      (table', reports + AsSeq(report))
  }

  function OutcomesOf(checks: seq<Checked>, link: int): seq<Outcome> {
    if checks == [] then [] else
      var n := |checks| - 1;
      OutcomesOf(checks[..n], link) + if checks[n].link == link then [checks[n].outcome] else []
  }

  /** The entry one link has after its outcomes, read off them alone. */
  function Entry(outcomes: seq<Outcome>): Option<string> {
    if outcomes == [] then None else
      var last := outcomes[|outcomes| - 1];
      if last.Success? then None
      else if Entry(outcomes[..|outcomes| - 1]) == Some(last.preview) || Delivered(last) then Some(last.preview)
      else None
  }

  /** The report, if one is tried, finds its subscribers and is sent, or finds that there are none. */
  predicate Delivered(f: Outcome)
    requires f.Failure?
  {
    f.subscribers.Some? && (f.subscribers.value == [] || f.sends)
  }

  function Lookup(table: map<int, string>, link: int): Option<string> {
    if link in table then Some(table[link]) else None
  }

  lemma EntryStep(table: map<int, string>, link: int, o: Outcome, before: seq<Outcome>)
    requires Lookup(table, link) == Entry(before)
    ensures Lookup(After(table, link, o).0, link) == Entry(before + [o])
  {
    assert (before + [o])[..|before|] == before;
  }

  /** The last check of a trace: what it adds to the table and to the reports. */
  lemma TraceLast(checks: seq<Checked>)
    requires checks != []
    ensures var n := |checks| - 1;
            var (table, report) := After(Trace(checks[..n]).0, checks[n].link, checks[n].outcome);
            Trace(checks) == (table, Trace(checks[..n]).1 + AsSeq(report))
  {}

  lemma OutcomesLast(checks: seq<Checked>, link: int)
    requires checks != []
    ensures var n := |checks| - 1;
            OutcomesOf(checks, link)
            == if checks[n].link == link then OutcomesOf(checks[..n], link) + [checks[n].outcome]
                else OutcomesOf(checks[..n], link)
  {}

  /** A check of one link leaves the entries of the others. */
  lemma OtherEntries(table: map<int, string>, checked: int, o: Outcome, link: int)
    requires checked != link
    ensures Lookup(After(table, checked, o).0, link) == Lookup(table, link)
  {}

  /** A link's entry depends on its own outcomes only: it is there exactly when its latest check failed
      with that preview and the report of it was either not tried again or not hindered. */
  lemma {:induction false} EntryExactly(checks: seq<Checked>, link: int)
    ensures Lookup(Trace(checks).0, link) == Entry(OutcomesOf(checks, link))
  {
    if checks != [] {
      var n := |checks| - 1;
      EntryExactly(checks[..n], link);
      TraceLast(checks);
      OutcomesLast(checks, link);
      if checks[n].link == link {
        EntryStep(Trace(checks[..n]).0, link, checks[n].outcome, OutcomesOf(checks[..n], link));
      } else {
        OtherEntries(Trace(checks[..n]).0, checks[n].link, checks[n].outcome, link);
      }
    }
  }

  predicate Repeats(outcomes: seq<Outcome>, k: nat)
    requires k < |outcomes|
  {
    outcomes[k].Failure? && k > 0 && outcomes[k - 1].Failure? && outcomes[k - 1].preview == outcomes[k].preview
  }

  /** The failures of a link that do not directly repeat the one before, in order. */
  function FirstFailures(outcomes: seq<Outcome>): seq<string> {
    if outcomes == [] then [] else
      var n := |outcomes| - 1;
      FirstFailures(outcomes[..n]) + if outcomes[n].Failure? && !Repeats(outcomes, n) then [outcomes[n].preview] else []
  }

  function PreviewsOf(reports: seq<Report>, link: int): seq<string> {
    if reports == [] then [] else
      var n := |reports| - 1;
      PreviewsOf(reports[..n], link) + if reports[n].link == link then [reports[n].preview] else []
  }

  predicate Reachable(outcomes: seq<Outcome>) {
    forall o | o in outcomes :: o.Failure? ==> o.subscribers.Some? && o.subscribers.value != [] && o.sends
  }

  lemma {:induction false} ReachableEntry(outcomes: seq<Outcome>)
    requires Reachable(outcomes)
    ensures Entry(outcomes) == if outcomes != [] && outcomes[|outcomes| - 1].Failure?
                               then Some(outcomes[|outcomes| - 1].preview) else None
  {
    if outcomes != [] {
      assert outcomes[|outcomes| - 1] in outcomes;
      ReachableEntry(outcomes[..|outcomes| - 1]);
    }
  }

  lemma {:induction false} PreviewsOfJoin(a: seq<Report>, b: seq<Report>, link: int)
    requires |b| <= 1
    ensures PreviewsOf(a + b, link) == PreviewsOf(a, link) + PreviewsOf(b, link)
  {
    if b == [] {
      assert a + b == a;
    } else {
      assert (a + b)[..|a|] == a && b[..0] == [];
    }
  }

  /** What the last check of a link adds to its reports and to its first failures. */
  lemma LastFailure(before: seq<Outcome>, o: Outcome)
    requires Reachable(before + [o])
    ensures FirstFailures(before + [o])
            == FirstFailures(before) + if o.Failure? && Entry(before) != Some(o.preview) then [o.preview] else []
  {
    var all := before + [o];
    assert all[..|before|] == before && all[|before|] in all;
    assert forall x | x in before :: x in all;
    ReachableEntry(before);
    if before != [] {
      assert all[|before| - 1] == before[|before| - 1];
    }
  }

  lemma LastReport(table: map<int, string>, link: int, o: Outcome)
    requires Reachable([o])
    ensures PreviewsOf(AsSeq(After(table, link, o).1), link)
            == if o.Failure? && Lookup(table, link) != Some(o.preview) then [o.preview] else []
  {
    assert [o][0] in [o];
    var report := After(table, link, o).1;
    if report.Some? {
      assert AsSeq(report)[..0] == [];
    }
  }

  /** With subscribers present and sends working, the reports of a link are exactly its failures that do
      not directly repeat the failure before: only repeats are dropped. */
  lemma {:induction false} OnlyRepeatsDropped(checks: seq<Checked>, link: int)
    requires Reachable(OutcomesOf(checks, link))
    ensures PreviewsOf(Trace(checks).1, link) == FirstFailures(OutcomesOf(checks, link))
  {
    if checks != [] {
      var n := |checks| - 1;
      var o := checks[n].outcome;
      var before := OutcomesOf(checks[..n], link);
      TraceLast(checks);
      OutcomesLast(checks, link);
      assert forall x | x in before :: x in OutcomesOf(checks, link);
      OnlyRepeatsDropped(checks[..n], link);
      EntryExactly(checks[..n], link);
      var table := Trace(checks[..n]).0;
      PreviewsOfJoin(Trace(checks[..n]).1, AsSeq(After(table, checks[n].link, o).1), link);
      if checks[n].link == link {
        assert OutcomesOf(checks, link)[|before|] in OutcomesOf(checks, link);
        LastFailure(before, o);
        LastReport(table, link, o);
      } else {
        OtherReport(table, checks[n].link, o, link);
      }
    }
  }

  lemma OtherReport(table: map<int, string>, checked: int, o: Outcome, link: int)
    requires checked != link
    ensures PreviewsOf(AsSeq(After(table, checked, o).1), link) == []
  {
    var report := After(table, checked, o).1;
    if report.Some? {
      assert AsSeq(report)[..0] == [];
    }
  }

  // ----- when a failure is reported -----

  /** From check k on, all of a link's checks failed with preview p, and the report of check k was
      delivered or found no subscribers. */
  predicate HeldSince(outcomes: seq<Outcome>, p: string, k: nat) {
    && k < |outcomes| && Delivered1(outcomes[k])
    && forall j | k <= j < |outcomes| :: outcomes[j].Failure? && outcomes[j].preview == p
  }

  predicate Delivered1(o: Outcome) {
    o.Failure? && Delivered(o)
  }

  /** The closed form of a link's entry: its trailing failures with preview p hold a delivered one. */
  lemma {:induction false} EntryClosedForm(outcomes: seq<Outcome>, p: string)
    ensures Entry(outcomes) == Some(p) <==> exists k: nat :: HeldSince(outcomes, p, k)
  {
    if outcomes != [] {
      var n := |outcomes| - 1;
      var before, last := outcomes[..n], outcomes[n];
      EntryClosedForm(before, p);
      if last.Failure? && last.preview == p {
        if k: nat :| HeldSince(before, p, k) {
          assert HeldSince(outcomes, p, k);
        }
        if Delivered(last) {
          assert HeldSince(outcomes, p, n);
        }
        if k: nat :| HeldSince(outcomes, p, k) && k < n {
          assert HeldSince(before, p, k);
        }
      }
    }
  }

  /** After any trace a failure of a link with subscribers is reported exactly when the link's trailing
      failures with the same preview hold no delivered one. A report that found no subscribers counts as
      delivered, so such a failure is not reported to chats that subscribe later. */
  lemma ReportedExactly(checks: seq<Checked>, link: int, p: string, chats: seq<int>, sends: bool)
    requires chats != []
    ensures After(Trace(checks).0, link, Failure(p, Some(chats), sends)).1
            == if exists k: nat :: HeldSince(OutcomesOf(checks, link), p, k) then None else Some(Report(link, chats, p))
  {
    EntryExactly(checks, link);
    EntryClosedForm(OutcomesOf(checks, link), p);
  }
}
