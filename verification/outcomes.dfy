/** What an undisturbed run of the scheduler leaves of each link it checked. */
module RunOutcomes {
  import opened Domain
  import opened Store
  import opened SqlRepositories
  import opened CheckLink
  import opened Verdicts
  import opened FailureReports
  import opened Pool
  import opened Paging
  import opened SchedulerRuns
  import Passes

  /** The watermark moves exactly when the check stores one, and to the date it should. */
  ghost predicate MarkOutcome(outboxEnabled: bool, link: Link, c: Conditions, before: Shared, after: Shared) {
    && (link.id in after.state.marks <==> link.id in before.state.marks)
    && (link.id in after.state.marks && link.lastUpdatedAt >= ZERO_TIME ==>
          if Moves(outboxEnabled, link, c) then MarkFits(link, c, after.state.marks[link.id])
          else after.state.marks[link.id] == before.state.marks[link.id])
  }

  /** Every later post is stored, or handed over when all sends work, for the subscribers found. */
  ghost predicate PostOutcome(outboxEnabled: bool, link: Link, c: Conditions, after: Shared) {
    forall u | c.page.Some? && u in c.page.value && u.createdAt > link.lastUpdatedAt ::
      && (Stores(outboxEnabled, link, c)
          ==> Passes.HasPendingRow(after.state.outbox, Notification(u, c.subscribers.value)))
      && (HandsOver(outboxEnabled, link, c) && (forall k: nat :: c.sends(k))
          ==> Notification(u, c.subscribers.value) in after.state.handed)
  }

  /** A check without an error clears the link's entry; one with an error enters its preview unless its report
      fails, and reports it to the subscribers found unless the entry was there. */
  ghost predicate FailureOutcome(outboxEnabled: bool, link: Link, m: Meeting, before: Shared, after: Shared) {
    var known := Lookup(before.table, link.id) == Some(m.preview);
    if !Errs(outboxEnabled, link, m.conditions) then link.id !in after.table
    else
      && Lookup(after.table, link.id)
         == (if known || (m.subscribers.Some? && (m.subscribers.value == [] || m.sends)) then Some(m.preview) else None)
      && (!known && m.subscribers.Some? && m.subscribers.value != []
          ==> Report(link.id, m.subscribers.value, m.preview) in after.reports)
  }

  ghost predicate Outcome(outboxEnabled: bool, link: Link, m: Meeting, before: Shared, after: Shared) {
    && MarkOutcome(outboxEnabled, link, m.conditions, before, after)
    && PostOutcome(outboxEnabled, link, m.conditions, after)
    && FailureOutcome(outboxEnabled, link, m, before, after)
  }

  lemma SameRows(a: seq<Row>, b: seq<Row>, n: Notification)
    requires multiset(a) == multiset(b) && Passes.HasPendingRow(a, n)
    ensures Passes.HasPendingRow(b, n)
  {
    var i :| 0 <= i < |a| && a[i].message == n && a[i].status.Pending?;
    assert a[i] in multiset(a);
    assert a[i] in multiset(b);
    var j :| 0 <= j < |b| && b[j] == a[i];
  }

  lemma SameOutcome(outboxEnabled: bool, link: Link, m: Meeting, before: Shared, a: Shared, b: Shared)
    requires TallyOf(a) == TallyOf(b) && Outcome(outboxEnabled, link, m, before, a)
    ensures Outcome(outboxEnabled, link, m, before, b)
  {
    var c := m.conditions;
    forall u | c.page.Some? && u in c.page.value && u.createdAt > link.lastUpdatedAt && Stores(outboxEnabled, link, c)
      ensures Passes.HasPendingRow(b.state.outbox, Notification(u, c.subscribers.value))
    {
      SameRows(a.state.outbox, b.state.outbox, Notification(u, c.subscribers.value));
    }
    assert forall n :: n in a.state.handed ==> n in multiset(b.state.handed);
    assert forall r :: r in a.reports ==> r in multiset(b.reports);
  }

  /** A pass over links leaves each of them so. */
  lemma PassOutcome(g: Setting, s: Shared, links: seq<Link>, i: nat)
    requires i < |links| && IsBatch(g.outboxEnabled, Visits(g, links, 0))
    ensures Outcome(g.outboxEnabled, links[i], g.met(i, links[i]), s, Pass(g.outboxEnabled, s, Visits(g, links, 0)))
  {
    var visits, m := Visits(g, links, 0), g.met(i, links[i]);
    var v, after := visits[i], Pass(g.outboxEnabled, s, visits);
    if links[i].lastUpdatedAt >= ZERO_TIME {
      Passes.PassMarks(g.outboxEnabled, s, visits, i);
    }
    PassMarks(g.outboxEnabled, s, visits);
    assert after.state.marks.Keys == s.state.marks.Keys;
    forall u | m.conditions.page.Some? && u in m.conditions.page.value && u.createdAt > links[i].lastUpdatedAt {
      Passes.PassNotifies(g.outboxEnabled, s, visits, i, u);
    }
    Passes.PassEntries(g.outboxEnabled, s, visits, i);
    if Errs(g.outboxEnabled, links[i], m.conditions) && m.subscribers.Some? {
      Passes.PassReports(g.outboxEnabled, s, visits, i, m.subscribers.value);
    }
  }

  /** The links an undisturbed run has checked are left so. */
  lemma FirstLinksOutcome(g: Setting, s: Shared, t: Tables, n: nat, end: Shared)
    requires n <= |Listing(Subscribed(t))|
    requires TallyOf(end)
             == TallyOf(Pass(g.outboxEnabled, s, Visits(g, AllLinks(t, Listing(Subscribed(t))[..n]), 0)))
    ensures var links := AllLinks(t, Listing(Subscribed(t))[..n]);
            forall i: nat | i < |links| :: Outcome(g.outboxEnabled, links[i], g.met(i, links[i]), s, end)
  {
    var ids := Listing(Subscribed(t))[..n];
    var links := AllLinks(t, ids);
    assert Cut(ids, n, 0) == ids && PageOf(t, ids, n, 0) == links;
    PageIsBatch(g.(limit := n), t, ids, 0);
    assert Visits(g.(limit := n), links, 0) == Visits(g, links, 0);
    forall i: nat | i < |links| ensures Outcome(g.outboxEnabled, links[i], g.met(i, links[i]), s, end) {
      PassOutcome(g, s, links, i);
      SameOutcome(g.outboxEnabled, links[i], g.met(i, links[i]), s, Pass(g.outboxEnabled, s, Visits(g, links, 0)), end);
    }
  }
}
