/** What a pass over a batch does to each link of it, said of what that link's check met. */
module Passes {
  import opened Domain
  import opened Fetch
  import opened CheckLink
  import opened Verdicts
  import opened FailureReports
  import opened Pool

  // ----- a pass only adds, and a check touches no other link -----

  lemma OneAdds(outboxEnabled: bool, s: Shared, v: Visit)
    ensures var s' := PassOne(outboxEnabled, s, v);
            s.state.outbox <= s'.state.outbox && s.state.handed <= s'.state.handed && s.reports <= s'.reports
  {
    RowsExactly(outboxEnabled, s.state, v.link, v.met);
    HandedExactly(outboxEnabled, s.state, v.link, v.met);
  }

  lemma {:induction false} PassAdds(outboxEnabled: bool, s: Shared, visits: seq<Visit>, n: nat)
    requires n <= |visits|
    ensures var middle, end := Pass(outboxEnabled, s, visits[..n]), Pass(outboxEnabled, s, visits);
            && middle.state.outbox <= end.state.outbox && middle.state.handed <= end.state.handed
            && middle.reports <= end.reports
    decreases |visits|
  {
    if n == |visits| {
      assert visits[..n] == visits;
    } else {
      var last := |visits| - 1;
      assert visits[..last][..n] == visits[..n];
      PassAdds(outboxEnabled, s, visits[..last], n);
      OneAdds(outboxEnabled, Pass(outboxEnabled, s, visits[..last]), visits[last]);
    }
  }

  function MarkOf(s: Shared, id: int): Option<Time> {
    if id in s.state.marks then Some(s.state.marks[id]) else None
  }

  lemma OtherLink(outboxEnabled: bool, s: Shared, v: Visit, id: int)
    requires v.link.id != id
    ensures var s' := PassOne(outboxEnabled, s, v);
            MarkOf(s', id) == MarkOf(s, id) && Lookup(s'.table, id) == Lookup(s.table, id)
  {
    OtherEntries(s.table, v.link.id, if Check(outboxEnabled, s.state, v.link, v.met).1 then Success else v.ended, id);
  }

  /** Between two points of a pass nothing happens to a link that is not checked between them. */
  lemma {:induction false} NotChecked(outboxEnabled: bool, s: Shared, visits: seq<Visit>, a: nat, b: nat, id: int)
    requires a <= b <= |visits| && forall k | a <= k < b :: visits[k].link.id != id
    ensures var before, after := Pass(outboxEnabled, s, visits[..a]), Pass(outboxEnabled, s, visits[..b]);
            MarkOf(after, id) == MarkOf(before, id) && Lookup(after.table, id) == Lookup(before.table, id)
    decreases b
  {
    if a < b {
      NotChecked(outboxEnabled, s, visits, a, b - 1, id);
      assert visits[..b][..b - 1] == visits[..b - 1];
      OtherLink(outboxEnabled, Pass(outboxEnabled, s, visits[..b - 1]), visits[b - 1], id);
    }
  }

  /** The pass at the check of link i: what the link has before and after it is what it has at the ends. */
  lemma AtItsCheck(outboxEnabled: bool, s: Shared, visits: seq<Visit>, i: nat)
    requires IsBatch(outboxEnabled, visits) && i < |visits|
    ensures var v, id := visits[i], visits[i].link.id;
            var before := Pass(outboxEnabled, s, visits[..i]);
            var after, end := PassOne(outboxEnabled, before, v), Pass(outboxEnabled, s, visits);
            && MarkOf(before, id) == MarkOf(s, id) && Lookup(before.table, id) == Lookup(s.table, id)
            && MarkOf(end, id) == MarkOf(after, id) && Lookup(end.table, id) == Lookup(after.table, id)
            && after.state.outbox <= end.state.outbox && after.state.handed <= end.state.handed
            && after.reports <= end.reports
  {
    var id := visits[i].link.id;
    NotChecked(outboxEnabled, s, visits, 0, i, id);
    NotChecked(outboxEnabled, s, visits, i + 1, |visits|, id);
    assert visits[..0] == [] && visits[..|visits|] == visits && visits[..i + 1][..i] == visits[..i];
    PassAdds(outboxEnabled, s, visits, i + 1);
  }

  // ----- what becomes of each link -----

  /** The mark of a link moves exactly as its own check says. */
  lemma PassMarks(outboxEnabled: bool, s: Shared, visits: seq<Visit>, i: nat)
    requires IsBatch(outboxEnabled, visits) && i < |visits| && visits[i].link.lastUpdatedAt >= ZERO_TIME
    ensures var v, id := visits[i], visits[i].link.id;
            var marks := Pass(outboxEnabled, s, visits).state.marks;
            && (id in marks <==> id in s.state.marks)
            && (id in marks ==> if Moves(outboxEnabled, v.link, v.met) then MarkFits(v.link, v.met, marks[id])
                                else marks[id] == s.state.marks[id])
  {
    AtItsCheck(outboxEnabled, s, visits, i);
    MarkExactly(outboxEnabled, Pass(outboxEnabled, s, visits[..i]).state, visits[i].link, visits[i].met);
  }

  /** Its entry in the failure table goes when its check reports no error; else it holds the preview exactly
      when it did before or the report is delivered or finds no subscribers. */
  lemma PassEntries(outboxEnabled: bool, s: Shared, visits: seq<Visit>, i: nat)
    requires IsBatch(outboxEnabled, visits) && i < |visits|
    ensures var v, id := visits[i], visits[i].link.id;
            (v.ended.Success? <==> !Errs(outboxEnabled, v.link, v.met))
            && Lookup(Pass(outboxEnabled, s, visits).table, id)
               == if !Errs(outboxEnabled, v.link, v.met) then None
                  else if Lookup(s.table, id) == Some(v.ended.preview) || Delivered(v.ended) then Some(v.ended.preview)
                  else None
  {
    var v, before := visits[i], Pass(outboxEnabled, s, visits[..i]);
    AtItsCheck(outboxEnabled, s, visits, i);
    VerdictExactly(outboxEnabled, before.state, v.link, v.met);
    VerdictIsStateless(outboxEnabled, before.state, v.link, v.met);
    assert Fits(outboxEnabled, v);
  }

  /** A failing link with subscribers whose entry is not that preview is reported to them. */
  lemma PassReports(outboxEnabled: bool, s: Shared, visits: seq<Visit>, i: nat, chats: seq<int>)
    requires IsBatch(outboxEnabled, visits) && i < |visits| && Errs(outboxEnabled, visits[i].link, visits[i].met)
    ensures var v, id := visits[i], visits[i].link.id;
            && v.ended.Failure?
            && (v.ended.subscribers == Some(chats) && chats != [] && Lookup(s.table, id) != Some(v.ended.preview)
                ==> Report(id, chats, v.ended.preview) in Pass(outboxEnabled, s, visits).reports)
  {
    var v, before := visits[i], Pass(outboxEnabled, s, visits[..i]);
    PassEntries(outboxEnabled, s, visits, i);
    AtItsCheck(outboxEnabled, s, visits, i);
    VerdictExactly(outboxEnabled, before.state, v.link, v.met);
    if v.ended.subscribers == Some(chats) && chats != [] && Lookup(s.table, v.link.id) != Some(v.ended.preview) {
      var report := Report(v.link.id, chats, v.ended.preview);
      var after := PassOne(outboxEnabled, before, v);
      assert after.reports == before.reports + [report];
      assert after.reports[|before.reports|] == report;
      assert Pass(outboxEnabled, s, visits).reports[|before.reports|] == report;
    }
  }

  ghost predicate HasPendingRow(outbox: seq<Row>, n: Notification) {
    exists i :: 0 <= i < |outbox| && outbox[i].message == n && outbox[i].status.Pending?
  }

  /** A later post of a link with subscribers is stored, or handed over when all sends work, for exactly the
      subscribers its check found. */
  lemma PassNotifies(outboxEnabled: bool, s: Shared, visits: seq<Visit>, i: nat, u: Update)
    requires IsBatch(outboxEnabled, visits) && i < |visits|
    ensures var v, end := visits[i], Pass(outboxEnabled, s, visits);
            v.met.page.Some? && u in v.met.page.value && u.createdAt > v.link.lastUpdatedAt ==>
              && (Stores(outboxEnabled, v.link, v.met)
                  ==> HasPendingRow(end.state.outbox, Notification(u, v.met.subscribers.value)))
              && (HandsOver(outboxEnabled, v.link, v.met) && (forall k: nat :: v.met.sends(k))
                  ==> Notification(u, v.met.subscribers.value) in end.state.handed)
  {
    var v, before := visits[i], Pass(outboxEnabled, s, visits[..i]);
    AtItsCheck(outboxEnabled, s, visits, i);
    if v.met.page.Some? && u in v.met.page.value && u.createdAt > v.link.lastUpdatedAt {
      if Stores(outboxEnabled, v.link, v.met) {
        StoredRow(outboxEnabled, before.state, v.link, v.met, u);
        PendingStays(PassOne(outboxEnabled, before, v).state.outbox, Pass(outboxEnabled, s, visits).state.outbox,
            Notification(u, v.met.subscribers.value));
      }
      if HandsOver(outboxEnabled, v.link, v.met) && forall k: nat :: v.met.sends(k) {
        HandedPost(outboxEnabled, before.state, v.link, v.met, u);
      }
    }
  }

  lemma PendingStays(a: seq<Row>, b: seq<Row>, n: Notification)
    requires a <= b && HasPendingRow(a, n)
    ensures HasPendingRow(b, n)
  {
    var i :| 0 <= i < |a| && a[i].message == n && a[i].status.Pending?;
    assert b[i] == a[i];
  }

  lemma StoredRow(outboxEnabled: bool, s: State, link: Link, c: Conditions, u: Update)
    requires Stores(outboxEnabled, link, c) && u in c.page.value && u.createdAt > link.lastUpdatedAt
    ensures HasPendingRow(Check(outboxEnabled, s, link, c).0.outbox, Notification(u, c.subscribers.value))
  {
    RowsExactly(outboxEnabled, s, link, c);
    var outbox := Check(outboxEnabled, s, link, c).0.outbox;
    var rows := outbox[|s.outbox|..];
    var at :| RowsFor(rows, c.page.value, link.lastUpdatedAt, c.subscribers.value, c.stamps, at);
    var k: nat :| k < |c.page.value| && c.page.value[k] == u;
    assert k in Later(c.page.value, link.lastUpdatedAt);
    var j :| 0 <= j < |at| && at[j] == k;
    assert rows[j].message == Notification(u, c.subscribers.value) && outbox[|s.outbox| + j] == rows[j];
  }

  lemma HandedPost(outboxEnabled: bool, s: State, link: Link, c: Conditions, u: Update)
    requires HandsOver(outboxEnabled, link, c) && u in c.page.value && u.createdAt > link.lastUpdatedAt
    requires forall k: nat :: c.sends(k)
    ensures Notification(u, c.subscribers.value) in Check(outboxEnabled, s, link, c).0.handed
  {
    HandedExactly(outboxEnabled, s, link, c);
    var handed := Check(outboxEnabled, s, link, c).0.handed;
    var sent := handed[|s.handed|..];
    var at :| HandedFor(sent, c.page.value, link.lastUpdatedAt, c.subscribers.value, c.sends, at);
    var k: nat :| k < |c.page.value| && c.page.value[k] == u;
    assert k in Later(c.page.value, link.lastUpdatedAt);
    var j :| 0 <= j < |at| && at[j] == k;
    assert |sent| == |at|;
    assert sent[j] == Notification(u, c.subscribers.value) && handed[|s.handed| + j] == sent[j];
  }
}
