/** One run of the scheduler: page after page of the subscribed links, each page checked as a batch. */
module Scheduling {
  import opened Domain
  import opened Store
  import opened SqlRepositories
  import opened LinkChecking
  import opened Pool
  import opened BatchProcessing
  import opened Paging
  import opened SchedulerRuns
  import RunOutcomes

  const DEFAULT_BATCH_SIZE := 100

  /** What a run comes to when nobody else is at work. */
  lemma Alone(g: Setting, y: Sys, n: nat)
    requires g.limit > 0 && y.visited == [] && Consistent(y)
    ensures Undisturbed(g.others) ==>
              var now, all := AtRead(g, y, n), Listing(Subscribed(y.tables));
              && |now.visited| <= |all| && now.visited == AllLinks(y.tables, all[..|now.visited|])
              && (ThisPage(g, now) == [] ==> now.visited == AllLinks(y.tables, all))
              && now.shared == Pass(g.outboxEnabled, y.shared, Visits(g, now.visited, 0))
              && MarksOnly(y.tables, now.tables)
  {
    if Undisturbed(g.others) {
      RunSoFar(g, y.tables, y.shared, n);
    }
  }

  lemma ListingHasRows(t: Tables)
    requires Valid(t)
    ensures HaveRows(t, Listing(Subscribed(t)))
  {
    var all := Listing(Subscribed(t));
    forall i | 0 <= i < |all| ensures all[i] in t.links {
      var id := all[i];
      assert id in AsSet(all);
      assert id in Subscribed(t);
      var s :| s in t.subscriptions && s.link == id;
    }
  }

  /** And the links checked are then rows of the table the run found. */
  lemma RowsVisited(g: Setting, y: Sys, n: nat)
    requires g.limit > 0 && y.visited == [] && Consistent(y) && Valid(y.tables)
    ensures Undisturbed(g.others) ==>
              var visited := AtRead(g, y, n).visited;
              ShowsRows(y.tables, Listing(Subscribed(y.tables)), |visited|, 0, visited)
  {
    if Undisturbed(g.others) {
      var now, all := AtRead(g, y, n), Listing(Subscribed(y.tables));
      Alone(g, y, n);
      ListingHasRows(y.tables);
      AllLinksShowRows(y.tables, all, |now.visited|);
    }
  }

  lemma OneListing(t: Tables, ids: seq<int>)
    requires Ascending(ids) && (set id | id in ids) == set s | s in t.subscriptions :: s.link
    ensures ids == Listing(Subscribed(t))
  {
    AscendingUnique(ids, Listing(Subscribed(t)));
  }

  lemma PageFits(ids: seq<int>, limit: nat, offset: nat)
    requires Ascending(ids)
    ensures |Cut(ids, limit, offset)| > 0 ==> offset + |Cut(ids, limit, offset)| <= |AsSet(ids)|
  {
    AscendingCount(ids);
    CutElements(ids, limit, offset);
  }

  /** So does every page of a run, for the tables it is read from, whatever other requests have changed. */
  lemma PageShowsTables(g: Setting, y: Sys)
    requires Valid(y.tables)
    ensures ShowsRows(y.tables, Listing(Subscribed(y.tables)), g.limit, |y.visited|, ThisPage(g, y))
  {
    var all := Listing(Subscribed(y.tables));
    ListingHasRows(y.tables);
    PageShowsRows(y.tables, all, g.limit, |y.visited|);
  }

  /** And each of them is left as its own check says. */
  lemma OutcomesAlone(g: Setting, y: Sys, n: nat, end: Shared)
    requires g.limit > 0 && y.visited == [] && Consistent(y)
    requires TallyOf(end) == TallyOf(AtRead(g, y, n).shared)
    ensures Undisturbed(g.others) ==>
              var visited := AtRead(g, y, n).visited;
              forall i: nat | i < |visited| ::
                RunOutcomes.Outcome(g.outboxEnabled, visited[i], g.met(i, visited[i]), y.shared, end)
  {
    if Undisturbed(g.others) {
      Alone(g, y, n);
      RunOutcomes.FirstLinksOutcome(g, y.shared, y.tables, |AtRead(g, y, n).visited|, end);
    }
  }

  lemma AllLinksShowRows(t: Tables, ids: seq<int>, n: nat)
    requires n <= |ids| && HaveRows(t, ids)
    ensures ShowsRows(t, ids, n, 0, AllLinks(t, ids[..n]))
  {}

  class Scheduler {
    const db: Database
    const processor: BatchProcessor
    const batchSize: nat

    constructor (processor: BatchProcessor, batchSize: int)
      ensures this.processor == processor && db == processor.checker.db
      ensures this.batchSize == if batchSize <= 0 then DEFAULT_BATCH_SIZE else batchSize
    {
      this.processor, db := processor, processor.checker.db;
      this.batchSize := if batchSize <= 0 then DEFAULT_BATCH_SIZE else batchSize;
    }

    ghost predicate Ready()
      reads this, processor, processor.checker
    {
      db == processor.checker.db && batchSize > 0
    }

    function SettingOf(others: (nat, Tables) -> Tables, met: (nat, Link) -> Meeting): Setting
      reads processor, processor.checker
    {
      Setting(processor.checker.outboxEnabled, batchSize, others, met)
    }

    /** CheckLinks: page after page until one is empty or cannot be read. Before each read other requests
        may have changed the tables. The run is `Pages`: every page read is checked, with the conditions its
        links meet, as one sequential pass, up to the order of rows, sends and reports. It ends as long as
        the number of subscribed links stays bounded. */
    method CheckLinks(
        readFails: nat -> bool, others: (nat, Tables) -> Tables, met: (nat, Link) -> Meeting, ghost most: nat)
      returns (visited: seq<Link>, complete: bool, ghost pages: nat)
      requires Ready() && Valid(db.tables) && Bounded(others, most) && |Subscribed(db.tables)| <= most
      modifies processor.checker, processor.checker.db, processor.failures
      ensures var g := SettingOf(others, met);
              var y := AtRead(g, Sys(old(db.tables), old(processor.Now()), []), pages);
              && LooksLike(y) && visited == y.visited
              && (if complete then ThisPage(g, y) == [] else readFails(pages))
      ensures (forall page :: !readFails(page)) ==> complete
      ensures var g, all := SettingOf(others, met), Listing(Subscribed(old(db.tables)));
              Undisturbed(others) ==>
                && |visited| <= |all| && visited == AllLinks(old(db.tables), all[..|visited|])
                && (complete ==> visited == AllLinks(old(db.tables), all))
                && ShowsRows(old(db.tables), all, |visited|, 0, visited)
                && TallyOf(processor.Now())
                    == TallyOf(Pass(g.outboxEnabled, old(processor.Now()), Visits(g, visited, 0)))
                && MarksOnly(old(db.tables), db.tables)
      ensures Undisturbed(others) ==>
                forall i: nat | i < |visited| ::
                  RunOutcomes.Outcome(processor.checker.outboxEnabled, visited[i], met(i, visited[i]),
                    old(processor.Now()), processor.Now())
    {
      ghost var g := SettingOf(others, met);
      ghost var y := Sys(db.tables, processor.Now(), []);
      var page := 0;
      visited, complete, pages := [], false, 0;
      while true
        invariant LooksLike(Pages(g, y, page)) && visited == Pages(g, y, page).visited
        invariant Valid(db.tables) && |Subscribed(db.tables)| <= most
        decreases most - |visited|
      {
        pages := page;
        var links := TakePage(page, readFails(page), others, visited, met, g, Pages(g, y, page), most);
        if |links| == 0 {
          complete := !readFails(page);
          Alone(g, y, page);
          RowsVisited(g, y, page);
          OutcomesAlone(g, y, page, processor.Now());
          return;
        }
        visited := visited + links;
        page := page + 1;
      }
    }

    /** The tables are those of y, and what the checks change looks like y up to order. */
    ghost predicate LooksLike(y: Sys)
      reads this, db, processor, processor.checker, processor.checker.db, processor.failures
    {
      db.tables == y.tables && TallyOf(processor.Now()) == TallyOf(y.shared)
    }

    /** One turn of the loop: other requests, the page read, and the batch unless the page is empty. */
    method TakePage(
        page: nat, fails: bool, others: (nat, Tables) -> Tables, visited: seq<Link>, met: (nat, Link) -> Meeting,
        ghost g: Setting, ghost y: Sys, ghost most: nat)
      returns (links: seq<Link>)
      requires Ready() && g == SettingOf(others, met) && LooksLike(y) && visited == y.visited
      requires Valid(db.tables) && Bounded(others, most) && |Subscribed(db.tables)| <= most
      modifies processor.checker, processor.checker.db, processor.failures
      ensures var m := Moved(g, y, page);
              && (fails ==> links == []) && (!fails ==> links == ThisPage(g, m))
              && LooksLike(if links == [] then m else AfterPage(g, m))
      ensures Valid(db.tables) && |Subscribed(db.tables)| <= most && (links != [] ==> |visited| + |links| <= most)
    {
      ghost var m := Moved(g, y, page);
      OtherRequests(page, others, g, y);
      if fails {
        return [];
      }
      links := ReadPage(visited, g, m);
      if |links| > 0 {
        CheckPage(links, visited, met, g, m);
        MarksOnlyKeeps(m.tables, db.tables);
      }
    }

    /** The requests of others between two page reads. */
    method OtherRequests(page: nat, others: (nat, Tables) -> Tables, ghost g: Setting, ghost y: Sys)
      requires Ready() && g.others == others && LooksLike(y)
      modifies processor.checker.db
      ensures LooksLike(Moved(g, y, page))
    {
      db.tables := others(page, db.tables);
    }

    /** GetTrackedLinksBatch at the offset of the run. */
    method ReadPage(visited: seq<Link>, ghost g: Setting, ghost y: Sys) returns (links: seq<Link>)
      requires Ready() && g.limit == batchSize && Valid(db.tables) && db.tables == y.tables && visited == y.visited
      ensures links == ThisPage(g, y)
      ensures ShowsRows(db.tables, Listing(Subscribed(db.tables)), batchSize, |visited|, links)
      ensures |links| > 0 ==> |visited| + |links| <= |Subscribed(y.tables)|
    {
      links := db.GetTrackedLinksBatch(batchSize, |visited|);
      ghost var ids :| Ascending(ids) && (set id | id in ids) == (set s | s in db.tables.subscriptions :: s.link)
        && links == PageOf(db.tables, ids, batchSize, |visited|);
      OneListing(db.tables, ids);
      PageShowsTables(g, y);
      PageFits(Listing(Subscribed(y.tables)), batchSize, |visited|);
    }

    /** The page is checked. */
    method CheckPage(links: seq<Link>, visited: seq<Link>, met: (nat, Link) -> Meeting, ghost g: Setting, ghost y: Sys)
      requires Ready() && g.outboxEnabled == processor.checker.outboxEnabled && g.met == met
      requires LooksLike(y) && visited == y.visited && links == ThisPage(g, y)
      modifies processor.checker, processor.checker.db, processor.failures
      ensures LooksLike(AfterPage(g, y))
      ensures MarksOnly(old(db.tables), db.tables)
    {
      ghost var before := processor.Now();
      ghost var visits := Visits(g, links, |visited|);
      var todo: seq<Visit> := seq(|links|, i requires 0 <= i < |links| =>
        VisitOf(processor.checker.outboxEnabled, links[i], met(|visited| + i, links[i])));
      assert todo == visits;
      PageIsBatch(g, y.tables, Listing(Subscribed(y.tables)), |visited|);
      processor.ProcessBatch(todo);
      BatchFits(g.outboxEnabled, visits);
      PassKeepsTally(g.outboxEnabled, before, y.shared, visits);
    }
  }
}
