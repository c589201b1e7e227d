/** What whole runs of the scheduler come to: which links they check, and in which state they end. */
module SchedulerRuns {
  import opened Domain
  import opened Fetch
  import opened Store
  import opened SqlRepositories
  import opened CheckLink
  import opened LinkChecking
  import opened FailureReports
  import opened Chunking
  import opened Interleaving
  import opened Pool
  import opened Paging

  // ----- marks -----

  lemma CheckMarks(outboxEnabled: bool, s: State, link: Link, c: Conditions)
    ensures var marks := Check(outboxEnabled, s, link, c).0.marks;
            marks.Keys == s.marks.Keys && forall l | l in s.marks && l != link.id :: marks[l] == s.marks[l]
  {}

  lemma {:induction false} PassMarks(outboxEnabled: bool, s: Shared, visits: seq<Visit>)
    ensures var marks := Pass(outboxEnabled, s, visits).state.marks;
            && marks.Keys == s.state.marks.Keys
            && forall l | l in s.state.marks && (forall v | v in visits :: v.link.id != l) ::
                 marks[l] == s.state.marks[l]
    decreases |visits|
  {
    if visits != [] {
      var n := |visits| - 1;
      PassMarks(outboxEnabled, s, visits[..n]);
      CheckMarks(outboxEnabled, Pass(outboxEnabled, s, visits[..n]).state, visits[n].link, visits[n].met);
      assert visits[n] in visits && forall v | v in visits[..n] :: v in visits;
    }
  }

  predicate Consistent(y: Sys) {
    Marks(y.tables) == y.shared.state.marks
  }

  lemma MarksBack(t: Tables, marks: map<int, Time>)
    requires marks.Keys == t.links.Keys
    ensures Marks(WithMarks(t, marks)) == marks && MarksOnly(t, WithMarks(t, marks))
  {
    var now := WithMarks(t, marks);
    forall l | l in t.links ensures l in marks {
      assert l in marks.Keys;
    }
    assert Marks(now) == marks;
  }

  lemma AfterPageConsistent(g: Setting, y: Sys)
    requires Consistent(y)
    ensures Consistent(AfterPage(g, y)) && MarksOnly(y.tables, AfterPage(g, y).tables)
  {
    var visits := Visits(g, ThisPage(g, y), |y.visited|);
    PassMarks(g.outboxEnabled, y.shared, visits);
    MarksBack(y.tables, Pass(g.outboxEnabled, y.shared, visits).state.marks);
  }

  // ----- nobody else at work: one pass over all subscribed links -----

  lemma {:induction false} PassConcat(outboxEnabled: bool, s: Shared, a: seq<Visit>, b: seq<Visit>)
    ensures Pass(outboxEnabled, s, a + b) == Pass(outboxEnabled, Pass(outboxEnabled, s, a), b)
    decreases |b|
  {
    if b == [] {
      assert a + b == a;
    } else {
      var n := |b| - 1;
      assert (a + b)[..|a + b| - 1] == a + b[..n];
      PassConcat(outboxEnabled, s, a, b[..n]);
    }
  }

  lemma VisitsConcat(g: Setting, a: seq<Link>, b: seq<Link>)
    ensures Visits(g, a + b, 0) == Visits(g, a, 0) + Visits(g, b, |a|)
  {}

  function AllLinks(t: Tables, ids: seq<int>): seq<Link> {
    seq(|ids|, i requires 0 <= i < |ids| => LinkOf(t, ids[i]))
  }

  lemma AllLinksJoin(t: Tables, a: seq<int>, b: seq<int>)
    ensures AllLinks(t, a + b) == AllLinks(t, a) + AllLinks(t, b)
  {}

  /** No row has changed but those of the ids. */
  ghost predicate Untouched(before: Tables, now: Tables, ids: seq<int>) {
    forall l | l in before.links && l !in ids :: l in now.links && now.links[l] == before.links[l]
  }

  /** The links checked are the first ones of the listing, with their rows before the run, and no other
      row has changed. */
  ghost predicate Progressing(before: Tables, y: Sys) {
    var all, n := Listing(Subscribed(before)), |y.visited|;
    && n <= |all| && y.visited == AllLinks(before, all[..n])
    && MarksOnly(before, y.tables) && Untouched(before, y.tables, all[..n])
  }

  lemma CutFollows(ids: seq<int>, limit: nat, n: nat)
    requires n <= |ids|
    ensures var page := Cut(ids, limit, n);
            n + |page| <= |ids| && ids[..n] + page == ids[..n + |page|] && (limit > 0 ==> (page == [] <==> n == |ids|))
  {}

  lemma RowBefore(before: Tables, now: Tables, ids: seq<int>, id: int)
    requires MarksOnly(before, now) && Untouched(before, now, ids) && id !in ids
    ensures LinkOf(now, id) == LinkOf(before, id)
  {
    MarksOnlyKeeps(before, now);
    assert id in now.links.Keys <==> id in before.links.Keys;
  }

  /** The next page of the listing, with the rows before the run. */
  lemma PageRows(g: Setting, before: Tables, y: Sys)
    requires Progressing(before, y)
    ensures ThisPage(g, y) == AllLinks(before, Cut(Listing(Subscribed(before)), g.limit, |y.visited|))
  {
    var all, n := Listing(Subscribed(before)), |y.visited|;
    MarksOnlyKeeps(before, y.tables);
    var page := Cut(all, g.limit, n);
    CutElements(all, g.limit, n);
    forall k | 0 <= k < |page| ensures LinkOf(y.tables, page[k]) == LinkOf(before, page[k]) {
      assert page[k] !in all[..n];
      RowBefore(before, y.tables, all[..n], page[k]);
    }
  }

  /** Checking a page touches the rows of its links only. */
  lemma PageTouches(g: Setting, y: Sys)
    requires Consistent(y)
    ensures Untouched(y.tables, AfterPage(g, y).tables, Ids(ThisPage(g, y)))
  {
    var links := ThisPage(g, y);
    var visits := Visits(g, links, |y.visited|);
    PassMarks(g.outboxEnabled, y.shared, visits);
    forall l | l in y.tables.links && l !in Ids(links)
      ensures l in AfterPage(g, y).tables.links && AfterPage(g, y).tables.links[l] == y.tables.links[l]
    {
      NotVisited(g, links, |y.visited|, l);
      assert l in Marks(y.tables);
    }
  }

  lemma NotVisited(g: Setting, links: seq<Link>, at: nat, l: int)
    requires l !in Ids(links)
    ensures forall v | v in Visits(g, links, at) :: v.link.id != l
  {
    forall v | v in Visits(g, links, at) ensures v.link.id != l {
      var k :| 0 <= k < |links| && Visits(g, links, at)[k] == v;
      assert Ids(links)[k] == v.link.id;
    }
  }

  lemma UntouchedJoins(a: Tables, b: Tables, c: Tables, first: seq<int>, second: seq<int>)
    requires Untouched(a, b, first) && Untouched(b, c, second)
    ensures Untouched(a, c, first + second)
  {
    forall l | l in a.links && l !in first + second ensures l in c.links && c.links[l] == a.links[l] {
      assert l !in first && l !in second;
    }
  }

  lemma PageProgresses(g: Setting, before: Tables, y: Sys)
    requires Progressing(before, y) && Consistent(y)
    ensures Progressing(before, AfterPage(g, y))
  {
    var all, n := Listing(Subscribed(before)), |y.visited|;
    var page, y' := Cut(all, g.limit, n), AfterPage(g, y);
    PageRows(g, before, y);
    CutFollows(all, g.limit, n);
    AllLinksJoin(before, all[..n], page);
    AfterPageConsistent(g, y);
    MarksOnlyJoins(before, y.tables, y'.tables);
    PageTouches(g, y);
    assert Ids(ThisPage(g, y)) == page;
    UntouchedJoins(before, y.tables, y'.tables, all[..n], page);
  }

  lemma StartProgresses(t: Tables, s: Shared)
    ensures Progressing(t, Sys(t, s, []))
  {
    MarksOnlyItself(t);
    assert AllLinks(t, Listing(Subscribed(t))[..0]) == [];
  }

  lemma UndisturbedRead(g: Setting, y: Sys, k: nat)
    requires Undisturbed(g.others) && Consistent(y)
    ensures Moved(g, y, k) == y
  {
    assert g.others(k, y.tables) == y.tables;
  }

  /** The first links of the listing are checked, in one sequential pass over them. */
  ghost predicate OnePassSoFar(g: Setting, t: Tables, s: Shared, y: Sys) {
    Progressing(t, y) && Consistent(y) && y.shared == Pass(g.outboxEnabled, s, Visits(g, y.visited, 0))
  }

  lemma PagePasses(g: Setting, t: Tables, s: Shared, y: Sys)
    requires OnePassSoFar(g, t, s, y)
    ensures OnePassSoFar(g, t, s, AfterPage(g, y))
  {
    PageProgresses(g, t, y);
    AfterPageConsistent(g, y);
    VisitsConcat(g, y.visited, ThisPage(g, y));
    PassConcat(g.outboxEnabled, s, Visits(g, y.visited, 0), Visits(g, ThisPage(g, y), |y.visited|));
  }

  lemma PageAlone(g: Setting, t: Tables, s: Shared, y: Sys, k: nat)
    requires Undisturbed(g.others) && OnePassSoFar(g, t, s, y)
    ensures OnePassSoFar(g, t, s, AfterPage(g, Moved(g, y, k)))
  {
    UndisturbedRead(g, y, k);
    PagePasses(g, t, s, y);
  }

  lemma NextAlone(g: Setting, t: Tables, s: Shared, n: nat)
    requires Undisturbed(g.others)
    ensures OnePassSoFar(g, t, s, Pages(g, Sys(t, s, []), n)) ==> OnePassSoFar(g, t, s, Pages(g, Sys(t, s, []), n + 1))
  {
    if OnePassSoFar(g, t, s, Pages(g, Sys(t, s, []), n)) {
      PageAlone(g, t, s, Pages(g, Sys(t, s, []), n), n);
    }
  }

  lemma StartAlone(g: Setting, t: Tables, s: Shared)
    requires Consistent(Sys(t, s, []))
    ensures OnePassSoFar(g, t, s, Sys(t, s, []))
  {
    StartProgresses(t, s);
    assert Visits(g, [], 0) == [];
  }

  /** That holds after each of the first n pages. */
  ghost predicate OnePassThroughout(g: Setting, t: Tables, s: Shared, n: nat) {
    (n > 0 ==> OnePassThroughout(g, t, s, n - 1)) && OnePassSoFar(g, t, s, Pages(g, Sys(t, s, []), n))
  }

  /** So it is without other requests. */
  lemma {:induction false} UndisturbedRun(g: Setting, t: Tables, s: Shared, n: nat)
    requires Undisturbed(g.others) && Consistent(Sys(t, s, []))
    ensures OnePassThroughout(g, t, s, n)
  {
    if n == 0 {
      StartAlone(g, t, s);
    } else {
      UndisturbedRun(g, t, s, n - 1);
      NextAlone(g, t, s, n - 1);
    }
  }

  /** A complete run is one sequential pass over all subscribed links in id order, each once, with the row
      it had before the run, whatever the batch size. */
  lemma CompleteRunIsOnePass(g: Setting, t: Tables, s: Shared, n: nat)
    requires Undisturbed(g.others) && g.limit > 0 && Consistent(Sys(t, s, []))
    requires ThisPage(g, AtRead(g, Sys(t, s, []), n)) == []
    ensures var y := AtRead(g, Sys(t, s, []), n);
            && y.visited == AllLinks(t, Listing(Subscribed(t)))
            && y.shared == Pass(g.outboxEnabled, s, Visits(g, y.visited, 0))
            && MarksOnly(t, y.tables)
  {
    var y := Pages(g, Sys(t, s, []), n);
    UndisturbedRun(g, t, s, n);
    UndisturbedRead(g, y, n);
    var all := Listing(Subscribed(t));
    PageRows(g, t, y);
    CutFollows(all, g.limit, |y.visited|);
    assert all[..|all|] == all;
  }

  /** At any read of such a run, complete or not. */
  lemma RunSoFar(g: Setting, t: Tables, s: Shared, n: nat)
    requires Undisturbed(g.others) && g.limit > 0 && Consistent(Sys(t, s, []))
    ensures var y := AtRead(g, Sys(t, s, []), n);
            OnePassSoFar(g, t, s, y) && (ThisPage(g, y) == [] ==> y.visited == AllLinks(t, Listing(Subscribed(t))))
  {
    UndisturbedRun(g, t, s, n);
    UndisturbedRead(g, Pages(g, Sys(t, s, []), n), n);
    if ThisPage(g, AtRead(g, Sys(t, s, []), n)) == [] {
      CompleteRunIsOnePass(g, t, s, n);
    }
  }

  // ----- every schedule of the workers in every batch -----

  /** One page whose workers ran under some chunks and some schedule, and whose failures were then reported. */
  ghost predicate ScheduledWith(g: Setting, m: Sys, y': Sys, chunks: seq<Chunk>, schedule: seq<nat>) {
    var visits := Visits(g, ThisPage(g, m), |m.visited|);
    var jobs := Jobs(g.outboxEnabled, visits);
    && Covers(chunks, |jobs|)
    && var b := Run(Apply, jobs, chunks, m.shared, schedule);
    && Waited(chunks, b) && (forall k | 0 <= k < |b.failed| :: b.failed[k] < |jobs|)
    && y' == Sys(WithMarks(m.tables, y'.shared.state.marks), EndFailed(Apply, jobs, b.failed, b.state),
        m.visited + ThisPage(g, m))
  }

  ghost predicate Scheduled(g: Setting, m: Sys, y': Sys) {
    exists chunks, schedule :: ScheduledWith(g, m, y', chunks, schedule)
  }

  ghost predicate ScheduledRun(g: Setting, states: seq<Sys>) {
    && states != []
    && forall k | 0 <= k < |states| - 1 :: Scheduled(g, Moved(g, states[k], k), states[k + 1])
  }

  predicate SameLook(a: Sys, b: Sys) {
    a.tables == b.tables && TallyOf(a.shared) == TallyOf(b.shared) && a.visited == b.visited
  }

  lemma ScheduledLooksLike(g: Setting, a: Sys, y': Sys, b: Sys)
    requires Scheduled(g, a, y') && SameLook(a, b)
    ensures SameLook(y', AfterPage(g, b))
  {
    var chunks, schedule :| ScheduledWith(g, a, y', chunks, schedule);
    var visits := Visits(g, ThisPage(g, a), |a.visited|);
    PageIsBatch(g, a.tables, Listing(Subscribed(a.tables)), |a.visited|);
    SchedulesDoNotMatter(g.outboxEnabled, a.shared, visits, chunks, schedule);
    BatchFits(g.outboxEnabled, visits);
    PassKeepsTally(g.outboxEnabled, a.shared, b.shared, visits);
    SameMarks(y'.shared, Pass(g.outboxEnabled, b.shared, visits));
  }

  lemma SameMarks(a: Shared, b: Shared)
    requires TallyOf(a) == TallyOf(b)
    ensures a.state.marks == b.state.marks
  {}

  lemma MovedLooksLike(g: Setting, a: Sys, b: Sys, k: nat)
    requires SameLook(a, b)
    ensures SameLook(Moved(g, a, k), Moved(g, b, k))
  {}

  /** A whole run, with any worker count and any schedule in each of its batches, looks like the run in
      which each batch is one sequential pass, whatever other requests do in between. */
  lemma {:induction false} SchedulesOfRunDoNotMatter(g: Setting, states: seq<Sys>, n: nat)
    requires ScheduledRun(g, states) && n < |states|
    ensures SameLook(states[n], Pages(g, states[0], n))
  {
    if n > 0 {
      SchedulesOfRunDoNotMatter(g, states, n - 1);
      var y := Pages(g, states[0], n - 1);
      MovedLooksLike(g, states[n - 1], y, n - 1);
      ScheduledLooksLike(g, Moved(g, states[n - 1], n - 1), states[n], Moved(g, y, n - 1));
    }
  }

  /** All together: without other requests a complete run ends, for every batch size, worker count and
      schedule, as one sequential pass over the subscribed links. */
  lemma EveryRunIsOnePass(g: Setting, states: seq<Sys>, n: nat)
    requires Undisturbed(g.others) && g.limit > 0 && ScheduledRun(g, states) && n == |states| - 1
    requires states[0].visited == [] && Consistent(states[0]) && ThisPage(g, Moved(g, states[n], n)) == []
    ensures states[n].visited == AllLinks(states[0].tables, Listing(Subscribed(states[0].tables)))
    ensures TallyOf(states[n].shared)
            == TallyOf(Pass(g.outboxEnabled, states[0].shared, Visits(g, states[n].visited, 0)))
  {
    var y0 := states[0];
    SchedulesOfRunDoNotMatter(g, states, n);
    UndisturbedRun(g, y0.tables, y0.shared, n);
    UndisturbedRead(g, Pages(g, y0, n), n);
    MovedLooksLike(g, states[n], Pages(g, y0, n), n);
    CompleteRunIsOnePass(g, y0.tables, y0.shared, n);
  }

  // ----- subscriptions that change meanwhile -----

  /** How many ids of a listing are not above the last id checked. */
  function Passed(ids: seq<int>, done: seq<int>): nat {
    if done == [] then 0 else NotAbove(ids, done[|done| - 1])
  }

  /** The page at the offset continues right after the last id checked; by PageContinuesExactly no other
      offset does. */
  predicate OffsetInStep(ids: seq<int>, done: seq<int>) {
    (if |done| < |ids| then |done| else |ids|) == Passed(ids, done)
  }

  /** The ids checked ascend, and x is among them unless it is above the last one. */
  predicate InOrderWith(done: seq<int>, x: int) {
    Ascending(done) && (done != [] && x <= done[|done| - 1] ==> x in done)
  }

  /** A page in step lies above the last id checked and leaves out none of the listing before its own last. */
  lemma PageAhead(ids: seq<int>, limit: nat, done: seq<int>, x: int)
    requires Ascending(ids) && OffsetInStep(ids, done)
    ensures var page := Cut(ids, limit, |done|);
            && Ascending(page)
            && (x in page && done != [] ==> done[|done| - 1] < x)
            && (x in ids && page != [] && (done == [] || done[|done| - 1] < x) && x <= page[|page| - 1] ==> x in page)
  {
    var n := |done|;
    var page := Cut(ids, limit, n);
    CutElements(ids, limit, n);
    if done != [] {
      NotAboveSplits(ids, done[n - 1]);
    }
    if x in ids && page != [] && (done == [] || done[n - 1] < x) && x <= page[|page| - 1] {
      var k :| 0 <= k < |ids| && ids[k] == x;
      assert n <= k <= n + |page| - 1;
      assert page[k - n] == x;
    }
  }

  lemma AscendingJoin(a: seq<int>, b: seq<int>)
    requires Ascending(a) && Ascending(b) && (a != [] ==> forall x | x in b :: a[|a| - 1] < x)
    ensures Ascending(a + b)
  {
    forall i, j | 0 <= i < j < |a + b| ensures (a + b)[i] < (a + b)[j] {
      if i < |a| <= j {
        assert b[j - |a|] in b && a[i] <= a[|a| - 1];
      }
    }
  }

  lemma PageKeepsOrder(ids: seq<int>, limit: nat, done: seq<int>, x: int)
    requires Ascending(ids) && OffsetInStep(ids, done) && InOrderWith(done, x) && x in ids
    ensures InOrderWith(done + Cut(ids, limit, |done|), x)
  {
    var page := Cut(ids, limit, |done|);
    forall z | z in page && done != [] ensures done[|done| - 1] < z {
      PageAhead(ids, limit, done, z);
    }
    PageAhead(ids, limit, done, x);
    AscendingJoin(done, page);
    if page == [] {
      assert done + page == done;
    }
  }

  /** The ids checked when page read k finds the k-th of the listings. */
  function Walk(listings: seq<seq<int>>, limit: nat): seq<int> {
    if listings == [] then [] else
      var done := Walk(listings[..|listings| - 1], limit);
      done + Cut(listings[|listings| - 1], limit, |done|)
  }

  predicate WalksInStep(listings: seq<seq<int>>, limit: nat) {
    listings == [] ||
    (var before := listings[..|listings| - 1];
     WalksInStep(before, limit) && OffsetInStep(listings[|listings| - 1], Walk(before, limit)))
  }

  /** While every read is in step, the ids are checked in ascending order, each once, and every id that is in
      all listings and not above the last one checked has been checked. */
  lemma {:induction false} WalkInOrder(listings: seq<seq<int>>, limit: nat, x: int)
    requires (forall ids | ids in listings :: Ascending(ids) && x in ids) && WalksInStep(listings, limit)
    ensures InOrderWith(Walk(listings, limit), x)
  {
    if listings != [] {
      var before, last := listings[..|listings| - 1], listings[|listings| - 1];
      assert last in listings && forall ids | ids in before :: ids in listings;
      WalkInOrder(before, limit, x);
      PageKeepsOrder(last, limit, Walk(before, limit), x);
    }
  }

  lemma EmptyPageInStep(ids: seq<int>, limit: nat, done: seq<int>, x: int)
    requires Ascending(ids) && OffsetInStep(ids, done) && limit > 0 && Cut(ids, limit, |done|) == [] && x in ids
    ensures done != [] && x <= done[|done| - 1]
  {
    var k :| 0 <= k < |ids| && ids[k] == x;
    CutElements(ids, limit, |done|);
    NotAboveSplits(ids, done[|done| - 1]);
  }

  predicate InAll(listings: seq<seq<int>>, x: int) {
    forall ids | ids in listings :: x in ids
  }

  /** A walk that ends with an empty page of the last listing has checked every id that is in all of them. */
  lemma WalkChecksEveryId(before: seq<seq<int>>, last: seq<int>, limit: nat, x: int)
    requires limit > 0 && Ascending(last) && forall ids | ids in before :: Ascending(ids)
    requires WalksInStep(before + [last], limit) && InAll(before + [last], x)
    requires Cut(last, limit, |Walk(before, limit)|) == []
    ensures Ascending(Walk(before, limit)) && x in Walk(before, limit)
  {
    var listings := before + [last];
    assert listings[..|before|] == before && listings[|before|] == last;
    assert last in listings && forall ids | ids in before :: ids in listings;
    WalkInOrder(before, limit, x);
    EmptyPageInStep(last, limit, Walk(before, limit), x);
  }

  /** The listings in force at the first n reads of a run. */
  ghost function Listings(g: Setting, y: Sys, n: nat): seq<seq<int>> {
    seq(n, k requires 0 <= k => Listing(Subscribed(AtRead(g, y, k).tables)))
  }

  lemma IdsAfterPage(g: Setting, m: Sys)
    ensures Ids(AfterPage(g, m).visited)
            == Ids(m.visited) + Cut(Listing(Subscribed(m.tables)), g.limit, |Ids(m.visited)|)
  {}

  lemma WalkOne(listings: seq<seq<int>>, ids: seq<int>, limit: nat)
    ensures Walk(listings + [ids], limit) == Walk(listings, limit) + Cut(ids, limit, |Walk(listings, limit)|)
  {
    assert (listings + [ids])[..|listings|] == listings;
  }

  lemma IdsAfterRead(g: Setting, y: Sys, n: nat)
    ensures var done := Ids(Pages(g, y, n).visited);
            Ids(Pages(g, y, n + 1).visited) == done + Cut(Listing(Subscribed(AtRead(g, y, n).tables)), g.limit, |done|)
  {
    IdsAfterPage(g, AtRead(g, y, n));
  }

  lemma {:induction false} StepsAreWalk(done: nat -> seq<int>, listing: nat -> seq<int>, limit: nat, n: nat)
    requires done(0) == [] && forall k: nat :: done(k + 1) == done(k) + Cut(listing(k), limit, |done(k)|)
    ensures done(n) == Walk(seq(n, k requires 0 <= k => listing(k)), limit)
  {
    if n > 0 {
      StepsAreWalk(done, listing, limit, n - 1);
      var before := seq(n - 1, k requires 0 <= k => listing(k));
      assert done(n - 1 + 1) == done(n - 1) + Cut(listing(n - 1), limit, |done(n - 1)|);
      assert seq(n, k requires 0 <= k => listing(k)) == before + [listing(n - 1)];
      WalkOne(before, listing(n - 1), limit);
    }
  }

  lemma RunIsWalk(g: Setting, y: Sys, n: nat)
    requires y.visited == []
    ensures Ids(Pages(g, y, n).visited) == Walk(Listings(g, y, n), g.limit)
  {
    var done := (k: nat) => Ids(Pages(g, y, k).visited);
    var listing := (k: nat) => Listing(Subscribed(AtRead(g, y, k).tables));
    forall k: nat ensures done(k + 1) == done(k) + Cut(listing(k), g.limit, |done(k)|) {
      IdsAfterRead(g, y, k);
    }
    StepsAreWalk(done, listing, g.limit, n);
    assert Listings(g, y, n) == seq(n, k requires 0 <= k => listing(k));
  }

  /** So a complete run checks every link that is subscribed throughout, exactly once, although others come
      and go, as long as every read is in step. */
  lemma RunChecksEveryLink(g: Setting, y: Sys, n: nat, x: int)
    requires g.limit > 0 && y.visited == []
    ensures var listings := Listings(g, y, n + 1);
            ThisPage(g, AtRead(g, y, n)) == [] && WalksInStep(listings, g.limit) && InAll(listings, x)
            ==> Ascending(Ids(AtRead(g, y, n).visited)) && x in Ids(AtRead(g, y, n).visited)
  {
    var before, last := Listings(g, y, n), Listing(Subscribed(AtRead(g, y, n).tables));
    ListingsLast(g, y, n);
    if ThisPage(g, AtRead(g, y, n)) == [] && WalksInStep(before + [last], g.limit) && InAll(before + [last], x) {
      RunIsWalk(g, y, n);
      EmptyPage(g, AtRead(g, y, n));
      WalkChecksEveryId(before, last, g.limit, x);
    }
  }

  lemma OneLonger(f: nat -> seq<int>, n: nat)
    ensures seq(n + 1, k requires 0 <= k => f(k)) == seq(n, k requires 0 <= k => f(k)) + [f(n)]
  {}

  lemma AllAscend(f: nat -> seq<int>, n: nat)
    requires forall k: nat :: Ascending(f(k))
    ensures forall ids | ids in seq(n, k requires 0 <= k => f(k)) :: Ascending(ids)
  {}

  lemma ListingsLast(g: Setting, y: Sys, n: nat)
    ensures Listings(g, y, n + 1) == Listings(g, y, n) + [Listing(Subscribed(AtRead(g, y, n).tables))]
    ensures forall ids | ids in Listings(g, y, n) :: Ascending(ids)
  {
    var listing := (k: nat) => Listing(Subscribed(AtRead(g, y, k).tables));
    OneLonger(listing, n);
    AllAscend(listing, n);
    assert Listings(g, y, n) == seq(n, k requires 0 <= k => listing(k));
    assert Listings(g, y, n + 1) == seq(n + 1, k requires 0 <= k => listing(k));
  }

  lemma EmptyPage(g: Setting, m: Sys)
    requires ThisPage(g, m) == []
    ensures Cut(Listing(Subscribed(m.tables)), g.limit, |Ids(m.visited)|) == []
  {
    assert |Cut(Listing(Subscribed(m.tables)), g.limit, |m.visited|)| == |ThisPage(g, m)|;
  }

  /** All ids up to the last one of a page are on the page or before it. */
  lemma CountToLast(ids: seq<int>, limit: nat, offset: nat)
    requires Ascending(ids) && Cut(ids, limit, offset) != []
    ensures var page := Cut(ids, limit, offset); NotAbove(ids, page[|page| - 1]) == offset + |page|
  {
    var page := Cut(ids, limit, offset);
    var last, n := page[|page| - 1], offset + |page|;
    CutElements(ids, limit, offset);
    assert ids[n - 1] == last && (n < |ids| ==> ids[n] > last);
    NotAboveSplits(ids, last);
  }

  /** A read stays in step when, since the read before, nothing up to the last link checked was subscribed
      or unsubscribed: what happens ahead of the scheduler does no harm. */
  lemma ChangesAheadAreHarmless(ids: seq<int>, ids': seq<int>, limit: nat, done: seq<int>)
    requires Ascending(ids) && Ascending(ids') && OffsetInStep(ids, done) && Cut(ids, limit, |done|) != []
    requires var page := Cut(ids, limit, |done|);
             forall x | x <= page[|page| - 1] :: x in AsSet(ids) <==> x in AsSet(ids')
    ensures OffsetInStep(ids', done + Cut(ids, limit, |done|))
  {
    var page := Cut(ids, limit, |done|);
    CountToLast(ids, limit, |done|);
    SamePrefix(ids, ids', page[|page| - 1]);
  }

  /** Listings that agree up to v have the same number of ids up to v. */
  lemma {:induction false} SamePrefix(a: seq<int>, b: seq<int>, v: int)
    requires Ascending(a) && Ascending(b) && forall x | x <= v :: x in AsSet(a) <==> x in AsSet(b)
    ensures NotAbove(a, v) == NotAbove(b, v)
  {
    NotAboveSplits(a, v);
    NotAboveSplits(b, v);
    var p, q := a[..NotAbove(a, v)], b[..NotAbove(b, v)];
    forall x ensures x in AsSet(p) <==> x in AsSet(q) {
      PrefixHolds(a, v, x);
      PrefixHolds(b, v, x);
    }
    AscendingUnique(p, q);
  }

  lemma PrefixHolds(a: seq<int>, v: int, x: int)
    requires Ascending(a)
    ensures x in AsSet(a[..NotAbove(a, v)]) <==> x in AsSet(a) && x <= v
  {
    NotAboveSplits(a, v);
    if x in AsSet(a) && x <= v {
      var k :| 0 <= k < |a| && a[k] == x;
      assert a[..NotAbove(a, v)][k] == x;
    }
  }
}
