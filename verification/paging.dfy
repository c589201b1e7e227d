/** The pages of the subscribed links, and a run of the scheduler over them as a function. */
module Paging {
  import opened Domain
  import opened Store
  import opened SqlRepositories
  import opened CheckLink
  import opened LinkChecking
  import opened FailureReports
  import opened Interleaving
  import opened Pool

  // ----- pages of a listing -----

  function Subscribed(t: Tables): set<int> {
    set s | s in t.subscriptions :: s.link
  }

  function AsSet(ids: seq<int>): set<int> {
    set id | id in ids
  }

  function Ids(links: seq<Link>): seq<int> {
    seq(|links|, i requires 0 <= i < |links| => links[i].id)
  }

  /** A set has one ascending listing. */
  lemma {:induction false} AscendingUnique(a: seq<int>, b: seq<int>)
    requires Ascending(a) && Ascending(b) && AsSet(a) == AsSet(b)
    ensures a == b
  {
    assert b != [] ==> b[0] in AsSet(b);
    if a != [] {
      assert a[0] in AsSet(b);
      var j :| 0 <= j < |b| && b[j] == a[0];
      assert b[0] in AsSet(a);
      var i :| 0 <= i < |a| && a[i] == b[0];
      assert a[0] == b[0];
      forall x ensures x in a[1..] <==> x in b[1..] {
        assert x in a <==> x in AsSet(b);
      }
      AscendingUnique(a[1..], b[1..]);
    }
  }

  /** The ascending listing of a set. */
  ghost function Listing(ids: set<int>): (all: seq<int>)
    ensures Ascending(all) && AsSet(all) == ids
    decreases ids
  {
    if ids == {} then [] else
      LeastExists(ids);
      var m :| m in ids && forall x | x in ids :: m <= x;
      var rest := Listing(ids - {m});
      Prepended(m, rest);
      [m] + rest
  }

  lemma Prepended(m: int, rest: seq<int>)
    requires Ascending(rest) && forall x | x in AsSet(rest) :: m < x
    ensures Ascending([m] + rest) && AsSet([m] + rest) == {m} + AsSet(rest)
  {
    assert forall k | 0 <= k < |rest| :: rest[k] in AsSet(rest);
  }

  lemma {:induction false} AscendingCount(ids: seq<int>)
    requires Ascending(ids)
    ensures |AsSet(ids)| == |ids|
  {
    if ids != [] {
      var n := |ids| - 1;
      AscendingCount(ids[..n]);
      assert ids == ids[..n] + [ids[n]];
      assert AsSet(ids) == AsSet(ids[..n]) + {ids[n]} && ids[n] !in AsSet(ids[..n]);
    }
  }

  /** How many of the first ids are not above v. */
  function NotAbove(ids: seq<int>, v: int): (n: nat)
    ensures n <= |ids|
  {
    if ids == [] || ids[0] > v then 0 else 1 + NotAbove(ids[1..], v)
  }

  lemma {:induction false} NotAboveSplits(ids: seq<int>, v: int)
    requires Ascending(ids)
    ensures forall k | 0 <= k < |ids| :: k < NotAbove(ids, v) <==> ids[k] <= v
  {
    if ids != [] && ids[0] <= v {
      NotAboveSplits(ids[1..], v);
      forall k | 0 <= k < |ids| ensures k < NotAbove(ids, v) <==> ids[k] <= v {
        if k > 0 {
          assert ids[k] == ids[1..][k - 1];
        }
      }
    }
  }

  lemma CutElements(ids: seq<int>, limit: nat, offset: nat)
    ensures |Cut(ids, limit, offset)| <= limit
    ensures forall k | 0 <= k < |Cut(ids, limit, offset)| ::
              offset + k < |ids| && Cut(ids, limit, offset)[k] == ids[offset + k]
    ensures limit > 0 ==> (Cut(ids, limit, offset) == [] <==> offset >= |ids|)
  {}

  /** The page at `offset` of the listing now in force continues right after the last id visited, v, exactly
      when the offset, cut off at the end of the listing, is the number of ids not above v. */
  lemma PageContinuesExactly(ids: seq<int>, limit: nat, offset: nat, v: int)
    requires Ascending(ids) && limit > 0
    ensures Cut(ids, limit, offset) == Cut(ids, limit, NotAbove(ids, v))
            <==> (if offset < |ids| then offset else |ids|) == NotAbove(ids, v)
  {
    DifferentPages(ids, limit, offset, NotAbove(ids, v));
  }

  lemma AscendingDiffer(ids: seq<int>, a: nat, b: nat)
    requires Ascending(ids) && a < |ids| && b < |ids| && a != b
    ensures ids[a] != ids[b]
  {
    if a < b {
      assert ids[a] < ids[b];
    } else {
      assert ids[b] < ids[a];
    }
  }

  lemma FirstOfCut(ids: seq<int>, limit: nat, offset: nat)
    requires limit > 0 && offset < |ids|
    ensures Cut(ids, limit, offset) != [] && Cut(ids, limit, offset)[0] == ids[offset]
  {}

  /** Two offsets show the same page only if they are the same or both at the end. */
  lemma DifferentPages(ids: seq<int>, limit: nat, a: nat, b: nat)
    requires Ascending(ids) && limit > 0 && b <= |ids|
    ensures Cut(ids, limit, a) == Cut(ids, limit, b) <==> (if a < |ids| then a else |ids|) == b
  {
    CutElements(ids, limit, a);
    CutElements(ids, limit, b);
    if a < |ids| && b < |ids| && a != b {
      FirstOfCut(ids, limit, a);
      FirstOfCut(ids, limit, b);
      AscendingDiffer(ids, a, b);
    }
  }

  /** When the offset is greater, because links before it were unsubscribed, the ids in between are on this
      page and on no later one of the listing. */
  lemma PageSkips(ids: seq<int>, limit: nat, offset: nat, v: int, k: nat, later: nat)
    requires Ascending(ids) && NotAbove(ids, v) <= k < offset <= later && k < |ids|
    ensures ids[k] > v && ids[k] !in Cut(ids, limit, later)
  {
    NotAboveSplits(ids, v);
    CutElements(ids, limit, later);
  }

  lemma LastNotAbove(ids: seq<int>, v: int)
    requires Ascending(ids) && v in ids
    ensures NotAbove(ids, v) > 0 && ids[NotAbove(ids, v) - 1] == v
  {
    var n := NotAbove(ids, v);
    NotAboveSplits(ids, v);
    var k :| 0 <= k < |ids| && ids[k] == v;
    LaterIsGreater(ids, k, n - 1);
  }

  lemma LaterIsGreater(ids: seq<int>, a: nat, b: nat)
    requires Ascending(ids) && a <= b < |ids|
    ensures a < b ==> ids[a] < ids[b]
  {}

  /** When it is smaller, because links were subscribed before it, the page goes back: it begins with an id
      not above v, and shows v again if v is still subscribed and the page reaches that far. */
  lemma PageRepeats(ids: seq<int>, limit: nat, offset: nat, v: int)
    requires Ascending(ids) && limit > 0 && offset < NotAbove(ids, v)
    ensures Cut(ids, limit, offset) != [] && Cut(ids, limit, offset)[0] <= v
    ensures v in ids && NotAbove(ids, v) - offset <= limit ==> v in Cut(ids, limit, offset)
  {
    var n := NotAbove(ids, v);
    NotAboveSplits(ids, v);
    CutElements(ids, limit, offset);
    if v in ids && n - offset <= limit {
      LastNotAbove(ids, v);
      assert Cut(ids, limit, offset)[n - 1 - offset] == ids[offset + (n - 1 - offset)];
    }
  }

  // ----- the run -----

  /** What the check of one link meets and, should it fail, what its report does. */
  datatype Meeting = Meeting(conditions: Conditions, preview: string, subscribers: Option<seq<int>>, sends: bool)

  function VisitOf(outboxEnabled: bool, link: Link, m: Meeting): Visit {
    if Succeeds(outboxEnabled, Visit(link, m.conditions, Success)) then Visit(link, m.conditions, Success)
    else Visit(link, m.conditions, Failure(m.preview, m.subscribers, m.sends))
  }

  /** The outbox switch, the batch size, what other requests do to the tables before each page read, and
      what the check at each position of the run meets. */
  datatype Setting = Setting(
    outboxEnabled: bool, limit: nat, others: (nat, Tables) -> Tables, met: (nat, Link) -> Meeting)

  function Visits(g: Setting, links: seq<Link>, at: nat): seq<Visit> {
    seq(|links|, i requires 0 <= i < |links| => VisitOf(g.outboxEnabled, links[i], g.met(at + i, links[i])))
  }

  /** The tables, what the checks change, and the links checked so far. */
  datatype Sys = Sys(tables: Tables, shared: Shared, visited: seq<Link>)

  /** The other requests before page read k. */
  function Moved(g: Setting, y: Sys, k: nat): Sys {
    var t := g.others(k, y.tables);
    Sys(t, y.shared.(state := y.shared.state.(marks := Marks(t))), y.visited)
  }

  ghost function ThisPage(g: Setting, y: Sys): seq<Link> {
    PageOf(y.tables, Listing(Subscribed(y.tables)), g.limit, |y.visited|)
  }

  /** The page is read and checked, as one sequential pass checks it. */
  ghost function AfterPage(g: Setting, y: Sys): Sys {
    var s := Pass(g.outboxEnabled, y.shared, Visits(g, ThisPage(g, y), |y.visited|));
    Sys(WithMarks(y.tables, s.state.marks), s, y.visited + ThisPage(g, y))
  }

  /** The first n pages of a run. */
  ghost function Pages(g: Setting, y: Sys, n: nat): Sys {
    if n == 0 then y else AfterPage(g, Moved(g, Pages(g, y, n - 1), n - 1))
  }

  /** The run at page read n. */
  ghost function AtRead(g: Setting, y: Sys, n: nat): Sys {
    Moved(g, Pages(g, y, n), n)
  }

  /** What the run may meet from outside: at no time more than `most` links are subscribed. */
  ghost predicate Bounded(others: (nat, Tables) -> Tables, most: nat) {
    forall k, t | Valid(t) && |Subscribed(t)| <= most :: Valid(others(k, t)) && |Subscribed(others(k, t))| <= most
  }

  ghost predicate Undisturbed(others: (nat, Tables) -> Tables) {
    forall k, t :: others(k, t) == t
  }

  // ----- a batch from two states that look the same -----

  lemma VisitFits(outboxEnabled: bool, link: Link, m: Meeting)
    ensures Fits(outboxEnabled, VisitOf(outboxEnabled, link, m))
  {}

  lemma PageIsBatch(g: Setting, t: Tables, ids: seq<int>, offset: nat)
    requires Ascending(ids)
    ensures IsBatch(g.outboxEnabled, Visits(g, PageOf(t, ids, g.limit, offset), offset))
  {
    var links := PageOf(t, ids, g.limit, offset);
    var visits := Visits(g, links, offset);
    CutElements(ids, g.limit, offset);
    forall i | 0 <= i < |visits| ensures Fits(g.outboxEnabled, visits[i]) && visits[i].link == links[i] {
      VisitFits(g.outboxEnabled, links[i], g.met(offset + i, links[i]));
    }
  }

  lemma PassOneKeepsTally(outboxEnabled: bool, a: Shared, b: Shared, v: Visit)
    requires TallyOf(a) == TallyOf(b) && Fits(outboxEnabled, v)
    ensures TallyOf(PassOne(outboxEnabled, a, v)) == TallyOf(PassOne(outboxEnabled, b, v))
  {
    var j := JobOf(outboxEnabled, v);
    JobIsPassOne(outboxEnabled, a, v);
    JobIsPassOne(outboxEnabled, b, v);
    BatchCommutes(outboxEnabled, []);
    UpToSame(Apply, TallyOf, Jobs(outboxEnabled, []), a, b, j, |j.effects| + 1);
  }

  predicate AllFitting(outboxEnabled: bool, visits: seq<Visit>)
    decreases |visits|
  {
    visits == [] || (AllFitting(outboxEnabled, visits[..|visits| - 1]) && Fits(outboxEnabled, visits[|visits| - 1]))
  }

  lemma {:induction false} BatchFits(outboxEnabled: bool, visits: seq<Visit>)
    requires IsBatch(outboxEnabled, visits)
    ensures AllFitting(outboxEnabled, visits)
    decreases |visits|
  {
    if visits != [] {
      BatchFits(outboxEnabled, visits[..|visits| - 1]);
    }
  }

  lemma {:induction false} PassKeepsTally(outboxEnabled: bool, a: Shared, b: Shared, visits: seq<Visit>)
    requires TallyOf(a) == TallyOf(b) && AllFitting(outboxEnabled, visits)
    ensures TallyOf(Pass(outboxEnabled, a, visits)) == TallyOf(Pass(outboxEnabled, b, visits))
    decreases |visits|
  {
    if visits != [] {
      var before := visits[..|visits| - 1];
      PassKeepsTally(outboxEnabled, a, b, before);
      PassOneKeepsTally(outboxEnabled, Pass(outboxEnabled, a, before), Pass(outboxEnabled, b, before),
          visits[|visits| - 1]);
    }
  }
}
