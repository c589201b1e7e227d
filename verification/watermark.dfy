/** What a run of checks of one link, between two Adds of its URL, writes and sends. */
module Watermark {
  import opened Domain
  import opened Fetch
  import opened CheckLink

  /** Checks of one link one after another, each reading the watermark the one before left. */
  function CheckRun(outboxEnabled: bool, s: State, id: int, url: string, cs: seq<Conditions>): State {
    if cs == [] then s else
      var n := |cs| - 1;
      var before := CheckRun(outboxEnabled, s, id, url, cs[..n]);
      if id in before.marks then Check(outboxEnabled, before, Link(id, url, before.marks[id]), cs[n]).0 else before
  }

  function UpdatesOf(messages: seq<Notification>): seq<Update> {
    seq(|messages|, i requires 0 <= i < |messages| => messages[i].update)
  }

  function MessagesOf(rows: seq<Row>): seq<Notification> {
    seq(|rows|, i requires 0 <= i < |rows| => rows[i].message)
  }

  /** The updates a run wrote: those of the rows past the ones there were. */
  function Written(s: State, s': State): seq<Update>
    requires |s.outbox| <= |s'.outbox|
  {
    UpdatesOf(MessagesOf(s'.outbox[|s.outbox|..]))
  }

  function HandedOver(s: State, s': State): seq<Update>
    requires |s.handed| <= |s'.handed|
  {
    UpdatesOf(s'.handed[|s.handed|..])
  }

  predicate DistinctPosts(us: seq<Update>) {
    forall i, j | 0 <= i < j < |us| :: us[i].post != us[j].post
  }

  function Posts(us: seq<Update>): set<nat> {
    set u | u in us :: u.post
  }

  /** A page lists a post once, under the creation date the post has at its source. */
  predicate HonestPage(page: seq<Update>, dates: nat -> Time) {
    DistinctPosts(page) && forall u | u in page :: u.createdAt == dates(u.post)
  }

  predicate Honest(cs: seq<Conditions>, dates: nat -> Time) {
    forall i | 0 <= i < |cs| :: cs[i].page.Some? ==> HonestPage(cs[i].page.value, dates)
  }

  lemma {:induction false} NewUpdatesDistinct(page: seq<Update>, since: Time)
    requires DistinctPosts(page)
    ensures DistinctPosts(NewUpdates(page, since))
  {
    if page != [] {
      var n := |page| - 1;
      NewUpdatesDistinct(page[..n], since);
      var before := NewUpdates(page[..n], since);
      forall i | 0 <= i < |before| ensures before[i].post != page[n].post {
        NewUpdatesMember(page[..n], since, before[i]);
        var k :| 0 <= k < n && page[k] == before[i];
      }
    }
  }

  // ----- one check -----

  /** The first check after an Add only sets the watermark, to a time after the zero time. */
  lemma BaselineStep(outboxEnabled: bool, s: State, link: Link, c: Conditions)
    requires link.id in s.marks && link.lastUpdatedAt == ZERO_TIME == s.marks[link.id] && c.now > ZERO_TIME
    ensures var s' := Check(outboxEnabled, s, link, c).0;
            && s'.outbox == s.outbox && s'.handed == s.handed
            && (s' == s || (s'.marks == s.marks[link.id := s'.marks[link.id]] && s'.marks[link.id] > ZERO_TIME))
  {
    if c.page.Some? {
      LatestIsMaximum(NewUpdates(c.page.value, ZERO_TIME), ZERO_TIME);
    }
  }

  /** What a check past the baseline does in outbox mode: nothing, or the watermark moves to the latest
      date of the page and, when there are subscribers, the new updates become rows with it. A check
      never stores rows without moving the watermark, so SaveOutboxMessages is not reached. */
  lemma OutboxStep(s: State, link: Link, c: Conditions)
    requires link.id in s.marks && s.marks[link.id] == link.lastUpdatedAt > ZERO_TIME
    ensures var s' := Check(true, s, link, c).0;
            && s'.handed == s.handed
            && (s' != s ==>
                && c.parses && c.page.Some? && c.write.TookEffect() && c.subscribers.Some?
                && Latest(c.page.value, link.lastUpdatedAt) > link.lastUpdatedAt
                && s'.marks == s.marks[link.id := Latest(c.page.value, link.lastUpdatedAt)]
                && s'.outbox == s.outbox + if c.subscribers.value == [] then [] else
                     Rows(Notifications(NewUpdates(c.page.value, link.lastUpdatedAt), c.subscribers.value), c.stamps))
  {
    if c.page.Some? {
      NonEmptyIffLater(c.page.value, link.lastUpdatedAt);
      assert s.outbox + [] == s.outbox;
    }
  }

  /** A check that meets no failure writes its new updates. */
  lemma GoodOutboxStep(s: State, link: Link, c: Conditions)
    requires link.id in s.marks && s.marks[link.id] == link.lastUpdatedAt > ZERO_TIME
    requires c.parses && c.page.Some? && c.write.Worked? && c.subscribers.Some? && c.subscribers.value != []
    requires forall u | u in c.page.value :: c.encodes(u)
    ensures var (s', ok) := Check(true, s, link, c);
            && ok && s'.marks == s.marks[link.id := Latest(c.page.value, link.lastUpdatedAt)]
            && s'.outbox == s.outbox
                 + Rows(Notifications(NewUpdates(c.page.value, link.lastUpdatedAt), c.subscribers.value), c.stamps)
  {
    var page, since := c.page.value, link.lastUpdatedAt;
    NonEmptyIffLater(page, since);
    LatestIsMaximum(page, since);
    forall u | u in NewUpdates(page, since) ensures c.encodes(u) {
      NewUpdatesMember(page, since, u);
    }
  }

  /** What a check past the baseline does in direct mode: nothing, or the watermark moves and then a
      prefix of the new updates is handed to SendUpdate, none when the move was not acknowledged. */
  lemma DirectStep(s: State, link: Link, c: Conditions)
    requires link.id in s.marks && s.marks[link.id] == link.lastUpdatedAt > ZERO_TIME
    ensures var s' := Check(false, s, link, c).0;
            && s'.outbox == s.outbox
            && (s' != s ==>
                && c.parses && c.page.Some? && c.write.TookEffect()
                && Latest(c.page.value, link.lastUpdatedAt) > link.lastUpdatedAt
                && s'.marks == s.marks[link.id := Latest(c.page.value, link.lastUpdatedAt)]
                && (s'.handed == s.handed ||
                    (c.write.Worked? && c.subscribers.Some? && c.subscribers.value != []
                     && exists k: nat :: k <= |NewUpdates(c.page.value, link.lastUpdatedAt)|
                          && s'.handed == s.handed
                              + Notifications(NewUpdates(c.page.value, link.lastUpdatedAt), c.subscribers.value)[..k])))
  {
    if c.page.Some? {
      NonEmptyIffLater(c.page.value, link.lastUpdatedAt);
    }
  }

  /** The updates of one page past the watermark: distinct posts, dated after it and up to the latest. */
  lemma NewUpdatesWindow(page: seq<Update>, since: Time, dates: nat -> Time)
    requires HonestPage(page, dates) && since != ZERO_TIME
    ensures var us := NewUpdates(page, since);
            && DistinctPosts(us)
            && forall u | u in us :: u.createdAt == dates(u.post) && since < u.createdAt <= Latest(page, since)
  {
    NewUpdatesDistinct(page, since);
    LatestIsMaximum(page, since);
    forall u | u in NewUpdates(page, since)
      ensures u.createdAt == dates(u.post) && since < u.createdAt <= Latest(page, since)
    {
      NewUpdatesMember(page, since, u);
    }
  }

  // ----- runs -----

  /** Distinct posts, each dated after `from` and no later than `to`. */
  predicate InWindow(us: seq<Update>, dates: nat -> Time, from: Time, to: Time) {
    DistinctPosts(us) && forall u | u in us :: u.createdAt == dates(u.post) && from < u.createdAt <= to
  }

  lemma WindowsJoin(a: seq<Update>, b: seq<Update>, dates: nat -> Time, from: Time, mid: Time, to: Time)
    requires from <= mid <= to && InWindow(a, dates, from, mid) && InWindow(b, dates, mid, to)
    ensures InWindow(a + b, dates, from, to)
  {
    forall i, j | 0 <= i < j < |a + b| ensures (a + b)[i].post != (a + b)[j].post {
      if i < |a| <= j {
        assert a[i] in a && b[j - |a|] in b;
        assert a[i].createdAt <= mid < b[j - |a|].createdAt;
      }
    }
  }

  lemma WrittenSplits(s: State, s1: State, s2: State)
    requires s.outbox <= s1.outbox <= s2.outbox
    ensures Written(s, s2) == Written(s, s1) + Written(s1, s2)
  {}

  lemma HandedSplits(s: State, s1: State, s2: State)
    requires s.handed <= s1.handed <= s2.handed
    ensures HandedOver(s, s2) == HandedOver(s, s1) + HandedOver(s1, s2)
  {}

  /** The updates one effective check wrote. */
  lemma OutboxStepWritten(s: State, link: Link, c: Conditions)
    requires link.id in s.marks && s.marks[link.id] == link.lastUpdatedAt > ZERO_TIME
    requires Check(true, s, link, c).0 != s
    ensures var s' := Check(true, s, link, c).0;
            && c.page.Some? && c.subscribers.Some? && s.outbox <= s'.outbox
            && Written(s, s') == if c.subscribers.value == [] then [] else NewUpdates(c.page.value, link.lastUpdatedAt)
  {
    OutboxStep(s, link, c);
    if c.subscribers.value != [] {
      WrittenRows(s, Check(true, s, link, c).0, NewUpdates(c.page.value, link.lastUpdatedAt), c.subscribers.value,
          c.stamps);
    }
  }

  lemma WrittenRows(s: State, s': State, us: seq<Update>, chats: seq<int>, stamps: nat -> Time)
    requires s'.outbox == s.outbox + Rows(Notifications(us, chats), stamps)
    ensures s.outbox <= s'.outbox && Written(s, s') == us
  {
    assert s'.outbox[|s.outbox|..] == Rows(Notifications(us, chats), stamps);
  }

  /** What holds between the first state of a run in outbox mode and any later one. */
  ghost predicate OutboxSoFar(s: State, s': State, id: int, dates: nat -> Time) {
    && s.outbox <= s'.outbox && s'.handed == s.handed
    && id in s.marks && id in s'.marks && s'.marks == s.marks[id := s'.marks[id]] && 0 < s.marks[id] <= s'.marks[id]
    && InWindow(Written(s, s'), dates, s.marks[id], s'.marks[id])
  }

  lemma OutboxSoFarJoins(s: State, s1: State, s2: State, id: int, dates: nat -> Time)
    requires OutboxSoFar(s, s1, id, dates) && OutboxSoFar(s1, s2, id, dates)
    ensures OutboxSoFar(s, s2, id, dates)
  {
    WrittenSplits(s, s1, s2);
    WindowsJoin(Written(s, s1), Written(s1, s2), dates, s.marks[id], s1.marks[id], s2.marks[id]);
  }

  lemma OutboxSoFarSame(s: State, id: int, dates: nat -> Time)
    requires id in s.marks && s.marks[id] > 0
    ensures OutboxSoFar(s, s, id, dates)
  {
    assert s.marks == s.marks[id := s.marks[id]];
  }

  lemma OutboxNext(s: State, link: Link, c: Conditions, dates: nat -> Time)
    requires link.id in s.marks && s.marks[link.id] == link.lastUpdatedAt > ZERO_TIME
    requires c.page.Some? ==> HonestPage(c.page.value, dates)
    requires Check(true, s, link, c).0 != s
    ensures OutboxSoFar(s, Check(true, s, link, c).0, link.id, dates)
  {
    OutboxStep(s, link, c);
    OutboxStepWritten(s, link, c);
    NewUpdatesWindow(c.page.value, link.lastUpdatedAt, dates);
  }

  /** No post enters the outbox twice over any run of checks, whatever the pages hold and whatever
      fails; the watermark never goes back, and everything written is dated between the two marks. */
  lemma {:induction false} OutboxRun(s: State, id: int, url: string, cs: seq<Conditions>, dates: nat -> Time)
    requires id in s.marks && s.marks[id] > ZERO_TIME && Honest(cs, dates)
    ensures OutboxSoFar(s, CheckRun(true, s, id, url, cs), id, dates)
  {
    if cs == [] {
      OutboxSoFarSame(s, id, dates);
    } else {
      var n := |cs| - 1;
      OutboxRun(s, id, url, cs[..n], dates);
      var s1, s2 := CheckRun(true, s, id, url, cs[..n]), CheckRun(true, s, id, url, cs);
      if s1 != s2 {
        OutboxNext(s1, Link(id, url, s1.marks[id]), cs[n], dates);
        OutboxSoFarJoins(s, s1, s2, id, dates);
      }
    }
  }

  /** A check writes a post exactly when it gets as far as storing rows, its page shows the post, and the
      watermark it starts from is earlier than the post. */
  predicate Catches(c: Conditions, since: Time, post: nat, dates: nat -> Time) {
    && c.parses && c.page.Some? && post in Posts(c.page.value) && since < dates(post)
    && c.subscribers.Some? && c.subscribers.value != [] && c.write.TookEffect()
    && forall u | u in NewUpdates(c.page.value, since) :: c.encodes(u)
  }

  lemma CaughtInPage(page: seq<Update>, since: Time, post: nat, dates: nat -> Time)
    requires HonestPage(page, dates) && since != ZERO_TIME
    ensures post in Posts(NewUpdates(page, since)) <==> post in Posts(page) && since < dates(post)
  {
    if post in Posts(NewUpdates(page, since)) {
      var u :| u in NewUpdates(page, since) && u.post == post;
      NewUpdatesMember(page, since, u);
    }
    if post in Posts(page) && since < dates(post) {
      var u :| u in page && u.post == post;
      NewUpdatesMember(page, since, u);
    }
  }

  lemma CatchStep(s: State, link: Link, c: Conditions, post: nat, dates: nat -> Time)
    requires link.id in s.marks && s.marks[link.id] == link.lastUpdatedAt > ZERO_TIME
    requires c.page.Some? ==> HonestPage(c.page.value, dates)
    ensures var s' := Check(true, s, link, c).0;
            OutboxSoFar(s, s', link.id, dates)
            && (post in Posts(Written(s, s')) <==> Catches(c, link.lastUpdatedAt, post, dates))
  {
    var s' := Check(true, s, link, c).0;
    if s' == s {
      OutboxSoFarSame(s, link.id, dates);
      assert Written(s, s) == [];
      if Catches(c, link.lastUpdatedAt, post, dates) {
        CaughtMoves(s, link, c, post, dates);
        assert false;
      }
    } else {
      OutboxNext(s, link, c, dates);
      OutboxStep(s, link, c);
      OutboxStepWritten(s, link, c);
      CaughtInPage(c.page.value, link.lastUpdatedAt, post, dates);
      if c.subscribers.value != [] {
        StoredAllEncode(s, link, c);
      }
    }
  }

  /** A check past the baseline that gets as far as storing rows moves the watermark. */
  lemma StoringMoves(s: State, link: Link, c: Conditions)
    requires link.id in s.marks && s.marks[link.id] == link.lastUpdatedAt > ZERO_TIME
    requires c.parses && c.page.Some? && c.subscribers.Some? && c.subscribers.value != [] && c.write.TookEffect()
    requires var us := NewUpdates(c.page.value, link.lastUpdatedAt);
             us != [] && Latest(us, link.lastUpdatedAt) > link.lastUpdatedAt && forall u | u in us :: c.encodes(u)
    ensures Check(true, s, link, c).0.marks[link.id]
            == Latest(NewUpdates(c.page.value, link.lastUpdatedAt), link.lastUpdatedAt)
  {}

  lemma CaughtMoves(s: State, link: Link, c: Conditions, post: nat, dates: nat -> Time)
    requires link.id in s.marks && s.marks[link.id] == link.lastUpdatedAt > ZERO_TIME
    requires c.page.Some? && HonestPage(c.page.value, dates) && Catches(c, link.lastUpdatedAt, post, dates)
    ensures Check(true, s, link, c).0 != s
  {
    CaughtInPage(c.page.value, link.lastUpdatedAt, post, dates);
    NonEmptyIffLater(c.page.value, link.lastUpdatedAt);
    assert NewUpdates(c.page.value, link.lastUpdatedAt) != [];
    StoringMoves(s, link, c);
  }

  lemma StoredAllEncode(s: State, link: Link, c: Conditions)
    requires link.id in s.marks && s.marks[link.id] == link.lastUpdatedAt > ZERO_TIME
    requires Check(true, s, link, c).0 != s && c.page.Some? && c.subscribers.Some? && c.subscribers.value != []
    ensures forall u | u in NewUpdates(c.page.value, link.lastUpdatedAt) :: c.encodes(u)
  {}

  ghost function MarkBefore(s: State, id: int, url: string, cs: seq<Conditions>, k: nat): Time
    requires k <= |cs|
  {
    var marks := CheckRun(true, s, id, url, cs[..k]).marks;
    if id in marks then marks[id] else ZERO_TIME
  }

  /** Which posts a run of checks notifies and which it misses: a post is written exactly when some check
      of the run catches it. */
  lemma {:induction false} WrittenExactly(
      s: State, id: int, url: string, cs: seq<Conditions>, dates: nat -> Time, post: nat, n: nat)
    requires id in s.marks && s.marks[id] > ZERO_TIME && Honest(cs, dates) && n <= |cs|
    ensures OutboxSoFar(s, CheckRun(true, s, id, url, cs[..n]), id, dates)
    ensures post in Posts(Written(s, CheckRun(true, s, id, url, cs[..n]))) <==>
            exists k: nat | k < n :: Catches(cs[k], MarkBefore(s, id, url, cs, k), post, dates)
  {
    if n == 0 {
      OutboxSoFarSame(s, id, dates);
      assert Written(s, s) == [];
    } else {
      WrittenExactly(s, id, url, cs, dates, post, n - 1);
      assert cs[..n][..n - 1] == cs[..n - 1];
      var s1, s2 := CheckRun(true, s, id, url, cs[..n - 1]), CheckRun(true, s, id, url, cs[..n]);
      CatchStep(s1, Link(id, url, s1.marks[id]), cs[n - 1], post, dates);
      WrittenJoins(s, s1, s2, id, dates, post);
    }
  }

  lemma WrittenJoins(s: State, s1: State, s2: State, id: int, dates: nat -> Time, post: nat)
    requires OutboxSoFar(s, s1, id, dates) && OutboxSoFar(s1, s2, id, dates)
    ensures OutboxSoFar(s, s2, id, dates)
    ensures post in Posts(Written(s, s2)) <==> post in Posts(Written(s, s1)) || post in Posts(Written(s1, s2))
  {
    OutboxSoFarJoins(s, s1, s2, id, dates);
    WrittenSplits(s, s1, s2);
    PostsOfJoin(Written(s, s1), Written(s1, s2));
  }

  /** A truncated page is enough: the first page shows the later of two posts only, and the earlier one is
      not written although the second page shows both. */
  lemma TruncatedPageMisses()
    ensures var first := Update(1, 7, "u", GitHubIssue, "t", "n", 20, "p");
            var second := first.(post := 2, createdAt := 30);
            var c := Conditions(true, Some([second]), Some([5]), _ => true, Worked, 40, _ => 40, _ => true);
            var s := State(map[7 := 10], [], []);
            var s' := CheckRun(true, s, 7, "u", [c, c.(page := Some([second, first]))]);
            s.outbox <= s'.outbox && 2 in Posts(Written(s, s')) && 1 !in Posts(Written(s, s'))
  {
    var first := Update(1, 7, "u", GitHubIssue, "t", "n", 20, "p");
    var second := first.(post := 2, createdAt := 30);
    var c := Conditions(true, Some([second]), Some([5]), _ => true, Worked, 40, _ => 40, _ => true);
    var s := State(map[7 := 10], [], []);
    var cs := [c, c.(page := Some([second, first]))];
    var dates := (p: nat) => if p == 1 then 20 else 30;
    WrittenExactly(s, 7, "u", cs, dates, 1, 2);
    WrittenExactly(s, 7, "u", cs, dates, 2, 2);
    assert cs[..2] == cs;
    FirstMarks(s, cs, second);
    assert second in [second];
    assert Catches(cs[0], MarkBefore(s, 7, "u", cs, 0), 2, dates);
  }

  lemma FirstMarks(s: State, cs: seq<Conditions>, u: Update)
    requires |cs| == 2 && s.marks == map[7 := 10] && u.createdAt == 30 && cs[0].parses && cs[0].page == Some([u])
    requires cs[0].subscribers == Some([5]) && cs[0].write.Worked? && cs[0].encodes(u)
    ensures MarkBefore(s, 7, "u", cs, 0) == 10 && MarkBefore(s, 7, "u", cs, 1) == 30
  {
    assert cs[..0] == [] && cs[..1] == [cs[0]] && cs[..1][..0] == [];
    assert [u][..0] == [];
    assert NewUpdates([u], 10) == [u] && Latest([u], 10) == 30;
  }

  /** A post dated at or before the watermark that is not in the outbox by then never enters it: this is
      what becomes of a post that appears late, or that a full page left out. */
  lemma MissedStaysMissed(s: State, id: int, url: string, cs: seq<Conditions>, dates: nat -> Time, post: nat)
    requires id in s.marks && s.marks[id] > ZERO_TIME && Honest(cs, dates) && dates(post) <= s.marks[id]
    ensures s.outbox <= CheckRun(true, s, id, url, cs).outbox
    ensures post !in Posts(Written(s, CheckRun(true, s, id, url, cs)))
  {
    OutboxRun(s, id, url, cs, dates);
  }

  /** An Add puts the watermark back to zero. The check that follows sets a new baseline, and no later check
      writes a post dated at or before it, not even one that no earlier check had noticed. */
  lemma BaselineSwallows(s: State, id: int, url: string, c: Conditions, later: seq<Conditions>, dates: nat -> Time,
      post: nat)
    requires id in s.marks && s.marks[id] == ZERO_TIME && c.now > ZERO_TIME && Honest(later, dates)
    ensures var s1 := Check(true, s, Link(id, url, ZERO_TIME), c).0;
            var s2 := CheckRun(true, s1, id, url, later);
            s1.marks[id] != ZERO_TIME && dates(post) <= s1.marks[id] ==>
              s.outbox <= s2.outbox && post !in Posts(Written(s, s2))
  {
    BaselineStep(true, s, Link(id, url, ZERO_TIME), c);
    var s1 := Check(true, s, Link(id, url, ZERO_TIME), c).0;
    if s1.marks[id] != ZERO_TIME && dates(post) <= s1.marks[id] {
      MissedStaysMissed(s1, id, url, later, dates, post);
    }
  }

  /** The posts at the source before and at each check: posts are only added, each page shows every post
      dated after the watermark, posts that appear later are dated after it, and there are subscribers. */
  ghost predicate Watched(s: State, id: int, url: string, cs: seq<Conditions>, first: set<nat>, posts: seq<set<nat>>,
      dates: nat -> Time)
    decreases |cs|
  {
    && |posts| == |cs|
    && (cs != [] ==>
        var n := |cs| - 1;
        var before := CheckRun(true, s, id, url, cs[..n]);
        var had := if n == 0 then first else posts[n - 1];
        && id in before.marks
        && Watched(s, id, url, cs[..n], first, posts[..n], dates)
        && had <= posts[n] && (forall p | p in posts[n] - had :: dates(p) > before.marks[id])
        && cs[n].subscribers != Some([])
        && (cs[n].page.Some? ==> ShowsNew(cs[n].page.value, posts[n], before.marks[id], dates)))
  }

  ghost predicate ShowsNew(page: seq<Update>, posts: set<nat>, since: Time, dates: nat -> Time) {
    Posts(page) <= posts && forall p | p in posts && dates(p) > since :: p in Posts(page)
  }

  ghost function Between(posts: set<nat>, dates: nat -> Time, from: Time, to: Time): set<nat> {
    set p | p in posts && from < dates(p) <= to
  }

  lemma BetweenJoins(had: set<nat>, posts: set<nat>, dates: nat -> Time, from: Time, mid: Time, to: Time)
    requires from <= mid <= to && had <= posts && forall p | p in posts - had :: dates(p) > mid
    ensures Between(posts, dates, from, to) == Between(had, dates, from, mid) + Between(posts, dates, mid, to)
  {}

  /** One effective check writes exactly the posts between the two marks. */
  lemma ExactNext(s: State, link: Link, c: Conditions, posts: set<nat>, dates: nat -> Time)
    requires link.id in s.marks && s.marks[link.id] == link.lastUpdatedAt > ZERO_TIME
    requires c.subscribers != Some([])
    requires c.page.Some? ==>
               HonestPage(c.page.value, dates) && ShowsNew(c.page.value, posts, link.lastUpdatedAt, dates)
    ensures var s' := Check(true, s, link, c).0;
            && OutboxSoFar(s, s', link.id, dates)
            && Posts(Written(s, s')) == Between(posts, dates, s.marks[link.id], s'.marks[link.id])
  {
    if Check(true, s, link, c).0 == s {
      OutboxSoFarSame(s, link.id, dates);
      assert Written(s, s) == [] && Between(posts, dates, link.lastUpdatedAt, link.lastUpdatedAt) == {};
    } else {
      OutboxNext(s, link, c, dates);
      OutboxStep(s, link, c);
      OutboxStepWritten(s, link, c);
      NewPosts(c.page.value, posts, link.lastUpdatedAt, dates);
    }
  }

  lemma ExactJoins(s: State, s1: State, s2: State, id: int, had: set<nat>, posts: set<nat>, dates: nat -> Time)
    requires OutboxSoFar(s, s1, id, dates) && OutboxSoFar(s1, s2, id, dates)
    requires had <= posts && forall p | p in posts - had :: dates(p) > s1.marks[id]
    requires Posts(Written(s, s1)) == Between(had, dates, s.marks[id], s1.marks[id])
    requires Posts(Written(s1, s2)) == Between(posts, dates, s1.marks[id], s2.marks[id])
    ensures Posts(Written(s, s2)) == Between(posts, dates, s.marks[id], s2.marks[id])
  {
    BetweenJoins(had, posts, dates, s.marks[id], s1.marks[id], s2.marks[id]);
    WrittenSplits(s, s1, s2);
    PostsOfJoin(Written(s, s1), Written(s1, s2));
  }

  /** The link's rows are then exactly the posts dated after the first watermark and up to the current
      one, whichever checks failed on the way. */
  lemma {:induction false} OutboxExact(s: State, id: int, url: string, cs: seq<Conditions>, first: set<nat>,
      posts: seq<set<nat>>, dates: nat -> Time)
    requires id in s.marks && s.marks[id] > ZERO_TIME && Honest(cs, dates)
             && Watched(s, id, url, cs, first, posts, dates)
    ensures var s' := CheckRun(true, s, id, url, cs);
            && id in s'.marks && s.outbox <= s'.outbox
            && Posts(Written(s, s'))
                == Between(if cs == [] then first else posts[|cs| - 1], dates, s.marks[id], s'.marks[id])
    decreases |cs|
  {
    OutboxRun(s, id, url, cs, dates);
    if cs == [] {
      assert Written(s, s) == [];
    } else {
      var n := |cs| - 1;
      OutboxRun(s, id, url, cs[..n], dates);
      OutboxExact(s, id, url, cs[..n], first, posts[..n], dates);
      var s1, s2 := CheckRun(true, s, id, url, cs[..n]), CheckRun(true, s, id, url, cs);
      ExactNext(s1, Link(id, url, s1.marks[id]), cs[n], posts[n], dates);
      ExactJoins(s, s1, s2, id, if n == 0 then first else posts[n - 1], posts[n], dates);
    }
  }

  lemma PostsOfJoin(a: seq<Update>, b: seq<Update>)
    ensures Posts(a + b) == Posts(a) + Posts(b)
  {
    forall p ensures p in Posts(a + b) <==> p in Posts(a) || p in Posts(b) {
      if p in Posts(a) { var u :| u in a && u.post == p; assert u in a + b; }
      if p in Posts(b) { var u :| u in b && u.post == p; assert u in a + b; }
    }
  }

  /** Past the watermark, a page that shows all new posts gives exactly those dated after it, and the
      new watermark leaves none behind. */
  lemma NewPosts(page: seq<Update>, posts: set<nat>, since: Time, dates: nat -> Time)
    requires HonestPage(page, dates) && since != ZERO_TIME && ShowsNew(page, posts, since, dates)
    ensures Posts(NewUpdates(page, since)) == Between(posts, dates, since, Latest(page, since))
  {
    LatestIsMaximum(page, since);
    forall p ensures p in Posts(NewUpdates(page, since)) <==> p in Between(posts, dates, since, Latest(page, since)) {
      if p in Posts(NewUpdates(page, since)) {
        var u :| u in NewUpdates(page, since) && u.post == p;
        NewUpdatesMember(page, since, u);
        assert u.post in Posts(page);
      }
      if p in Between(posts, dates, since, Latest(page, since)) {
        assert p in Posts(page);
        var u :| u in page && u.post == p;
        NewUpdatesMember(page, since, u);
      }
    }
  }

  // ----- direct mode -----

  lemma DirectStepHanded(s: State, link: Link, c: Conditions)
    requires link.id in s.marks && s.marks[link.id] == link.lastUpdatedAt > ZERO_TIME
    requires Check(false, s, link, c).0 != s
    ensures var s' := Check(false, s, link, c).0;
            && c.page.Some? && s.handed <= s'.handed
            && HandedOver(s, s') <= NewUpdates(c.page.value, link.lastUpdatedAt)
  {
    DirectStep(s, link, c);
    var s' := Check(false, s, link, c).0;
    var us := NewUpdates(c.page.value, link.lastUpdatedAt);
    if s'.handed != s.handed {
      var k: nat :| k <= |us| && s'.handed == s.handed + Notifications(us, c.subscribers.value)[..k];
      assert s'.handed[|s.handed|..] == Notifications(us, c.subscribers.value)[..k];
      assert HandedOver(s, s') == us[..k];
    }
  }

  /** What holds between the first state of a run in direct mode and any later one. */
  ghost predicate DirectSoFar(s: State, s': State, id: int, dates: nat -> Time) {
    && s.handed <= s'.handed && s'.outbox == s.outbox
    && id in s.marks && id in s'.marks && s'.marks == s.marks[id := s'.marks[id]] && 0 < s.marks[id] <= s'.marks[id]
    && InWindow(HandedOver(s, s'), dates, s.marks[id], s'.marks[id])
  }

  lemma PrefixInWindow(a: seq<Update>, b: seq<Update>, dates: nat -> Time, from: Time, to: Time)
    requires a <= b && InWindow(b, dates, from, to)
    ensures InWindow(a, dates, from, to)
  {
    assert forall u | u in a :: u in b;
  }

  lemma DirectSoFarJoins(s: State, s1: State, s2: State, id: int, dates: nat -> Time)
    requires DirectSoFar(s, s1, id, dates) && DirectSoFar(s1, s2, id, dates)
    ensures DirectSoFar(s, s2, id, dates)
  {
    HandedSplits(s, s1, s2);
    WindowsJoin(HandedOver(s, s1), HandedOver(s1, s2), dates, s.marks[id], s1.marks[id], s2.marks[id]);
  }

  lemma DirectSoFarSame(s: State, id: int, dates: nat -> Time)
    requires id in s.marks && s.marks[id] > 0
    ensures DirectSoFar(s, s, id, dates)
  {
    assert s.marks == s.marks[id := s.marks[id]];
  }

  lemma DirectNext(s: State, link: Link, c: Conditions, dates: nat -> Time)
    requires link.id in s.marks && s.marks[link.id] == link.lastUpdatedAt > ZERO_TIME
    requires c.page.Some? ==> HonestPage(c.page.value, dates)
    requires Check(false, s, link, c).0 != s
    ensures DirectSoFar(s, Check(false, s, link, c).0, link.id, dates)
  {
    var s' := Check(false, s, link, c).0;
    DirectStep(s, link, c);
    DirectStepHanded(s, link, c);
    NewUpdatesWindow(c.page.value, link.lastUpdatedAt, dates);
    PrefixInWindow(HandedOver(s, s'), NewUpdates(c.page.value, link.lastUpdatedAt), dates, link.lastUpdatedAt,
        s'.marks[link.id]);
  }

  /** Without the outbox no post is handed to SendUpdate twice over any run of checks. */
  lemma {:induction false} DirectRun(s: State, id: int, url: string, cs: seq<Conditions>, dates: nat -> Time)
    requires id in s.marks && s.marks[id] > ZERO_TIME && Honest(cs, dates)
    ensures DirectSoFar(s, CheckRun(false, s, id, url, cs), id, dates)
  {
    if cs == [] {
      DirectSoFarSame(s, id, dates);
    } else {
      var n := |cs| - 1;
      DirectRun(s, id, url, cs[..n], dates);
      var s1, s2 := CheckRun(false, s, id, url, cs[..n]), CheckRun(false, s, id, url, cs);
      if s1 != s2 {
        DirectNext(s1, Link(id, url, s1.marks[id]), cs[n], dates);
        DirectSoFarJoins(s, s1, s2, id, dates);
      }
    }
  }

  /** The sends go up to and with the first that fails. */
  lemma HandedUpTo(n: nat, sends: nat -> bool, i: nat)
    requires i < n
    ensures i < Handed(n, sends) <==> forall j: nat | j < i :: sends(j)
  {
    StreakStops(n, sends);
  }

  lemma DirectHands(s: State, link: Link, c: Conditions)
    requires link.id in s.marks && s.marks[link.id] == link.lastUpdatedAt > ZERO_TIME
    requires c.parses && c.page.Some? && c.write.TookEffect() && NewUpdates(c.page.value, link.lastUpdatedAt) != []
    ensures var s' := Check(false, s, link, c).0;
            var us := NewUpdates(c.page.value, link.lastUpdatedAt);
            && s.handed <= s'.handed && s'.marks == s.marks[link.id := Latest(us, link.lastUpdatedAt)]
            && HandedOver(s, s') == us[..if c.write.Worked? && c.subscribers.Some? && c.subscribers.value != []
                                          then Handed(|us|, c.sends) else 0]
  {
    NonEmptyIffLater(c.page.value, link.lastUpdatedAt);
    var s' := Check(false, s, link, c).0;
    var us := NewUpdates(c.page.value, link.lastUpdatedAt);
    if c.write.Worked? && c.subscribers.Some? && c.subscribers.value != [] {
      var k := Handed(|us|, c.sends);
      var sent := Notifications(us, c.subscribers.value)[..k];
      assert s'.handed[|s.handed|..] == sent;
      assert UpdatesOf(sent) == us[..k];
    }
  }

  lemma PostIsThere(us: seq<Update>, k: nat, i: nat)
    requires DistinctPosts(us) && i < |us| && k <= |us|
    ensures us[i].post in Posts(us[..k]) <==> i < k
  {
    if i < k {
      assert us[..k][i] in us[..k];
    }
  }

  /** The price of it, exactly: once a check has moved the watermark, update i of its page is handed to
      SendUpdate, by it or by any later check, if and only if the move was acknowledged, there were
      subscribers, and every send before it worked. Otherwise it is lost. */
  lemma DirectLosesExactly(s: State, id: int, url: string, c: Conditions, later: seq<Conditions>, dates: nat -> Time,
      i: nat)
    requires id in s.marks && s.marks[id] > ZERO_TIME && Honest([c], dates) && Honest(later, dates)
    requires c.parses && c.page.Some? && c.write.TookEffect() && i < |NewUpdates(c.page.value, s.marks[id])|
    ensures var us := NewUpdates(c.page.value, s.marks[id]);
            var s1 := Check(false, s, Link(id, url, s.marks[id]), c).0;
            var s2 := CheckRun(false, s1, id, url, later);
            && s.handed <= s2.handed
            && (us[i].post in Posts(HandedOver(s, s2)) <==>
                c.write.Worked? && c.subscribers.Some? && c.subscribers.value != []
                    && forall j: nat | j < i :: c.sends(j))
  {
    var link := Link(id, url, s.marks[id]);
    var page, us := c.page.value, NewUpdates(c.page.value, s.marks[id]);
    var s1 := Check(false, s, link, c).0;
    var s2 := CheckRun(false, s1, id, url, later);
    assert HonestPage([c][0].page.value, dates);
    DirectHands(s, link, c);
    NonEmptyIffLater(page, s.marks[id]);
    DirectRun(s1, id, url, later, dates);
    HandedSplits(s, s1, s2);
    PostsOfJoin(HandedOver(s, s1), HandedOver(s1, s2));
    NewUpdatesWindow(page, s.marks[id], dates);
    assert us[i] in us;
    PostIsThere(us, |HandedOver(s, s1)|, i);
    HandedUpTo(|us|, c.sends, i);
  }
}
