/** What one check reports and changes, said of what it meets alone. */
module Verdicts {
  import opened Domain
  import opened Fetch
  import opened CheckLink

  // ----- the posts past the watermark -----

  /** The positions of the page whose posts are dated after the watermark. */
  function Later(page: seq<Update>, since: Time): set<nat> {
    set i: nat | i < |page| && page[i].createdAt > since
  }

  lemma {:induction false} LaterCount(page: seq<Update>, since: Time)
    requires since != ZERO_TIME
    ensures |NewUpdates(page, since)| == |Later(page, since)|
  {
    if page == [] {
      assert Later(page, since) == {};
    } else {
      var n := |page| - 1;
      LaterCount(page[..n], since);
      assert Later(page, since) == Later(page[..n], since) + if page[n].createdAt > since then {n} else {};
    }
  }

  lemma LaterMember(page: seq<Update>, since: Time)
    requires since != ZERO_TIME
    ensures Later(page, since) == {} <==> NewUpdates(page, since) == []
    ensures forall u :: u in NewUpdates(page, since) <==> u in page && u.createdAt > since
  {
    LaterCount(page, since);
    forall u ensures u in NewUpdates(page, since) <==> u in page && u.createdAt > since {
      NewUpdatesMember(page, since, u);
    }
    if Later(page, since) == {} { assert |Later(page, since)| == 0; }
  }

  /** The latest date of the page past the watermark. */
  predicate IsLatest(page: seq<Update>, since: Time, t: Time) {
    t > since && (forall u | u in page :: u.createdAt <= t) && exists u :: u in page && u.createdAt == t
  }

  lemma LatestExactly(page: seq<Update>, since: Time)
    ensures var t := Latest(NewUpdates(page, since), since);
            IsLatest(page, since, t) || (t == since && forall u | u in page :: u.createdAt <= since)
  {
    var news := NewUpdates(page, since);
    LatestIsMaximum(news, since);
    forall u | u in page ensures u.createdAt <= Latest(news, since) {
      NewUpdatesMember(page, since, u);
    }
    if Latest(news, since) != since {
      var u :| u in news && u.createdAt == Latest(news, since);
      NewUpdatesMember(page, since, u);
    }
  }

  // ----- when a check reports an error -----

  /** The link has been checked before and its page has a post dated after the watermark. */
  ghost predicate HasLater(link: Link, c: Conditions) {
    link.lastUpdatedAt != ZERO_TIME && c.page.Some? && Later(c.page.value, link.lastUpdatedAt) != {}
  }

  /** Every failure that processLink reports. */
  ghost predicate Errs(outboxEnabled: bool, link: Link, c: Conditions) {
    || !c.parses
    || c.page.None?
    || (link.lastUpdatedAt == ZERO_TIME && !c.write.Worked?)
    || (HasLater(link, c) &&
        (!c.write.Worked? || c.subscribers.None? ||
         (c.subscribers.value != [] && if outboxEnabled then LaterUnencodable(link, c) else LaterUnsent(link, c))))
  }

  ghost predicate LaterUnencodable(link: Link, c: Conditions)
    requires c.page.Some?
  {
    exists u :: u in c.page.value && u.createdAt > link.lastUpdatedAt && !c.encodes(u)
  }

  ghost predicate LaterUnsent(link: Link, c: Conditions)
    requires c.page.Some?
  {
    exists i: nat :: i < |Later(c.page.value, link.lastUpdatedAt)| && !c.sends(i)
  }

  /** A check reports an error exactly when its URL does not parse; or the fetch fails; or a baseline's write
      is not acknowledged; or there is a later post and the write is not acknowledged, the lookup of the
      subscribers fails, or there are subscribers and a later post does not encode (with the outbox) or one
      of the sends fails (without it). */
  lemma VerdictExactly(outboxEnabled: bool, s: State, link: Link, c: Conditions)
    ensures Check(outboxEnabled, s, link, c).1 <==> !Errs(outboxEnabled, link, c)
  {
    if c.parses && c.page.Some? && link.lastUpdatedAt != ZERO_TIME {
      var page, since := c.page.value, link.lastUpdatedAt;
      LaterMember(page, since);
      LaterCount(page, since);
      LatestExactly(page, since);
      var n := |NewUpdates(page, since)|;
      StreakStops(n, c.sends);
      if n > 0 {
        assert NewUpdates(page, since)[0] in page;
      }
    }
  }

  // ----- what a check changes -----

  /** The check stores a new watermark: at a baseline, and past it when there is a later post and, with the
      outbox, the subscribers are known and every later post encodes if there are any. */
  ghost predicate Moves(outboxEnabled: bool, link: Link, c: Conditions) {
    && c.parses && c.page.Some? && !c.write.Refused?
    && (link.lastUpdatedAt == ZERO_TIME ||
        (HasLater(link, c) &&
         (outboxEnabled ==> c.subscribers.Some? && (c.subscribers.value == [] || !LaterUnencodable(link, c)))))
  }

  function NewMark(link: Link, c: Conditions): Time
    requires c.page.Some?
  {
    Latest(NewUpdates(c.page.value, link.lastUpdatedAt), link.lastUpdatedAt)
  }

  lemma BaselineMark(outboxEnabled: bool, s: State, link: Link, c: Conditions)
    requires c.parses && c.page.Some? && link.lastUpdatedAt == ZERO_TIME
    ensures Check(outboxEnabled, s, link, c).0
            == SetMark(s, link.id, if NewMark(link, c) == ZERO_TIME then c.now else NewMark(link, c), c.write)
  {}

  lemma LaterMark(outboxEnabled: bool, s: State, link: Link, c: Conditions)
    requires c.parses && c.page.Some? && link.lastUpdatedAt > ZERO_TIME
    ensures Check(outboxEnabled, s, link, c).0.marks
            == if Moves(outboxEnabled, link, c) then SetMark(s, link.id, NewMark(link, c), c.write).marks else s.marks
  {
    var page, since := c.page.value, link.lastUpdatedAt;
    LaterMember(page, since);
    LatestExactly(page, since);
    if NewUpdates(page, since) != [] {
      assert NewUpdates(page, since)[0] in page;
    }
  }

  /** The watermark moves exactly then, if the link is still there: to the latest date of the page, or to the
      clock at a baseline whose page has no date. No other watermark moves. */
  lemma MarkExactly(outboxEnabled: bool, s: State, link: Link, c: Conditions)
    requires link.lastUpdatedAt >= ZERO_TIME
    ensures var marks := Check(outboxEnabled, s, link, c).0.marks;
            if Moves(outboxEnabled, link, c) && link.id in s.marks
            then link.id in marks && marks == s.marks[link.id := marks[link.id]]
                 && MarkFits(link, c, marks[link.id])
            else marks == s.marks
  {
    if c.parses && c.page.Some? {
      LatestExactly(c.page.value, link.lastUpdatedAt);
      if link.lastUpdatedAt == ZERO_TIME {
        BaselineMark(outboxEnabled, s, link, c);
      } else {
        LaterMark(outboxEnabled, s, link, c);
        LaterMember(c.page.value, link.lastUpdatedAt);
        if HasLater(link, c) {
          assert NewUpdates(c.page.value, link.lastUpdatedAt)[0] in c.page.value;
        }
      }
    }
  }

  ghost predicate MarkFits(link: Link, c: Conditions, mark: Time)
    requires c.page.Some?
  {
    if exists u :: u in c.page.value && u.createdAt > link.lastUpdatedAt
    then IsLatest(c.page.value, link.lastUpdatedAt, mark) else mark == c.now
  }

  /** One pending row for each later post, in page order, for these subscribers, with no attempts and its
      own stamp; `at` lists the positions of the later posts. */
  ghost predicate RowsFor(rows: seq<Row>, page: seq<Update>, since: Time, chats: seq<int>, stamps: nat -> Time,
      at: seq<nat>)
  {
    && Increasing(at, |page|) && (forall i: nat :: i in at <==> i in Later(page, since)) && |rows| == |at|
    && forall i | 0 <= i < |rows| :: rows[i] == Row(Notification(page[at[i]], chats), Pending, 0, stamps(i))
  }

  lemma RowsAreFor(page: seq<Update>, since: Time, chats: seq<int>, stamps: nat -> Time)
    requires since != ZERO_TIME
    ensures RowsFor(Rows(Notifications(NewUpdates(page, since), chats), stamps), page, since, chats, stamps,
                    NewPositions(page, since))
  {
    NewUpdatesKeepsExactlyTheNew(page, since);
    assert forall i: nat :: i in Later(page, since) ==> i < |page| && IsNew(page[i], since);
    assert forall i: nat :: i in NewPositions(page, since) ==> i < |page|;
  }

  ghost predicate Stores(outboxEnabled: bool, link: Link, c: Conditions) {
    outboxEnabled && HasLater(link, c) && Moves(outboxEnabled, link, c) && c.subscribers.value != []
  }

  /** Rows are stored exactly when the outbox is on, there is a later post and there are subscribers, the
      later posts encode and the write takes effect. */
  lemma RowsExactly(outboxEnabled: bool, s: State, link: Link, c: Conditions)
    ensures var outbox := Check(outboxEnabled, s, link, c).0.outbox;
            if Stores(outboxEnabled, link, c)
            then s.outbox <= outbox
                 && exists at :: RowsFor(outbox[|s.outbox|..], c.page.value, link.lastUpdatedAt, c.subscribers.value,
                                         c.stamps, at)
            else outbox == s.outbox
  {
    if c.parses && c.page.Some? && link.lastUpdatedAt != ZERO_TIME {
      LaterMember(c.page.value, link.lastUpdatedAt);
      if Stores(outboxEnabled, link, c) {
        StoresRows(s, link, c);
        RowsAreFor(c.page.value, link.lastUpdatedAt, c.subscribers.value, c.stamps);
        var outbox := Check(outboxEnabled, s, link, c).0.outbox;
        var rows := Rows(Notifications(NewUpdates(c.page.value, link.lastUpdatedAt), c.subscribers.value), c.stamps);
        assert outbox[|s.outbox|..] == rows;
      }
    }
  }

  lemma StoresRows(s: State, link: Link, c: Conditions)
    requires Stores(true, link, c)
    ensures Check(true, s, link, c).0.outbox
            == s.outbox + Rows(Notifications(NewUpdates(c.page.value, link.lastUpdatedAt), c.subscribers.value),
                c.stamps)
  {
    LaterMember(c.page.value, link.lastUpdatedAt);
  }

  ghost predicate HandsOver(outboxEnabled: bool, link: Link, c: Conditions) {
    && !outboxEnabled && c.parses && HasLater(link, c) && c.write.Worked? && c.subscribers.Some?
    && c.subscribers.value != []
  }

  /** Without the outbox the later posts are handed over in page order after the write, up to and with the
      first send that fails; the subscribers are those the lookup found. */
  lemma HandedExactly(outboxEnabled: bool, s: State, link: Link, c: Conditions)
    ensures var handed := Check(outboxEnabled, s, link, c).0.handed;
            if HandsOver(outboxEnabled, link, c)
            then s.handed <= handed && exists at ::
                   HandedFor(handed[|s.handed|..], c.page.value, link.lastUpdatedAt, c.subscribers.value, c.sends, at)
            else handed == s.handed
  {
    if HandsOver(outboxEnabled, link, c) {
      var news := NewUpdates(c.page.value, link.lastUpdatedAt);
      HandsOverPrefix(s, link, c);
      HandedAreFor(c.page.value, link.lastUpdatedAt, c.subscribers.value, c.sends);
      assert Check(outboxEnabled, s, link, c).0.handed[|s.handed|..]
          == Notifications(news, c.subscribers.value)[..Handed(|news|, c.sends)];
    } else {
      HandsNothing(outboxEnabled, s, link, c);
    }
  }

  lemma HandsNothing(outboxEnabled: bool, s: State, link: Link, c: Conditions)
    requires !HandsOver(outboxEnabled, link, c)
    ensures Check(outboxEnabled, s, link, c).0.handed == s.handed
  {
    if c.parses && c.page.Some? && link.lastUpdatedAt != ZERO_TIME && !outboxEnabled {
      var news := NewUpdates(c.page.value, link.lastUpdatedAt);
      LaterMember(c.page.value, link.lastUpdatedAt);
      if news != [] {
        LatestExactly(c.page.value, link.lastUpdatedAt);
        assert news[0] in c.page.value && news[0].createdAt > link.lastUpdatedAt;
        DirectHandsNothing(s, link, news, NewMark(link, c), c);
      }
    }
  }

  lemma DirectHandsNothing(s: State, link: Link, news: seq<Update>, mark: Time, c: Conditions)
    requires mark > link.lastUpdatedAt && (!c.write.Worked? || c.subscribers.None? || c.subscribers.value == [])
    ensures DirectCheck(s, link, news, mark, c).0.handed == s.handed
  {}

  ghost predicate HandedFor(sent: seq<Notification>, page: seq<Update>, since: Time, chats: seq<int>,
      sends: nat -> bool, at: seq<nat>)
  {
    && Increasing(at, |page|) && (forall i: nat :: i in at <==> i in Later(page, since))
    && (at != [] ==> 0 < |sent|) && |sent| <= |at|
    && (forall i | 0 <= i < |sent| :: sent[i] == Notification(page[at[i]], chats))
    && (forall i: nat | i < |sent| - 1 :: sends(i)) && (|sent| < |at| ==> !sends(|sent| - 1))
  }

  lemma HandedAreFor(page: seq<Update>, since: Time, chats: seq<int>, sends: nat -> bool)
    requires since != ZERO_TIME
    ensures var news := NewUpdates(page, since);
            HandedFor(Notifications(news, chats)[..Handed(|news|, sends)], page, since, chats, sends,
                      NewPositions(page, since))
  {
    NewUpdatesKeepsExactlyTheNew(page, since);
    StreakStops(|NewUpdates(page, since)|, sends);
    assert forall i: nat :: i in Later(page, since) ==> i < |page| && IsNew(page[i], since);
    assert forall i: nat :: i in NewPositions(page, since) ==> i < |page|;
  }

  lemma HandsOverPrefix(s: State, link: Link, c: Conditions)
    requires HandsOver(false, link, c)
    ensures var news := NewUpdates(c.page.value, link.lastUpdatedAt);
            Check(false, s, link, c).0.handed
            == s.handed + Notifications(news, c.subscribers.value)[..Handed(|news|, c.sends)]
  {
    LaterMember(c.page.value, link.lastUpdatedAt);
  }
}
