/** The filter-and-maximum loops of the GitHub and StackOverflow clients. */
module Fetch {
  import opened Domain

  /** The fields of an issue the GitHub client decodes; the preview is its body. */
  datatype Issue = Issue(post: nat, title: string, login: string, createdAt: Time, body: string, isPullRequest: bool)

  /** An answer or a comment as the StackOverflow client decodes it; dates are Unix seconds. */
  datatype Reply = Reply(post: nat, creationDate: int, displayName: string, body: string)

  const UNIX_EPOCH_SECONDS := 62_135_596_800
  const NANOSECONDS := 1_000_000_000

  function UnixTime(seconds: int): Time {
    (seconds + UNIX_EPOCH_SECONDS) * NANOSECONDS
  }

  predicate IsLeap(year: nat) {
    year % 4 == 0 && (year % 100 != 0 || year % 400 == 0)
  }

  /** The days of the Gregorian calendar from the beginning of year 1 to the beginning of a year. */
  function DaysBefore(year: nat): nat {
    if year <= 1 then 0 else DaysBefore(year - 1) + if IsLeap(year - 1) then 366 else 365
  }

  lemma OneMoreDivisible(n: nat, d: nat)
    requires n > 0 && (d == 4 || d == 100 || d == 400)
    ensures n / d == (n - 1) / d + if n % d == 0 then 1 else 0
  {
    if d == 4 {
    } else if d == 100 {
    } else {
    }
  }

  lemma LeapRules(year: nat)
    ensures (if IsLeap(year) then 1 else 0)
            == (if year % 4 == 0 then 1 else 0) - (if year % 100 == 0 then 1 else 0) + if year % 400 == 0 then 1 else 0
  {
    assert year % 400 == 0 ==> year % 100 == 0;
    assert year % 100 == 0 ==> year % 4 == 0;
  }

  lemma {:induction false} DaysBeforeExactly(year: nat)
    requires year >= 1
    ensures DaysBefore(year) == 365 * (year - 1) + (year - 1) / 4 - (year - 1) / 100 + (year - 1) / 400
  {
    if year > 1 {
      DaysBeforeExactly(year - 1);
      OneMoreDivisible(year - 1, 4);
      OneMoreDivisible(year - 1, 100);
      OneMoreDivisible(year - 1, 400);
      LeapRules(year - 1);
    }
  }

  /** Unix seconds count from the beginning of 1970. */
  lemma UnixTimeExactly(seconds: int)
    ensures UnixTime(seconds) == (DaysBefore(1970) * 24 * 60 * 60 + seconds) * 1_000_000_000
  {
    DaysBeforeExactly(1970);
    assert DaysBefore(1970) == 719_162;
  }

  /** What an update tells of an issue or a pull request. */
  predicate Tells(u: Update, item: Issue, url: string, linkId: int) {
    && u.post == item.post && u.linkId == linkId && u.url == url && u.title == item.title && u.username == item.login
    && u.createdAt == item.createdAt && u.preview == item.body
    && (u.kind.GitHubPullRequest? <==> item.isPullRequest) && (u.kind.GitHubIssue? <==> !item.isPullRequest)
  }

  /** What an update tells of an answer or a comment. */
  predicate TellsReply(u: Update, item: Reply, kind: UpdateType, title: string, url: string, linkId: int) {
    && u.post == item.post && u.linkId == linkId && u.url == url && u.title == title
    && u.username == item.displayName && u.kind == kind && u.preview == item.body
    && u.createdAt == (DaysBefore(1970) * 24 * 60 * 60 + item.creationDate) * 1_000_000_000
  }

  function FromIssue(item: Issue, url: string, linkId: int): Update {
    Update(item.post, linkId, url, if item.isPullRequest then GitHubPullRequest else GitHubIssue,
           item.title, item.login, item.createdAt, item.body)
  }

  function FromReply(item: Reply, kind: UpdateType, title: string, url: string, linkId: int): Update {
    Update(item.post, linkId, url, kind, title, item.displayName, UnixTime(item.creationDate), item.body)
  }

  function FromIssues(items: seq<Issue>, url: string, linkId: int): seq<Update> {
    seq(|items|, i requires 0 <= i < |items| => FromIssue(items[i], url, linkId))
  }

  function FromReplies(items: seq<Reply>, kind: UpdateType, title: string, url: string, linkId: int): seq<Update> {
    seq(|items|, i requires 0 <= i < |items| => FromReply(items[i], kind, title, url, linkId))
  }

  // ----- what the loops are for -----

  predicate IsNew(u: Update, since: Time) {
    since == ZERO_TIME || u.createdAt > since
  }

  /** The updates of a page that are new since the watermark, in page order. */
  function NewUpdates(page: seq<Update>, since: Time): seq<Update> {
    if page == [] then [] else
      var u := page[|page| - 1];
      NewUpdates(page[..|page| - 1], since) + if IsNew(u, since) then [u] else []
  }

  /** The latest date among the updates, or `since` when none is later. */
  function Latest(updates: seq<Update>, since: Time): Time {
    if updates == [] then since else
      var t := Latest(updates[..|updates| - 1], since);
      var u := updates[|updates| - 1];
      if u.createdAt > t then u.createdAt else t
  }

  /** The positions of the page that are new. */
  function NewPositions(page: seq<Update>, since: Time): seq<nat> {
    if page == [] then [] else
      var n := |page| - 1;
      NewPositions(page[..n], since) + if IsNew(page[n], since) then [n] else []
  }

  predicate Increasing(positions: seq<nat>, bound: nat) {
    && (forall i | 0 <= i < |positions| :: positions[i] < bound)
    && (forall i, j | 0 <= i < j < |positions| :: positions[i] < positions[j])
  }

  lemma {:induction false} NewPositionsIncrease(page: seq<Update>, since: Time)
    ensures Increasing(NewPositions(page, since), |page|)
    ensures forall i: nat | i < |page| :: i in NewPositions(page, since) <==> IsNew(page[i], since)
  {
    if page != [] {
      var n := |page| - 1;
      var before := NewPositions(page[..n], since);
      NewPositionsIncrease(page[..n], since);
      forall i: nat | i < |page| ensures i in NewPositions(page, since) <==> IsNew(page[i], since) {
        if i < n {
          assert page[..n][i] == page[i];
          assert i in before <==> IsNew(page[i], since);
        }
      }
    }
  }

  /** The updates are the page with exactly the positions dropped that are not new: nothing is
      reordered, repeated or invented. */
  lemma {:induction false} NewUpdatesKeepsExactlyTheNew(page: seq<Update>, since: Time)
    ensures var kept := NewPositions(page, since);
            && Increasing(kept, |page|)
            && (forall i: nat | i < |page| :: i in kept <==> IsNew(page[i], since))
            && |NewUpdates(page, since)| == |kept|
            && (forall k | 0 <= k < |kept| :: NewUpdates(page, since)[k] == page[kept[k]])
  {
    NewPositionsIncrease(page, since);
    if page != [] {
      var n := |page| - 1;
      NewUpdatesKeepsExactlyTheNew(page[..n], since);
      var before := NewPositions(page[..n], since);
      forall k | 0 <= k < |before| ensures NewUpdates(page, since)[k] == page[before[k]] {
        assert page[..n][before[k]] == page[before[k]];
      }
    }
  }

  lemma {:induction false} NewUpdatesMember(page: seq<Update>, since: Time, u: Update)
    ensures u in NewUpdates(page, since) <==> u in page && IsNew(u, since)
  {
    if page != [] {
      var n := |page| - 1;
      NewUpdatesMember(page[..n], since, u);
      assert page == page[..n] + [page[n]];
    }
  }

  lemma {:induction false} NewUpdatesCount(page: seq<Update>, since: Time, u: Update)
    ensures multiset(NewUpdates(page, since))[u] == if IsNew(u, since) then multiset(page)[u] else 0
  {
    if page != [] {
      var n := |page| - 1;
      NewUpdatesCount(page[..n], since, u);
      assert page == page[..n] + [page[n]];
    }
  }

  /** The maximum: an upper bound of `since` and every date, and one of them. */
  lemma {:induction false} LatestIsMaximum(updates: seq<Update>, since: Time)
    ensures Latest(updates, since) >= since
    ensures forall u | u in updates :: u.createdAt <= Latest(updates, since)
    ensures Latest(updates, since) == since || exists u :: u in updates && u.createdAt == Latest(updates, since)
  {
    if updates != [] {
      var n := |updates| - 1;
      LatestIsMaximum(updates[..n], since);
      assert updates == updates[..n] + [updates[n]];
      assert forall u | u in updates :: u in updates[..n] || u == updates[n];
      if Latest(updates, since) != since {
        if Latest(updates[..n], since) == Latest(updates, since) {
          var u :| u in updates[..n] && u.createdAt == Latest(updates[..n], since);
          assert u in updates;
        } else {
          assert updates[n] in updates;
        }
      }
    }
  }

  lemma {:induction false} NewUpdatesConcat(a: seq<Update>, b: seq<Update>, since: Time)
    ensures NewUpdates(a + b, since) == NewUpdates(a, since) + NewUpdates(b, since)
  {
    if b == [] {
      assert a + b == a;
    } else {
      var n := |b| - 1;
      assert (a + b)[..|a + b| - 1] == a + b[..n];
      NewUpdatesConcat(a, b[..n], since);
    }
  }

  lemma {:induction false} LatestConcat(a: seq<Update>, b: seq<Update>, since: Time)
    ensures Latest(a + b, since) ==
            if Latest(b, since) > Latest(a, since) then Latest(b, since) else Latest(a, since)
  {
    LatestIsMaximum(a, since);
    LatestIsMaximum(b, since);
    LatestIsMaximum(a + b, since);
    if Latest(a, since) != since {
      var u :| u in a && u.createdAt == Latest(a, since);
      assert u in a + b;
    }
    if Latest(b, since) != since {
      var u :| u in b && u.createdAt == Latest(b, since);
      assert u in a + b;
    }
  }

  /** Past the first check, a fetch brings updates exactly when it brings a later watermark. */
  lemma NonEmptyIffLater(page: seq<Update>, since: Time)
    requires since != ZERO_TIME
    ensures NewUpdates(page, since) != [] <==> Latest(NewUpdates(page, since), since) > since
    ensures Latest(NewUpdates(page, since), since) == Latest(page, since)
  {
    var news := NewUpdates(page, since);
    LatestIsMaximum(news, since);
    LatestIsMaximum(page, since);
    if news != [] {
      NewUpdatesMember(page, since, news[0]);
    }
    if Latest(page, since) > since {
      var u :| u in page && u.createdAt == Latest(page, since);
      NewUpdatesMember(page, since, u);
    }
    if Latest(news, since) > since {
      var u :| u in news && u.createdAt == Latest(news, since);
      NewUpdatesMember(page, since, u);
    }
  }

  /** The updates tell of the items of the page that are new, in order. */
  lemma IssuesTold(items: seq<Issue>, url: string, linkId: int, since: Time)
    ensures var page := FromIssues(items, url, linkId);
            var kept := NewPositions(page, since);
            && |NewUpdates(page, since)| == |kept| && Increasing(kept, |items|)
            && (forall i: nat | i < |items| :: i in kept <==> since == ZERO_TIME || items[i].createdAt > since)
            && forall k | 0 <= k < |kept| :: Tells(NewUpdates(page, since)[k], items[kept[k]], url, linkId)
  {
    NewUpdatesKeepsExactlyTheNew(FromIssues(items, url, linkId), since);
  }

  lemma RepliesTold(items: seq<Reply>, kind: UpdateType, title: string, url: string, linkId: int, since: Time)
    ensures var page := FromReplies(items, kind, title, url, linkId);
            var kept := NewPositions(page, since);
            && |NewUpdates(page, since)| == |kept| && Increasing(kept, |items|)
            && (forall i: nat | i < |items| ::
                  i in kept <==> since == ZERO_TIME || UnixTime(items[i].creationDate) > since)
            && forall k | 0 <= k < |kept| ::
                 TellsReply(NewUpdates(page, since)[k], items[kept[k]], kind, title, url, linkId)
  {
    var page := FromReplies(items, kind, title, url, linkId);
    NewUpdatesKeepsExactlyTheNew(page, since);
    forall i | 0 <= i < |items| ensures TellsReply(page[i], items[i], kind, title, url, linkId) {
      UnixTimeExactly(items[i].creationDate);
    }
  }

  // ----- the loops -----

  method GetNewIssuesAndPullRequests(items: seq<Issue>, url: string, linkId: int, since: Time)
    returns (updates: seq<Update>, maxCreatedAt: Time)
    ensures updates == NewUpdates(FromIssues(items, url, linkId), since)
    ensures maxCreatedAt == Latest(updates, since)
  {
    updates := [];
    maxCreatedAt := since;
    ghost var page := FromIssues(items, url, linkId);
    for i := 0 to |items|
      invariant updates == NewUpdates(page[..i], since)
      invariant maxCreatedAt == Latest(updates, since)
    {
      var item := items[i];
      assert page[..i + 1][..i] == page[..i];
      if since != ZERO_TIME && !(item.createdAt > since) {
        continue;
      }
      var updateType := GitHubIssue;
      if item.isPullRequest {
        updateType := GitHubPullRequest;
      }
      ghost var before := updates;
      updates := updates
          + [Update(item.post, linkId, url, updateType, item.title, item.login, item.createdAt, item.body)];
      assert updates[..|updates| - 1] == before;
      if item.createdAt > maxCreatedAt {
        maxCreatedAt := item.createdAt;
      }
    }
    assert page[..|items|] == page;
  }

  /** getNewAnswers and getNewComments: the same loop with another update type. */
  method GetNewReplies(items: seq<Reply>, kind: UpdateType, title: string, url: string, linkId: int, since: Time)
    returns (updates: seq<Update>, maxCreatedAt: Time)
    ensures updates == NewUpdates(FromReplies(items, kind, title, url, linkId), since)
    ensures maxCreatedAt == Latest(updates, since)
  {
    updates := [];
    maxCreatedAt := since;
    ghost var page := FromReplies(items, kind, title, url, linkId);
    for i := 0 to |items|
      invariant updates == NewUpdates(page[..i], since)
      invariant maxCreatedAt == Latest(updates, since)
    {
      var item := items[i];
      assert page[..i + 1][..i] == page[..i];
      var createdAt := UnixTime(item.creationDate);
      if since != ZERO_TIME && !(createdAt > since) {
        continue;
      }
      ghost var before := updates;
      updates := updates + [Update(item.post, linkId, url, kind, title, item.displayName, createdAt, item.body)];
      assert updates[..|updates| - 1] == before;
      if createdAt > maxCreatedAt {
        maxCreatedAt := createdAt;
      }
    }
    assert page[..|items|] == page;
  }

  /** The merged fetch is one filtered fetch over the answers followed by the comments; any of the
      three requests may fail, and then the whole fetch does. */
  method GetNewAnswersAndComments(
    question: Option<string>, answerItems: Option<seq<Reply>>, commentItems: Option<seq<Reply>>,
    url: string, linkId: int, since: Time)
    returns (r: Option<(seq<Update>, Time)>)
    ensures r.Some? <==> question.Some? && answerItems.Some? && commentItems.Some?
    ensures r.Some? ==>
              var page := FromReplies(answerItems.value, StackOverflowAnswer, question.value, url, linkId)
                          + FromReplies(commentItems.value, StackOverflowComment, question.value, url, linkId);
              r.value == (NewUpdates(page, since), Latest(NewUpdates(page, since), since))
  {
    if question.None? { return None; }
    if answerItems.None? { return None; }
    var answers, maxAnswer := GetNewReplies(answerItems.value, StackOverflowAnswer, question.value, url, linkId, since);
    if commentItems.None? { return None; }
    var comments, maxComment := GetNewReplies(commentItems.value, StackOverflowComment, question.value, url, linkId,
        since);
    var updates := answers + comments;
    var maxCreatedAt := since;
    if maxAnswer > maxCreatedAt {
      maxCreatedAt := maxAnswer;
    }
    if maxComment > maxCreatedAt {
      maxCreatedAt := maxComment;
    }
    NewUpdatesConcat(FromReplies(answerItems.value, StackOverflowAnswer, question.value, url, linkId),
                     FromReplies(commentItems.value, StackOverflowComment, question.value, url, linkId), since);
    LatestConcat(answers, comments, since);
    LatestIsMaximum(answers, since);
    LatestIsMaximum(comments, since);
    return Some((updates, maxCreatedAt));
  }
}
