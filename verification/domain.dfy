/** Values shared by the scheduler, the outbox, the topic and the bot. */
module Domain {

  datatype Option<+T> = None | Some(value: T)

  datatype Result<+T, +E> = Ok(value: T) | Err(error: E)

  /** How a call to another process ends: it worked, it had no effect and reported an error,
      or it took effect and still reported an error (a lost acknowledgement). */
  datatype Call = Worked | Refused | Unacknowledged {
    predicate TookEffect() { this != Refused }
    predicate Reported() { Worked? }
  }

  /** Nanoseconds since the zero value of Go's time.Time (1 January of year 1). */
  type Time = int
  const ZERO_TIME: Time := 0

  datatype UpdateType = GitHubIssue | GitHubPullRequest | StackOverflowAnswer | StackOverflowComment

  /** domain.LinkUpdate. `post` is the identity of the post at its source: the code carries no such
      field and no operation looks at it; it lets claims tell two posts with equal text apart. */
  datatype Update = Update(
    post: nat, linkId: int, url: string, kind: UpdateType,
    title: string, username: string, createdAt: Time, preview: string)

  /** api.LinkUpdate as the scheduler fills it: one update and the chats it is for. */
  datatype Notification = Notification(update: Update, chats: seq<int>)

  /** One row of GetTrackedLinksBatch. */
  datatype Link = Link(id: int, url: string, lastUpdatedAt: Time)

  /** Some element of a non-empty set. */
  ghost function Any<T(!new)>(s: set<T>): (x: T)
    requires s != {}
    ensures x in s
  {
    var x :| x in s; x
  }

  method Choose<T>(s: set<T>) returns (x: T)
    requires s != {}
    ensures x in s
  {
    x :| x in s;
  }

  /** How many of n calls made in turn work before the first that fails. */
  function Streak(n: nat, works: nat -> bool): (k: nat)
    ensures k <= n
  {
    if n == 0 then 0 else
      var k := Streak(n - 1, works);
      if k == n - 1 && works(n - 1) then n else k
  }

  lemma {:induction false} StreakStops(n: nat, works: nat -> bool)
    ensures forall i: nat | i < Streak(n, works) :: works(i)
    ensures Streak(n, works) < n ==> !works(Streak(n, works))
  {
    if n > 0 {
      StreakStops(n - 1, works);
    }
  }
}
