/** The outbox publisher: rounds that copy the oldest pending rows to the topic. */
module Publisher {
  import opened Domain
  import opened CheckLink

  /** The outbox, the row ids in the order their messages reached the topic, and how often the publish
      of each row was reported failed. */
  datatype Progress = Progress(outbox: seq<Row>, topic: seq<nat>, failures: map<nat, nat>)

  function PendingIds(outbox: seq<Row>): set<nat> {
    set id: nat | id < |outbox| && outbox[id].status == Pending
  }

  /** SELECT ... WHERE status = 'PENDING' ORDER BY created_at LIMIT: which of the rows with equal
      created_at come first is left to the database. */
  ghost predicate IsPendingBatch(outbox: seq<Row>, limit: nat, batch: seq<nat>) {
    && (forall i | 0 <= i < |batch| :: batch[i] in PendingIds(outbox))
    && (forall i, j | 0 <= i < j < |batch| ::
          batch[i] != batch[j] && outbox[batch[i]].createdAt <= outbox[batch[j]].createdAt)
    && |batch| == (if limit < |PendingIds(outbox)| then limit else |PendingIds(outbox)|)
    && (forall id, i | id in PendingIds(outbox) && id !in batch && 0 <= i < |batch| ::
          outbox[batch[i]].createdAt <= outbox[id].createdAt)
  }

  function Taken(batch: seq<nat>): set<nat> {
    set id | id in batch
  }

  function Failures(s: Progress, id: nat): nat {
    if id in s.failures then s.failures[id] else 0
  }

  /** One message of a round: it is marked SENT only after its publish was acknowledged. */
  function PublishOne(s: Progress, id: nat, produce: Call, mark: Call): Progress
    requires id < |s.outbox|
  {
    var topic := if produce.TookEffect() then s.topic + [id] else s.topic;
    var row := s.outbox[id];
    if produce.Reported() then
      Progress(if mark.TookEffect() then s.outbox[id := row.(status := Sent)] else s.outbox, topic, s.failures)
    else
      Progress(if mark.TookEffect() then s.outbox[id := row.(attempts := row.attempts + 1)] else s.outbox, topic,
               s.failures[id := Failures(s, id) + 1])
  }

  function PublishAll(s: Progress, batch: seq<nat>, produce: nat -> Call, mark: nat -> Call): (s': Progress)
    requires forall i | 0 <= i < |batch| :: batch[i] < |s.outbox|
    ensures |s'.outbox| == |s.outbox|
  {
    if batch == [] then s else
      var n := |batch| - 1;
      PublishOne(PublishAll(s, batch[..n], produce, mark), batch[n], produce(batch[n]), mark(batch[n]))
  }

  // ----- one round -----

  predicate SameMessage(r: Row, r': Row) {
    r'.message == r.message && r'.createdAt == r.createdAt
  }

  /** What becomes of a row: nothing unless it is in the batch; SENT when its publish was acknowledged
      and the mark took effect; a failed publish is counted, and stored when the mark took effect. */
  ghost predicate RowAfter(s: Progress, s': Progress, id: nat, inBatch: bool, produce: Call, mark: Call)
    requires id < |s.outbox| && id < |s'.outbox|
  {
    var r, r' := s.outbox[id], s'.outbox[id];
    && SameMessage(r, r')
    && r'.status == (if inBatch && produce.Reported() && mark.TookEffect() then Sent else r.status)
    && r'.attempts == r.attempts + (if inBatch && !produce.Reported() && mark.TookEffect() then 1 else 0)
    && Failures(s', id) == Failures(s, id) + (if inBatch && !produce.Reported() then 1 else 0)
  }

  lemma OneByRow(s: Progress, sent: nat, produce: Call, mark: Call, id: nat)
    requires sent < |s.outbox| && id < |s.outbox|
    ensures RowAfter(s, PublishOne(s, sent, produce, mark), id, id == sent, produce, mark)
  {}

  /** What a round does to each row, in full. */
  lemma {:induction false} RoundByRow(s: Progress, batch: seq<nat>, produce: nat -> Call, mark: nat -> Call, id: nat)
    requires forall i | 0 <= i < |batch| :: batch[i] < |s.outbox|
    requires forall i, j | 0 <= i < j < |batch| :: batch[i] != batch[j]
    requires id < |s.outbox|
    ensures RowAfter(s, PublishAll(s, batch, produce, mark), id, id in batch, produce(id), mark(id))
  {
    if batch != [] {
      var n := |batch| - 1;
      var s1 := PublishAll(s, batch[..n], produce, mark);
      RoundByRow(s, batch[..n], produce, mark, id);
      OneByRow(s1, batch[n], produce(batch[n]), mark(batch[n]), id);
      assert batch == batch[..n] + [batch[n]];
      assert batch[n] !in batch[..n];
      assert PublishAll(s, batch, produce, mark) == PublishOne(s1, batch[n], produce(batch[n]), mark(batch[n]));
    }
  }

  /** Nothing reaches the topic but messages of the batch whose publish took effect. */
  lemma {:induction false} RoundTopic(s: Progress, batch: seq<nat>, produce: nat -> Call, mark: nat -> Call)
    requires forall i | 0 <= i < |batch| :: batch[i] < |s.outbox|
    ensures var s' := PublishAll(s, batch, produce, mark);
            && s.topic <= s'.topic
            && (forall i | |s.topic| <= i < |s'.topic| :: s'.topic[i] in batch && produce(s'.topic[i]).TookEffect())
  {
    if batch != [] {
      var n := |batch| - 1;
      RoundTopic(s, batch[..n], produce, mark);
      var s1 := PublishAll(s, batch[..n], produce, mark);
      var s' := PublishOne(s1, batch[n], produce(batch[n]), mark(batch[n]));
      assert batch == batch[..n] + [batch[n]];
      forall i | |s.topic| <= i < |s'.topic| ensures s'.topic[i] in batch && produce(s'.topic[i]).TookEffect() {
        if i < |s1.topic| { assert s1.topic[i] in batch[..n]; }
      }
    }
  }

  /** The rows of the batch whose publish takes effect. */
  function Reached(batch: seq<nat>, produce: nat -> Call): seq<nat> {
    if batch == [] then [] else
      var id := batch[|batch| - 1];
      Reached(batch[..|batch| - 1], produce) + if produce(id).TookEffect() then [id] else []
  }

  /** What a round appends to the topic, exactly. */
  lemma {:induction false} RoundAppends(s: Progress, batch: seq<nat>, produce: nat -> Call, mark: nat -> Call)
    requires forall i | 0 <= i < |batch| :: batch[i] < |s.outbox|
    ensures PublishAll(s, batch, produce, mark).topic == s.topic + Reached(batch, produce)
  {
    if batch == [] {
      assert s.topic + [] == s.topic;
    } else {
      var n := |batch| - 1;
      RoundAppends(s, batch[..n], produce, mark);
      assert s.topic + Reached(batch[..n], produce) + [] == s.topic + Reached(batch[..n], produce);
    }
  }

  /** When every publish takes effect, the batch reaches the topic whole and in its order. */
  lemma {:induction false} RoundPublishesBatch(s: Progress, batch: seq<nat>, produce: nat -> Call, mark: nat -> Call)
    requires forall i | 0 <= i < |batch| :: batch[i] < |s.outbox|
    requires forall i | 0 <= i < |batch| :: produce(batch[i]).TookEffect()
    ensures PublishAll(s, batch, produce, mark).topic == s.topic + batch
  {
    if batch == [] {
      assert s.topic + batch == s.topic;
    } else {
      var n := |batch| - 1;
      assert forall i | 0 <= i < n :: batch[..n][i] == batch[i];
      RoundPublishesBatch(s, batch[..n], produce, mark);
      assert s.topic + batch == s.topic + batch[..n] + [batch[n]];
    }
  }

  ghost predicate IsRound(s: Progress, s': Progress, limit: nat, batch: seq<nat>, produce: nat -> Call,
      mark: nat -> Call) {
    IsPendingBatch(s.outbox, limit, batch) && s' == PublishAll(s, batch, produce, mark)
  }

  /** No round makes a row pending, whatever fails; none is marked FAILED either. */
  lemma RoundNeverAddsPending(s: Progress, s': Progress, limit: nat, batch: seq<nat>, produce: nat -> Call,
      mark: nat -> Call)
    requires IsRound(s, s', limit, batch, produce, mark)
    ensures PendingIds(s'.outbox) <= PendingIds(s.outbox)
    ensures forall id | id in PendingIds(s.outbox) ::
              id !in PendingIds(s'.outbox) <==> id in batch && produce(id).Reported() && mark(id).TookEffect()
    ensures forall id | 0 <= id < |s'.outbox| :: s'.outbox[id].status == Failed ==> s.outbox[id].status == Failed
  {
    forall id: nat | id < |s.outbox|
      ensures id in PendingIds(s'.outbox) <==>
              id in PendingIds(s.outbox) && !(id in batch && produce(id).Reported() && mark(id).TookEffect())
      ensures s'.outbox[id].status == Failed ==> s.outbox[id].status == Failed
    {
      RoundByRow(s, batch, produce, mark, id);
    }
  }

  /** The stored attempts never exceed the failed publishes, and count them all while the marks work. */
  ghost predicate AttemptsBounded(s: Progress) {
    forall id: nat | id < |s.outbox| :: s.outbox[id].attempts <= Failures(s, id)
  }

  lemma RoundKeepsAttempts(s: Progress, s': Progress, limit: nat, batch: seq<nat>, produce: nat -> Call,
      mark: nat -> Call)
    requires IsRound(s, s', limit, batch, produce, mark)
    ensures AttemptsBounded(s) ==> AttemptsBounded(s')
    ensures (forall id :: mark(id).TookEffect())
            && (forall id: nat | id < |s.outbox| :: s.outbox[id].attempts == Failures(s, id))
            ==> forall id: nat | id < |s'.outbox| :: s'.outbox[id].attempts == Failures(s', id)
  {
    forall id: nat | id < |s.outbox|
      ensures s.outbox[id].attempts <= Failures(s, id) ==> s'.outbox[id].attempts <= Failures(s', id)
      ensures mark(id).TookEffect() && s.outbox[id].attempts == Failures(s, id)
              ==> s'.outbox[id].attempts == Failures(s', id)
    {
      RoundByRow(s, batch, produce, mark, id);
    }
  }

  // ----- draining -----

  /** Rounds in which every call works, with no new rows in between. */
  ghost predicate IsDrain(states: seq<Progress>, batches: seq<seq<nat>>, limit: nat) {
    && |states| == |batches| + 1
    && forall k | 0 <= k < |batches| :: IsRound(states[k], states[k + 1], limit, batches[k], _ => Worked, _ => Worked)
  }

  predicate InDateOrder(outbox: seq<Row>, ids: seq<nat>) {
    && (forall i | 0 <= i < |ids| :: ids[i] < |outbox|)
    && (forall i, j | 0 <= i < j < |ids| :: ids[i] != ids[j] && outbox[ids[i]].createdAt <= outbox[ids[j]].createdAt)
  }

  lemma {:induction false} TakenCount(batch: seq<nat>)
    requires forall i, j | 0 <= i < j < |batch| :: batch[i] != batch[j]
    ensures |Taken(batch)| == |batch|
  {
    if batch != [] {
      var n := |batch| - 1;
      TakenCount(batch[..n]);
      assert batch == batch[..n] + [batch[n]];
      assert Taken(batch) == Taken(batch[..n]) + {batch[n]};
      assert batch[n] !in Taken(batch[..n]);
    }
  }

  lemma SubsetCount(a: set<nat>, b: set<nat>)
    requires a <= b
    ensures |a| <= |b|
  {
    assert b == a + (b - a);
  }

  lemma GoodRoundTakes(s: Progress, s': Progress, limit: nat, batch: seq<nat>)
    requires IsRound(s, s', limit, batch, _ => Worked, _ => Worked)
    ensures Taken(batch) <= PendingIds(s.outbox) && PendingIds(s'.outbox) == PendingIds(s.outbox) - Taken(batch)
  {
    RoundNeverAddsPending(s, s', limit, batch, _ => Worked, _ => Worked);
    forall id ensures id in PendingIds(s'.outbox) <==> id in PendingIds(s.outbox) && id !in Taken(batch) {}
  }

  lemma Remaining(all: set<nat>, taken: set<nat>)
    requires taken <= all
    ensures |all - taken| == |all| - |taken|
  {
    assert all == (all - taken) + taken;
  }

  lemma GoodRound(s: Progress, s': Progress, limit: nat, batch: seq<nat>)
    requires IsRound(s, s', limit, batch, _ => Worked, _ => Worked)
    ensures PendingIds(s'.outbox) == PendingIds(s.outbox) - Taken(batch)
    ensures |PendingIds(s'.outbox)| == (if limit < |PendingIds(s.outbox)| then |PendingIds(s.outbox)| - limit else 0)
    ensures s'.topic == s.topic + batch
    ensures |s'.outbox| == |s.outbox| && forall id | 0 <= id < |s.outbox| :: SameMessage(s.outbox[id], s'.outbox[id])
  {
    GoodRoundTakes(s, s', limit, batch);
    Remaining(PendingIds(s.outbox), Taken(batch));
    TakenCount(batch);
    RoundPublishesBatch(s, batch, _ => Worked, _ => Worked);
    forall id: nat | id < |s.outbox| { RoundByRow(s, batch, _ => Worked, _ => Worked, id); }
  }

  /** What has been published so far: each row once, in created_at order, and nothing still pending is
      earlier than it. */
  ghost predicate PublishedInOrder(outbox: seq<Row>, published: seq<nat>) {
    && InDateOrder(outbox, published)
    && (forall id | id in PendingIds(outbox) :: id !in published)
    && (forall id, i | id in PendingIds(outbox) && 0 <= i < |published| ::
          outbox[published[i]].createdAt <= outbox[id].createdAt)
  }

  lemma JoinedInOrder(outbox: seq<Row>, a: seq<nat>, b: seq<nat>)
    requires InDateOrder(outbox, a) && InDateOrder(outbox, b)
    requires forall i, j | 0 <= i < |a| && 0 <= j < |b| ::
               a[i] != b[j] && outbox[a[i]].createdAt <= outbox[b[j]].createdAt
    ensures InDateOrder(outbox, a + b)
  {}

  lemma SameDates(outbox: seq<Row>, outbox': seq<Row>, ids: seq<nat>)
    requires InDateOrder(outbox, ids) && |outbox'| == |outbox|
    requires forall id | 0 <= id < |outbox| :: SameMessage(outbox[id], outbox'[id])
    ensures InDateOrder(outbox', ids)
  {}

  lemma StillLater(s: Progress, s': Progress, batch: seq<nat>, before: seq<nat>, id: nat)
    requires PublishedInOrder(s.outbox, before) && id in PendingIds(s.outbox) && id !in batch
             && |s'.outbox| == |s.outbox|
    requires forall i | 0 <= i < |batch| ::
               batch[i] < |s.outbox| && s.outbox[batch[i]].createdAt <= s.outbox[id].createdAt
    requires forall x | 0 <= x < |s.outbox| :: SameMessage(s.outbox[x], s'.outbox[x])
    ensures id !in before + batch
    ensures forall i | 0 <= i < |before + batch| :: s'.outbox[(before + batch)[i]].createdAt <= s'.outbox[id].createdAt
  {}

  lemma GoodRoundInOrder(s: Progress, s': Progress, limit: nat, batch: seq<nat>, before: seq<nat>)
    requires IsRound(s, s', limit, batch, _ => Worked, _ => Worked) && PublishedInOrder(s.outbox, before)
    ensures PublishedInOrder(s'.outbox, before + batch)
  {
    GoodRound(s, s', limit, batch);
    forall i, j | 0 <= i < |before| && 0 <= j < |batch|
      ensures before[i] != batch[j] && s.outbox[before[i]].createdAt <= s.outbox[batch[j]].createdAt
    {
      assert before[i] in before && batch[j] in PendingIds(s.outbox);
    }
    JoinedInOrder(s.outbox, before, batch);
    SameDates(s.outbox, s'.outbox, before + batch);
    forall id | id in PendingIds(s'.outbox)
      ensures id !in before + batch
      ensures forall i | 0 <= i < |before + batch| ::
              s'.outbox[(before + batch)[i]].createdAt <= s'.outbox[id].createdAt
    {
      assert id in PendingIds(s.outbox) && id !in Taken(batch);
      StillLater(s, s', batch, before, id);
    }
  }

  /** k rounds leave exactly max(0, n - k * limit) rows pending. */
  lemma {:induction false} DrainBound(states: seq<Progress>, batches: seq<seq<nat>>, limit: nat, k: nat)
    requires IsDrain(states, batches, limit) && k <= |batches|
    ensures var n := |PendingIds(states[0].outbox)|;
            |PendingIds(states[k].outbox)| == if n > k * limit then n - k * limit else 0
  {
    if k > 0 {
      DrainBound(states, batches, limit, k - 1);
      GoodRound(states[k - 1], states[k], limit, batches[k - 1]);
      assert k * limit == (k - 1) * limit + limit;
    }
  }

  /** What they publish is in created_at order, each row once, with everything still pending at least as
      late. */
  lemma {:induction false} DrainOrder(states: seq<Progress>, batches: seq<seq<nat>>, limit: nat, k: nat)
    requires IsDrain(states, batches, limit) && k <= |batches|
    ensures TopicInOrder(states[0], states[k])
  {
    if k > 0 {
      DrainOrder(states, batches, limit, k - 1);
      RoundTopicInOrder(states[0], states[k - 1], states[k], limit, batches[k - 1]);
    }
  }

  ghost predicate TopicInOrder(first: Progress, s: Progress) {
    first.topic <= s.topic && PublishedInOrder(s.outbox, s.topic[|first.topic|..])
  }

  lemma RoundTopicInOrder(first: Progress, s: Progress, s': Progress, limit: nat, batch: seq<nat>)
    requires IsRound(s, s', limit, batch, _ => Worked, _ => Worked) && TopicInOrder(first, s)
    ensures TopicInOrder(first, s')
  {
    GoodRound(s, s', limit, batch);
    GoodRoundInOrder(s, s', limit, batch, s.topic[|first.topic|..]);
    SuffixAppend(s.topic, batch, |first.topic|);
  }

  lemma SuffixAppend(a: seq<nat>, b: seq<nat>, n: nat)
    requires n <= |a|
    ensures (a + b)[n..] == a[n..] + b
  {}

  // ----- rows that can never be published -----

  /** With at least `limit` pending rows that are older than all other pending rows and whose publish is
      always refused, a round publishes nothing else: the batch holds only such rows. FAILED is never
      written, so they stay ahead of the others for good. */
  ghost predicate Blocked(outbox: seq<Row>, bad: set<nat>, limit: nat) {
    && bad <= PendingIds(outbox) && |bad| >= limit
    && forall b, id | b in bad && id in PendingIds(outbox) - bad :: outbox[b].createdAt < outbox[id].createdAt
  }

  lemma BlockedBatch(outbox: seq<Row>, bad: set<nat>, limit: nat, batch: seq<nat>, id: nat)
    requires Blocked(outbox, bad, limit) && IsPendingBatch(outbox, limit, batch) && id in batch
    ensures id in bad
  {
    if id !in bad && bad <= Taken(batch) {
      TakenCount(batch);
      SubsetCount(bad + {id}, Taken(batch));
    }
  }

  /** A step of the table while the bad rows stay bad: a round in which their publish is refused, or new
      rows stored later than all of them. */
  ghost predicate RefusingRound(s: Progress, s': Progress, bad: set<nat>, limit: nat) {
    exists batch, produce: nat -> Call, mark: nat -> Call ::
      IsRound(s, s', limit, batch, produce, mark) && forall b | b in bad :: produce(b).Refused?
  }

  ghost predicate LaterRows(s: Progress, s': Progress, bad: set<nat>) {
    && s.outbox <= s'.outbox && s'.topic == s.topic
    && forall b, id | b in bad && b < |s.outbox| <= id < |s'.outbox| :: s.outbox[b].createdAt < s'.outbox[id].createdAt
  }

  lemma RefusingRoundKeeps(s: Progress, s': Progress, bad: set<nat>, limit: nat)
    requires Blocked(s.outbox, bad, limit) && RefusingRound(s, s', bad, limit)
    ensures Blocked(s'.outbox, bad, limit) && s'.topic == s.topic
  {
    var batch, produce: nat -> Call, mark: nat -> Call :|
      IsRound(s, s', limit, batch, produce, mark) && forall b | b in bad :: produce(b).Refused?;
    NothingPublished(s, s', bad, limit, batch, produce, mark);
    forall id: nat | id < |s.outbox|
      ensures SameMessage(s.outbox[id], s'.outbox[id])
      ensures id in PendingIds(s'.outbox) <==> id in PendingIds(s.outbox)
    {
      RoundByRow(s, batch, produce, mark, id);
      if id in batch { BlockedBatch(s.outbox, bad, limit, batch, id); }
    }
  }

  lemma NothingPublished(s: Progress, s': Progress, bad: set<nat>, limit: nat, batch: seq<nat>, produce: nat -> Call,
      mark: nat -> Call)
    requires Blocked(s.outbox, bad, limit) && IsRound(s, s', limit, batch, produce, mark)
    requires forall b | b in bad :: produce(b).Refused?
    ensures s'.topic == s.topic
  {
    RoundTopic(s, batch, produce, mark);
    if |s'.topic| > |s.topic| {
      BlockedBatch(s.outbox, bad, limit, batch, s'.topic[|s.topic|]);
    }
  }

  /** Head-of-line blocking, over any number of rounds and insertions. */
  lemma {:induction false} BlockedForever(states: seq<Progress>, bad: set<nat>, limit: nat, k: nat)
    requires k < |states| && Blocked(states[0].outbox, bad, limit)
    requires forall i | 0 <= i < |states| - 1 ::
               RefusingRound(states[i], states[i + 1], bad, limit) || LaterRows(states[i], states[i + 1], bad)
    ensures Blocked(states[k].outbox, bad, limit) && states[k].topic == states[0].topic
  {
    if k > 0 {
      BlockedForever(states, bad, limit, k - 1);
      if RefusingRound(states[k - 1], states[k], bad, limit) {
        RefusingRoundKeeps(states[k - 1], states[k], bad, limit);
      }
    }
  }

  /** The other half: a pending row with fewer than `limit` pending rows at least as old is in the next
      batch, so it is published as soon as its own publish works. */
  lemma ReachedInNextRound(s: Progress, s': Progress, limit: nat, batch: seq<nat>, produce: nat -> Call,
      mark: nat -> Call, id: nat)
    requires IsRound(s, s', limit, batch, produce, mark) && id in PendingIds(s.outbox)
    requires |set o | o in PendingIds(s.outbox) && o != id && s.outbox[o].createdAt <= s.outbox[id].createdAt| < limit
    ensures id in batch && (produce(id).Worked? && mark(id).TookEffect() ==> s'.outbox[id].status == Sent)
  {
    var older := set o | o in PendingIds(s.outbox) && o != id && s.outbox[o].createdAt <= s.outbox[id].createdAt;
    var taken := Taken(batch);
    TakenCount(batch);
    if id !in batch {
      if limit < |PendingIds(s.outbox)| {
        forall x | x in taken ensures x in older {
          var i :| 0 <= i < |batch| && batch[i] == x;
        }
        SubsetCount(taken, older);
      } else {
        forall x | x in taken ensures x in PendingIds(s.outbox) {
          var i :| 0 <= i < |batch| && batch[i] == x;
        }
        SubsetCount(taken + {id}, PendingIds(s.outbox));
      }
    }
    RoundByRow(s, batch, produce, mark, id);
  }

  // ----- the operations -----

  lemma {:induction false} OldestExists(outbox: seq<Row>, ids: set<nat>)
    requires ids != {} && forall id | id in ids :: id < |outbox|
    ensures exists o :: o in ids && forall id | id in ids :: outbox[o].createdAt <= outbox[id].createdAt
    decreases ids
  {
    var x := Any(ids);
    var rest := ids - {x};
    if rest == {} {
      assert ids == {x};
    } else {
      OldestExists(outbox, rest);
      var o :| o in rest && forall id | id in rest :: outbox[o].createdAt <= outbox[id].createdAt;
      var oldest := if outbox[x].createdAt < outbox[o].createdAt then x else o;
      assert forall id | id in ids :: id == x || id in rest;
      assert oldest in ids && forall id | id in ids :: outbox[oldest].createdAt <= outbox[id].createdAt;
    }
  }

  /** The pending rows are split in a selected batch, in date order, and a rest that is no earlier. */
  ghost predicate Selected(outbox: seq<Row>, batch: seq<nat>, rest: set<nat>) {
    && Taken(batch) + rest == PendingIds(outbox) && Taken(batch) !! rest
    && (forall i | 0 <= i < |batch| :: batch[i] in PendingIds(outbox))
    && InDateOrder(outbox, batch)
    && (forall i, id | 0 <= i < |batch| && id in rest :: outbox[batch[i]].createdAt <= outbox[id].createdAt)
  }

  lemma SelectedStep(outbox: seq<Row>, batch: seq<nat>, rest: set<nat>, oldest: nat)
    requires Selected(outbox, batch, rest) && oldest in rest
    requires forall id | id in rest :: outbox[oldest].createdAt <= outbox[id].createdAt
    ensures Selected(outbox, batch + [oldest], rest - {oldest})
  {
    assert Taken(batch + [oldest]) == Taken(batch) + {oldest};
    forall i | 0 <= i < |batch| ensures batch[i] != oldest {
      assert batch[i] in Taken(batch);
    }
  }

  lemma SelectedIsBatch(outbox: seq<Row>, batch: seq<nat>, rest: set<nat>, limit: nat)
    requires Selected(outbox, batch, rest) && |batch| <= limit && (|batch| == limit || rest == {})
    ensures IsPendingBatch(outbox, limit, batch)
  {
    TakenCount(batch);
    assert |PendingIds(outbox)| == |Taken(batch)| + |rest|;
    forall id | id in PendingIds(outbox) && id !in batch ensures id in rest {
      assert id !in Taken(batch);
    }
  }

  lemma BatchExists(outbox: seq<Row>, limit: nat)
    ensures exists batch :: IsPendingBatch(outbox, limit, batch)
  {
    var rest := PendingIds(outbox);
    var batch: seq<nat> := [];
    assert Taken(batch) == {};
    while |batch| < limit && rest != {}
      invariant Selected(outbox, batch, rest) && |batch| <= limit
      decreases rest
    {
      OldestExists(outbox, rest);
      var oldest :| oldest in rest && forall id | id in rest :: outbox[oldest].createdAt <= outbox[id].createdAt;
      SelectedStep(outbox, batch, rest, oldest);
      batch := batch + [oldest];
      rest := rest - {oldest};
    }
    SelectedIsBatch(outbox, batch, rest, limit);
  }

  class OutboxPublisher {
    const batchSize: nat
    var outbox: seq<Row>
    var topic: seq<nat>
    ghost var failures: map<nat, nat>

    /** NewOutboxPublisher replaces a batch size that is not positive by 100. */
    constructor (batchSize: int, outbox: seq<Row>)
      ensures this.batchSize == (if batchSize <= 0 then 100 else batchSize) && this.batchSize > 0
      ensures this.outbox == outbox && topic == [] && failures == map[]
    {
      this.batchSize := if batchSize <= 0 then 100 else batchSize;
      this.outbox, topic, failures := outbox, [], map[];
    }

    ghost function Now(): Progress
      reads this
    {
      Progress(outbox, topic, failures)
    }

    method GetPendingMessages(limit: nat) returns (batch: seq<nat>)
      ensures IsPendingBatch(outbox, limit, batch)
    {
      var rest := PendingIds(outbox);
      batch := [];
      assert Taken(batch) == {};
      while |batch| < limit && rest != {}
        invariant Selected(outbox, batch, rest) && |batch| <= limit
        decreases rest
      {
        OldestExists(outbox, rest);
        var oldest :| oldest in rest && forall id | id in rest :: outbox[oldest].createdAt <= outbox[id].createdAt;
        SelectedStep(outbox, batch, rest, oldest);
        batch := batch + [oldest];
        rest := rest - {oldest};
      }
      SelectedIsBatch(outbox, batch, rest, limit);
    }

    method MarkAsSent(id: nat, call: Call) returns (ok: bool)
      requires id < |outbox|
      modifies this`outbox
      ensures outbox == (if call.TookEffect() then old(outbox)[id := old(outbox)[id].(status := Sent)] else old(outbox))
      ensures ok == call.Reported()
    {
      if call.TookEffect() {
        outbox := outbox[id := outbox[id].(status := Sent)];
      }
      ok := call.Reported();
    }

    method MarkPublishFailed(id: nat, call: Call) returns (ok: bool)
      requires id < |outbox|
      modifies this`outbox
      ensures outbox
              == (if call.TookEffect()
                  then old(outbox)[id := old(outbox)[id].(attempts := old(outbox)[id].attempts + 1)] else old(outbox))
      ensures ok == call.Reported()
    {
      if call.TookEffect() {
        outbox := outbox[id := outbox[id].(attempts := outbox[id].attempts + 1)];
      }
      ok := call.Reported();
    }

    method ProduceRaw(id: nat, call: Call) returns (ok: bool)
      modifies this`topic
      ensures topic == (if call.TookEffect() then old(topic) + [id] else old(topic)) && ok == call.Reported()
    {
      if call.TookEffect() {
        topic := topic + [id];
      }
      ok := call.Reported();
    }

    /** One round; a batch that cannot be read ends it before it starts. */
    method PublishPending(readFails: bool, produce: nat -> Call, mark: nat -> Call)
      modifies this
      ensures readFails ==> Now() == old(Now())
      ensures !readFails ==> exists batch :: IsRound(old(Now()), Now(), batchSize, batch, produce, mark)
    {
      if readFails { return; }
      var messages := GetPendingMessages(batchSize);
      assert forall i | 0 <= i < |messages| :: messages[i] < |outbox|;
      PublishEach(messages, produce, mark);
      assert IsRound(old(Now()), Now(), batchSize, messages, produce, mark);
    }

    method PublishEach(messages: seq<nat>, produce: nat -> Call, mark: nat -> Call)
      requires forall i | 0 <= i < |messages| :: messages[i] < |outbox|
      modifies this
      ensures Now() == PublishAll(old(Now()), messages, produce, mark)
    {
      for i := 0 to |messages|
        invariant |outbox| == old(|outbox|) && Now() == PublishAll(old(Now()), messages[..i], produce, mark)
      {
        assert messages[..i + 1][..i] == messages[..i];
        PublishMessage(messages[i], produce(messages[i]), mark(messages[i]));
      }
      assert messages[..|messages|] == messages;
    }

    method PublishMessage(id: nat, produce: Call, mark: Call)
      requires id < |outbox|
      modifies this
      ensures Now() == PublishOne(old(Now()), id, produce, mark)
    {
      var ok := ProduceRaw(id, produce);
      if !ok {
        failures := failures[id := Failures(Now(), id) + 1];
        var _ := MarkPublishFailed(id, mark);
        return;
      }
      var _ := MarkAsSent(id, mark);
    }
  }
}
