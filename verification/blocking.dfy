/** Which outbox rows are ever published while the publish of some rows is always refused. */
module Blocking {
  import opened Domain
  import opened CheckLink
  import opened Publisher

  /** New rows are stored, then the publisher makes a round. */
  datatype Turn = Turn(stored: Progress, batch: seq<nat>, produce: nat -> Call, mark: nat -> Call)

  ghost predicate IsTurn(s: Progress, t: Turn, s': Progress, limit: nat) {
    && s.outbox <= t.stored.outbox && t.stored.topic == s.topic
    && IsRound(t.stored, s', limit, t.batch, t.produce, t.mark)
  }

  ghost predicate AreTurns(states: seq<Progress>, turns: seq<Turn>, limit: nat) {
    && |states| == |turns| + 1
    && forall k | 0 <= k < |turns| :: IsTurn(states[k], turns[k], states[k + 1], limit)
  }

  predicate Refuses(t: Turn, bad: set<nat>) {
    forall b | b in bad :: t.produce(b).Refused?
  }

  // ----- rows that are never reached -----

  /** A batch of refused rows is older than the row. */
  ghost predicate Stuck(outbox: seq<Row>, bad: set<nat>, limit: nat, id: nat) {
    && bad <= PendingIds(outbox) && id in PendingIds(outbox) && |bad| >= limit
    && forall b | b in bad :: outbox[b].createdAt < outbox[id].createdAt
  }

  lemma OlderIsTaken(outbox: seq<Row>, limit: nat, batch: seq<nat>, i: nat, b: nat)
    requires IsPendingBatch(outbox, limit, batch) && i < |batch| && b in PendingIds(outbox)
    requires outbox[b].createdAt < outbox[batch[i]].createdAt
    ensures b in batch
  {}

  lemma StuckBatch(outbox: seq<Row>, bad: set<nat>, limit: nat, batch: seq<nat>, id: nat)
    requires Stuck(outbox, bad, limit, id) && IsPendingBatch(outbox, limit, batch)
    ensures id !in batch
  {
    if id in batch {
      var i :| 0 <= i < |batch| && batch[i] == id;
      forall b | b in bad ensures b in Taken(batch) {
        OlderIsTaken(outbox, limit, batch, i, b);
      }
      TakenCount(batch);
      SubsetCount(bad + {id}, Taken(batch));
    }
  }

  lemma StuckTurn(s: Progress, t: Turn, s': Progress, limit: nat, bad: set<nat>, id: nat)
    requires IsTurn(s, t, s', limit) && Refuses(t, bad) && Stuck(s.outbox, bad, limit, id)
    ensures Stuck(s'.outbox, bad, limit, id) && s.topic <= s'.topic && id !in s'.topic[|s.topic|..]
  {
    assert Stuck(t.stored.outbox, bad, limit, id);
    StuckBatch(t.stored.outbox, bad, limit, t.batch, id);
    RoundTopic(t.stored, t.batch, t.produce, t.mark);
    forall x: nat | x in bad || x == id ensures x in PendingIds(s'.outbox) && SameMessage(s.outbox[x], s'.outbox[x]) {
      RoundByRow(t.stored, t.batch, t.produce, t.mark, x);
    }
  }

  /** Head-of-line blocking: over any number of rounds and insertions a row with `limit` refused rows
      older than it is never published. FAILED is never written, so nothing takes them out of its way. */
  lemma {:induction false} StuckForever(
      states: seq<Progress>, turns: seq<Turn>, limit: nat, bad: set<nat>, id: nat, k: nat)
    requires AreTurns(states, turns, limit) && (forall t | t in turns :: Refuses(t, bad))
    requires Stuck(states[0].outbox, bad, limit, id) && k <= |turns|
    ensures Stuck(states[k].outbox, bad, limit, id)
    ensures states[0].topic <= states[k].topic && id !in states[k].topic[|states[0].topic|..]
  {
    if k > 0 {
      StuckForever(states, turns, limit, bad, id, k - 1);
      assert turns[k - 1] in turns;
      StuckTurn(states[k - 1], turns[k - 1], states[k], limit, bad, id);
      SuffixOfSuffix(states[0].topic, states[k - 1].topic, states[k].topic, id);
    }
  }

  lemma SuffixOfSuffix(a: seq<nat>, b: seq<nat>, c: seq<nat>, id: nat)
    requires a <= b <= c && id !in b[|a|..] && id !in c[|b|..]
    ensures a <= c && id !in c[|a|..]
  {
    assert c[|a|..] == b[|a|..] + c[|b|..];
  }

  // ----- rows that are reached -----

  /** The other pending rows at least as old as the row. */
  function AsOld(outbox: seq<Row>, id: nat): set<nat>
    requires id < |outbox|
  {
    set o | o in PendingIds(outbox) && o != id && outbox[o].createdAt <= outbox[id].createdAt
  }

  /** The calls for the row and for every row as old that is not refused work, and no row as old is
      stored meanwhile. */
  ghost predicate Works(s: Progress, t: Turn, bad: set<nat>, id: nat)
    requires id < |s.outbox| <= |t.stored.outbox|
  {
    && (forall x: nat | x < |s.outbox| && x !in bad && s.outbox[x].createdAt <= s.outbox[id].createdAt ::
          t.produce(x).Worked? && t.mark(x).TookEffect())
    && forall x: nat | |s.outbox| <= x < |t.stored.outbox| :: s.outbox[id].createdAt < t.stored.outbox[x].createdAt
  }

  /** What a turn must find: the row waits, is not refused, and fewer than a batch of refused rows are as
      old as it. */
  ghost predicate Reachable(outbox: seq<Row>, bad: set<nat>, limit: nat, id: nat) {
    id in PendingIds(outbox) && id !in bad && |AsOld(outbox, id) * bad| < limit
  }

  /** A batch without the row is full of rows as old as it, so one of them is not refused. */
  lemma PassedOver(outbox: seq<Row>, bad: set<nat>, limit: nat, batch: seq<nat>, id: nat)
    requires Reachable(outbox, bad, limit, id) && IsPendingBatch(outbox, limit, batch) && id !in batch
    ensures exists x :: x in batch && x in AsOld(outbox, id) && x !in bad
  {
    var taken := Taken(batch);
    TakenCount(batch);
    forall x | x in taken ensures x in AsOld(outbox, id) {
      var i :| 0 <= i < |batch| && batch[i] == x;
    }
    if |PendingIds(outbox)| <= limit {
      SubsetCount(taken + {id}, PendingIds(outbox));
    }
    if taken <= bad {
      SubsetCount(taken, AsOld(outbox, id) * bad);
    }
    assert !(taken <= bad);
  }

  lemma StrictCount(a: set<nat>, b: set<nat>, x: nat)
    requires a <= b && x in b && x !in a
    ensures |a| < |b|
  {
    SubsetCount(a + {x}, b);
  }

  lemma StoredKeepsAsOld(s: Progress, t: Turn, bad: set<nat>, id: nat)
    requires s.outbox <= t.stored.outbox && id in PendingIds(s.outbox) && Works(s, t, bad, id)
    ensures AsOld(t.stored.outbox, id) == AsOld(s.outbox, id)
  {
    forall o ensures o in AsOld(t.stored.outbox, id) <==> o in AsOld(s.outbox, id) {
      assert o in PendingIds(s.outbox) ==> t.stored.outbox[o] == s.outbox[o];
    }
  }

  lemma RoundShrinksAsOld(s: Progress, s': Progress, limit: nat, batch: seq<nat>, produce: nat -> Call,
      mark: nat -> Call, id: nat)
    requires IsRound(s, s', limit, batch, produce, mark) && id < |s.outbox|
    ensures AsOld(s'.outbox, id) <= AsOld(s.outbox, id)
    ensures forall x | x in batch && produce(x).Worked? && mark(x).TookEffect() :: x !in AsOld(s'.outbox, id)
  {
    RoundByRow(s, batch, produce, mark, id);
    forall x: nat | x < |s.outbox|
      ensures x in AsOld(s'.outbox, id) ==> x in AsOld(s.outbox, id)
      ensures x in batch && produce(x).Worked? && mark(x).TookEffect() ==> x !in AsOld(s'.outbox, id)
    {
      RoundByRow(s, batch, produce, mark, x);
    }
  }

  lemma ReachedTurn(s: Progress, t: Turn, s': Progress, limit: nat, bad: set<nat>, id: nat)
    requires IsTurn(s, t, s', limit) && Reachable(s.outbox, bad, limit, id) && Works(s, t, bad, id)
    ensures id < |s'.outbox|
    ensures s'.outbox[id].status == Sent
            || (Reachable(s'.outbox, bad, limit, id) && |AsOld(s'.outbox, id)| < |AsOld(s.outbox, id)|)
  {
    StoredKeepsAsOld(s, t, bad, id);
    RoundByRow(t.stored, t.batch, t.produce, t.mark, id);
    if id !in t.batch {
      PassedOver(t.stored.outbox, bad, limit, t.batch, id);
      var x :| x in t.batch && x in AsOld(s.outbox, id) && x !in bad;
      RoundShrinksAsOld(t.stored, s', limit, t.batch, t.produce, t.mark, id);
      StrictCount(AsOld(s'.outbox, id), AsOld(s.outbox, id), x);
      SubsetCount(AsOld(s'.outbox, id) * bad, AsOld(s.outbox, id) * bad);
    }
  }

  lemma SentStays(s: Progress, t: Turn, s': Progress, limit: nat, id: nat)
    requires IsTurn(s, t, s', limit) && id < |s.outbox| && s.outbox[id].status == Sent
    ensures id < |s'.outbox| && s'.outbox[id].status == Sent
  {
    RoundByRow(t.stored, t.batch, t.produce, t.mark, id);
  }

  ghost predicate AllWork(states: seq<Progress>, turns: seq<Turn>, bad: set<nat>, id: nat)
    requires |states| == |turns| + 1
  {
    forall k | 0 <= k < |turns| ::
      id < |states[k].outbox| <= |turns[k].stored.outbox| && Works(states[k], turns[k], bad, id)
  }

  /** A row with fewer than a batch of refused rows as old as it is SENT within one round more than there
      are pending rows as old. */
  lemma {:induction false} ReachedWithin(
      states: seq<Progress>, turns: seq<Turn>, limit: nat, bad: set<nat>, id: nat, k: nat)
    requires AreTurns(states, turns, limit) && AllWork(states, turns, bad, id) && k <= |turns|
    requires Reachable(states[0].outbox, bad, limit, id)
    ensures id < |states[k].outbox|
    ensures states[k].outbox[id].status == Sent
            || (Reachable(states[k].outbox, bad, limit, id)
                && |AsOld(states[k].outbox, id)| + k <= |AsOld(states[0].outbox, id)|)
    ensures k > |AsOld(states[0].outbox, id)| ==> states[k].outbox[id].status == Sent
  {
    if k > 0 {
      ReachedWithin(states, turns, limit, bad, id, k - 1);
      if states[k - 1].outbox[id].status == Sent {
        SentStays(states[k - 1], turns[k - 1], states[k], limit, id);
      } else {
        ReachedTurn(states[k - 1], turns[k - 1], states[k], limit, bad, id);
      }
    }
  }

  // ----- exactly which -----

  /** While the publish of the rows `bad` is refused and everything else works, a waiting row is SENT after
      enough rounds if fewer than `limit` of them are older than it, and never otherwise. (Among equal
      dates the database may choose, so none of them has the row's own date here.) */
  lemma ReachedExactly(states: seq<Progress>, turns: seq<Turn>, limit: nat, bad: set<nat>, id: nat, k: nat)
    requires AreTurns(states, turns, limit) && AllWork(states, turns, bad, id)
    requires forall t | t in turns :: Refuses(t, bad)
    requires bad <= PendingIds(states[0].outbox) && id in PendingIds(states[0].outbox) && id !in bad
    requires forall b | b in bad :: states[0].outbox[b].createdAt != states[0].outbox[id].createdAt
    requires |AsOld(states[0].outbox, id)| < k <= |turns|
    ensures id < |states[k].outbox|
    ensures states[k].outbox[id].status == Sent <==> |AsOld(states[0].outbox, id) * bad| < limit
  {
    var older := AsOld(states[0].outbox, id) * bad;
    if |older| < limit {
      ReachedWithin(states, turns, limit, bad, id, k);
    } else {
      forall t | t in turns ensures Refuses(t, older) {
        assert Refuses(t, bad);
      }
      StuckForever(states, turns, limit, older, id, k);
    }
  }

  function Numbers(n: nat): (r: set<nat>)
    ensures |r| == n && forall x: nat :: x in r <==> x < n
  {
    if n == 0 then {} else Numbers(n - 1) + {n - 1}
  }

  /** For every batch size there is such an outbox: limit + 1 rows, of which all but the last are refused. */
  lemma StuckOutbox(limit: nat, message: Notification)
    ensures var outbox := seq(limit + 1, i requires 0 <= i => Row(message, Pending, 0, i));
            Stuck(outbox, Numbers(limit), limit, limit) && Blocked(outbox, Numbers(limit), limit)
  {
    var outbox := seq(limit + 1, i requires 0 <= i => Row(message, Pending, 0, i));
    forall x | x in Numbers(limit) ensures x in PendingIds(outbox) {
      assert outbox[x].status == Pending;
    }
  }
}
