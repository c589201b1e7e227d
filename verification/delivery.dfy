/** When the calls work, the pipeline delivers everything it owes, in a stated number of rounds and polls. */
module Delivering {
  import opened Domain
  import opened CheckLink
  import opened Pipeline
  import Publisher
  import Consumer
  import Handling

  lemma {:induction false} RunConcat(s: System, a: seq<Event>, b: seq<Event>, maxRetries: nat)
    ensures Run(s, a + b, maxRetries) == Run(Run(s, a, maxRetries), b, maxRetries)
    decreases |b|
  {
    if b == [] {
      assert a + b == a;
    } else {
      assert (a + b)[..|a + b| - 1] == a + b[..|b| - 1];
      RunConcat(s, a, b[..|b| - 1], maxRetries);
    }
  }

  // ----- rounds of the publisher -----

  /** A round in which every call works. */
  function RoundOf(batch: seq<nat>, partition: nat -> nat): seq<Event> {
    [Read(batch)] + RoundEvents(batch, partition, _ => Worked, _ => Worked) + [Produce(0, Worked)]
  }

  function Rounds(batches: seq<seq<nat>>, partition: nat -> nat): seq<Event>
    decreases |batches|
  {
    if batches == [] then [] else
      Rounds(batches[..|batches| - 1], partition) + RoundOf(batches[|batches| - 1], partition)
  }

  /** Each batch is what the publisher reads when its round begins. */
  ghost predicate AreRead(s: System, batches: seq<seq<nat>>, partition: nat -> nat, limit: nat, maxRetries: nat) {
    forall k | 0 <= k < |batches| ::
      Publisher.IsPendingBatch(Run(s, Rounds(batches[..k], partition), maxRetries).db.outbox, limit, batches[k])
  }

  function Left(n: nat, k: nat, limit: nat): nat {
    if n > k * limit then n - k * limit else 0
  }

  lemma RoundIsOver(s: System, batch: seq<nat>, partition: nat -> nat, maxRetries: nat, p: Publisher.Progress)
    requires s.publisher == Next(batch) && p == Publisher.Progress(s.db.outbox, [], map[])
    requires forall i | 0 <= i < |batch| :: batch[i] < |s.db.outbox| && partition(batch[i]) < |s.world.partitions|
    ensures var s' := Run(s, RoundEvents(batch, partition, _ => Worked, _ => Worked), maxRetries);
            && s'.publisher == Next([]) && s'.owed == s.owed && |s'.world.partitions| == |s.world.partitions|
            && s'.db.outbox == Publisher.PublishAll(p, batch, _ => Worked, _ => Worked).outbox
  {
    assert batch + [] == batch;
    RoundIsRun(s, batch, [], partition, _ => Worked, _ => Worked, maxRetries, p);
  }

  lemma RoundOfSteps(s: System, batch: seq<nat>, partition: nat -> nat, maxRetries: nat)
    ensures var s1 := Step(s, Read(batch), maxRetries);
            var s2 := Run(s1, RoundEvents(batch, partition, _ => Worked, _ => Worked), maxRetries);
            Run(s, RoundOf(batch, partition), maxRetries) == Step(s2, Produce(0, Worked), maxRetries)
  {
    var middle := RoundEvents(batch, partition, _ => Worked, _ => Worked);
    assert [Read(batch)][..0] == [];
    RunConcat(s, [Read(batch)], middle, maxRetries);
    RunLast(s, [Read(batch)] + middle, Produce(0, Worked), maxRetries);
  }

  lemma RoundCounts(outbox: seq<Row>, batch: seq<nat>, limit: nat)
    requires Publisher.IsPendingBatch(outbox, limit, batch)
    ensures forall i | 0 <= i < |batch| :: batch[i] < |outbox|
    ensures var p := Publisher.Progress(outbox, [], map[]);
            |Publisher.PendingIds(Publisher.PublishAll(p, batch, _ => Worked, _ => Worked).outbox)|
            == Left(|Publisher.PendingIds(outbox)|, 1, limit)
  {
    var p := Publisher.Progress(outbox, [], map[]);
    Publisher.GoodRound(p, Publisher.PublishAll(p, batch, _ => Worked, _ => Worked), limit, batch);
  }

  lemma ReadTakes(s: System, batch: seq<nat>, maxRetries: nat)
    requires s.publisher.Idle? && forall i | 0 <= i < |batch| :: batch[i] in Publisher.PendingIds(s.db.outbox)
    ensures Step(s, Read(batch), maxRetries) == s.(publisher := Next(batch))
  {}

  lemma ProduceEnds(s: System, maxRetries: nat)
    requires s.publisher == Next([])
    ensures Step(s, Produce(0, Worked), maxRetries) == s.(publisher := Idle)
  {}

  lemma RoundWorks(s: System, batch: seq<nat>, partition: nat -> nat, limit: nat, maxRetries: nat)
    requires s.publisher.Idle? && Publisher.IsPendingBatch(s.db.outbox, limit, batch)
    requires forall id :: partition(id) < |s.world.partitions|
    ensures var s' := Run(s, RoundOf(batch, partition), maxRetries);
            && s'.publisher.Idle? && s'.owed == s.owed && |s'.world.partitions| == |s.world.partitions|
            && |Publisher.PendingIds(s'.db.outbox)| == Left(|Publisher.PendingIds(s.db.outbox)|, 1, limit)
  {
    var s1 := s.(publisher := Next(batch));
    RoundCounts(s.db.outbox, batch, limit);
    RoundOfSteps(s, batch, partition, maxRetries);
    ReadTakes(s, batch, maxRetries);
    RoundIsOver(s1, batch, partition, maxRetries, Publisher.Progress(s.db.outbox, [], map[]));
    ProduceEnds(Run(s1, RoundEvents(batch, partition, _ => Worked, _ => Worked), maxRetries), maxRetries);
  }

  lemma RunLast(s: System, events: seq<Event>, e: Event, maxRetries: nat)
    ensures Run(s, events + [e], maxRetries) == Step(Run(s, events, maxRetries), e, maxRetries)
  {
    assert (events + [e])[..|events|] == events;
  }

  /** k rounds leave max(0, n - k * limit) rows pending, whichever of the oldest rows each of them reads. */
  lemma {:induction false} RoundsDrain(
      s: System, batches: seq<seq<nat>>, partition: nat -> nat, limit: nat, maxRetries: nat, k: nat)
    requires s.publisher.Idle? && AreRead(s, batches, partition, limit, maxRetries) && k <= |batches|
    requires forall id :: partition(id) < |s.world.partitions|
    ensures var s' := Run(s, Rounds(batches[..k], partition), maxRetries);
            && s'.publisher.Idle? && s'.owed == s.owed && |s'.world.partitions| == |s.world.partitions|
            && |Publisher.PendingIds(s'.db.outbox)| == Left(|Publisher.PendingIds(s.db.outbox)|, k, limit)
  {
    if k > 0 {
      RoundsDrain(s, batches, partition, limit, maxRetries, k - 1);
      assert batches[..k][..k - 1] == batches[..k - 1];
      var before := Run(s, Rounds(batches[..k - 1], partition), maxRetries);
      RunConcat(s, Rounds(batches[..k - 1], partition), RoundOf(batches[k - 1], partition), maxRetries);
      RoundWorks(before, batches[k - 1], partition, limit, maxRetries);
      LeftStep(|Publisher.PendingIds(s.db.outbox)|, k, limit);
    }
  }

  lemma OneMoreRead(s: System, before: seq<seq<nat>>, batch: seq<nat>, partition: nat -> nat, limit: nat,
      maxRetries: nat)
    requires AreRead(s, before, partition, limit, maxRetries)
    requires Publisher.IsPendingBatch(Run(s, Rounds(before, partition), maxRetries).db.outbox, limit, batch)
    ensures AreRead(s, before + [batch], partition, limit, maxRetries)
  {
    var batches := before + [batch];
    assert batches[..|before|] == before;
    assert forall j | 0 <= j < |before| :: batches[..j] == before[..j];
  }

  /** There are such rounds from every state. */
  lemma {:induction false} RoundsExist(s: System, partition: nat -> nat, limit: nat, maxRetries: nat, k: nat)
    ensures exists batches :: |batches| == k && AreRead(s, batches, partition, limit, maxRetries)
  {
    if k == 0 {
      assert AreRead(s, [], partition, limit, maxRetries);
    } else {
      RoundsExist(s, partition, limit, maxRetries, k - 1);
      var before :| |before| == k - 1 && AreRead(s, before, partition, limit, maxRetries);
      var outbox := Run(s, Rounds(before, partition), maxRetries).db.outbox;
      Publisher.BatchExists(outbox, limit);
      var batch :| Publisher.IsPendingBatch(outbox, limit, batch);
      OneMoreRead(s, before, batch, partition, limit, maxRetries);
      assert |before + [batch]| == k;
    }
  }

  lemma LeftStep(n: nat, k: nat, limit: nat)
    requires k > 0
    ensures Left(n, k, limit) == Left(Left(n, k - 1, limit), 1, limit)
  {
    assert k * limit == (k - 1) * limit + limit && 0 <= (k - 1) * limit;
  }

  // ----- polls of the consumer -----

  /** A poll of a partition, with what its record meets. */
  datatype OnePoll = OnePoll(partition: nat, conditions: Consumer.Conditions)

  /** The dead letter publish and the commit work; the sends need not. */
  predicate Settles(p: OnePoll) {
    p.conditions.deadLetter.Worked? && p.conditions.commit.Worked?
  }

  function Polls(w: Consumer.World, polls: seq<OnePoll>, maxRetries: nat): Consumer.World
    decreases |polls|
  {
    if polls == [] then w else
      var p := polls[|polls| - 1];
      Consumer.Step(Polls(w, polls[..|polls| - 1], maxRetries), Consumer.Poll(p.partition, p.conditions), maxRetries)
  }

  function PollEvents(polls: seq<OnePoll>): seq<Event> {
    seq(|polls|, i requires 0 <= i < |polls| => Bot(Consumer.Poll(polls[i].partition, polls[i].conditions)))
  }

  lemma BotStep(s: System, w: Consumer.World, e: Consumer.Event, maxRetries: nat)
    ensures Step(s.(world := w), Bot(e), maxRetries) == s.(world := Consumer.Step(w, e, maxRetries))
  {}

  lemma {:induction false} PollsAreRun(s: System, polls: seq<OnePoll>, maxRetries: nat)
    ensures Run(s, PollEvents(polls), maxRetries) == s.(world := Polls(s.world, polls, maxRetries))
    decreases |polls|
  {
    if polls != [] {
      var n := |polls| - 1;
      PollsAreRun(s, polls[..n], maxRetries);
      var last := Bot(Consumer.Poll(polls[n].partition, polls[n].conditions));
      assert PollEvents(polls) == PollEvents(polls[..n]) + [last];
      RunLast(s, PollEvents(polls[..n]), last, maxRetries);
      BotStep(s, Polls(s.world, polls[..n], maxRetries), last.event, maxRetries);
    }
  }

  function Count(polls: seq<OnePoll>, i: nat): nat {
    if polls == [] then 0 else
      Count(polls[..|polls| - 1], i) + if polls[|polls| - 1].partition == i then 1 else 0
  }

  function Least(a: nat, b: nat): nat {
    if a < b then a else b
  }

  /** The partition after some settled polls. */
  predicate Advanced(before: Consumer.Partition, now: Consumer.Partition, polls: nat) {
    now.log == before.log && now.committed == now.position == Least(|before.log|, before.committed + polls)
  }

  lemma SettledPoll(w: Consumer.World, p: OnePoll, maxRetries: nat)
    requires w.running && Settles(p) && p.partition < |w.partitions|
    requires w.partitions[p.partition].position < |w.partitions[p.partition].log|
    ensures var q := w.partitions[p.partition];
            var w' := Consumer.Step(w, Consumer.Poll(p.partition, p.conditions), maxRetries);
            && w'.running
            && w'.partitions == w.partitions[p.partition := Consumer.Partition(q.log, q.position + 1, q.position + 1)]
  {}

  /** Each settled poll commits one more record of its partition, until there is none. */
  lemma {:induction false} PollsAdvance(w: Consumer.World, polls: seq<OnePoll>, maxRetries: nat)
    requires w.running && forall p | p in polls :: Settles(p)
    requires forall i | 0 <= i < |w.partitions| ::
               w.partitions[i].committed == w.partitions[i].position <= |w.partitions[i].log|
    ensures var w' := Polls(w, polls, maxRetries);
            && w'.running && |w'.partitions| == |w.partitions|
            && forall i | 0 <= i < |w.partitions| :: Advanced(w.partitions[i], w'.partitions[i], Count(polls, i))
    decreases |polls|
  {
    if polls != [] {
      var n := |polls| - 1;
      var p := polls[n];
      assert p in polls;
      PollsAdvance(w, polls[..n], maxRetries);
      var before := Polls(w, polls[..n], maxRetries);
      if p.partition < |w.partitions|
          && before.partitions[p.partition].position < |before.partitions[p.partition].log| {
        SettledPoll(before, p, maxRetries);
      }
    }
  }

  // ----- everything owed is delivered -----

  /** Every chat of the notification has received it, or it is in the dead letter topic. */
  ghost predicate DeliveredOrDead(w: Consumer.World, n: Notification) {
    || (forall chat | chat in n.chats :: Consumer.Delivery(chat, n) in w.delivered)
    || (exists at :: At(w, n, at) && at in w.dead)
  }

  /** Each partition is polled as often as it has uncommitted records, and every poll settles its record. */
  ghost predicate EnoughPolls(w: Consumer.World, polls: seq<OnePoll>) {
    && (forall p | p in polls :: Settles(p))
    && forall i | 0 <= i < |w.partitions| :: |w.partitions[i].log| - w.partitions[i].committed <= Count(polls, i)
  }

  /** The batches are those of as many rounds as the pending rows need. */
  ghost predicate EnoughRounds(s: System, batches: seq<seq<nat>>, partition: nat -> nat, limit: nat, maxRetries: nat) {
    && (forall id :: partition(id) < |s.world.partitions|)
    && AreRead(s, batches, partition, limit, maxRetries)
    && |Publisher.PendingIds(s.db.outbox)| <= |batches| * limit
  }

  /** From any reachable state, with the publisher's old round abandoned: after enough rounds that work, a
      restart of the consumer and enough polls with dead letter publishes and commits that work, every
      notification owed has reached all its chats or is in the dead letter topic. */
  lemma EverythingOwedIsDelivered(
      s: System, events: seq<Event>, batches: seq<seq<nat>>, partition: nat -> nat, limit: nat,
      polls: seq<OnePoll>, maxRetries: nat, n: Notification)
    requires Initial(s)
    ensures var stopped := Step(Run(s, events, maxRetries), StopPublisher, maxRetries);
            var published := events + [StopPublisher] + Rounds(batches, partition);
            var all := published + [Bot(Consumer.Restart)] + PollEvents(polls);
            n in stopped.owed && EnoughRounds(stopped, batches, partition, limit, maxRetries)
            && EnoughPolls(Run(s, published, maxRetries).world, polls)
            ==> DeliveredOrDead(Run(s, all, maxRetries).world, n)
  {
    var stopped := Step(Run(s, events, maxRetries), StopPublisher, maxRetries);
    var published := events + [StopPublisher] + Rounds(batches, partition);
    if n in stopped.owed && EnoughRounds(stopped, batches, partition, limit, maxRetries)
       && EnoughPolls(Run(s, published, maxRetries).world, polls) {
      RunLast(s, events, StopPublisher, maxRetries);
      RunConcat(s, events + [StopPublisher], Rounds(batches, partition), maxRetries);
      RoundsDrain(stopped, batches, partition, limit, maxRetries, |batches|);
      assert batches[..|batches|] == batches;
      ConsumedMeansDelivered(s, published, polls, maxRetries, n);
    }
  }

  // ----- and without the dead letter topic -----

  /** The record at a place of the topic. */
  function RecordAt(w: Consumer.World, at: Consumer.Place): Option<Consumer.Message> {
    if at.partition < |w.partitions| && at.offset < |w.partitions[at.partition].log|
    then Some(w.partitions[at.partition].log[at.offset]) else None
  }

  /** No place with this record is in the dead letter topic. */
  ghost predicate NotBuried(w: Consumer.World, n: Notification) {
    forall at | at in w.dead :: RecordAt(w, at).Some? && RecordAt(w, at) != Some(Consumer.Decoded(n))
  }

  /** Whenever a poll reads, one of the attempts it would make for as many chats has no failing send. */
  ghost predicate SendsWork(events: seq<Event>, chats: nat, maxRetries: nat) {
    forall i | 0 <= i < |events| && events[i].Bot? && events[i].event.Poll? ::
      SomeAttemptWorks(chats, events[i].event.conditions, maxRetries)
  }

  ghost predicate SomeAttemptWorks(chats: nat, c: Consumer.Conditions, maxRetries: nat) {
    exists a: nat :: Consumer.IsMade(chats, c, maxRetries, a) && Consumer.AllSends(chats, c, a)
  }

  lemma PollBuriesOthers(w: Consumer.World, e: Consumer.Event, maxRetries: nat, n: Notification)
    requires Consumer.Inv(w) && NotBuried(w, n) && n.update.url != "" && n.chats != []
    requires e.Poll? ==> SomeAttemptWorks(|n.chats|, e.conditions, maxRetries)
    ensures NotBuried(Consumer.Step(w, e, maxRetries), n)
  {
    var w' := Consumer.Step(w, e, maxRetries);
    Consumer.StepKeeps(w, e, maxRetries);
    forall at | at in w'.dead
      ensures RecordAt(w', at).Some? && RecordAt(w', at) != Some(Consumer.Decoded(n))
    {
      Handling.OneStep(w, e, maxRetries, at);
    }
  }

  lemma StepBuriesOthers(s: System, e: Event, maxRetries: nat, n: Notification)
    requires Inv(s) && NotBuried(s.world, n) && n.update.url != "" && n.chats != []
    requires e.Bot? && e.event.Poll? ==> SomeAttemptWorks(|n.chats|, e.event.conditions, maxRetries)
    ensures NotBuried(Step(s, e, maxRetries).world, n)
  {
    match e
    case Bot(event) => PollBuriesOthers(s.world, event, maxRetries, n);
    case _ =>
  }

  /** A record whose sends work in some attempt of every poll never enters the dead letter topic. */
  lemma {:induction false} NeverBuried(s: System, events: seq<Event>, maxRetries: nat, n: Notification)
    requires Initial(s) && n.update.url != "" && n.chats != [] && SendsWork(events, |n.chats|, maxRetries)
    ensures NotBuried(Run(s, events, maxRetries).world, n)
  {
    if events != [] {
      var before := events[..|events| - 1];
      RunKeeps(s, before, maxRetries);
      NeverBuried(s, before, maxRetries, n);
      StepBuriesOthers(Run(s, before, maxRetries), events[|events| - 1], maxRetries, n);
    }
  }

  /** When moreover in each poll of the run some attempt has no failing send, whatever is owed has reached
      every chat it is for. */
  lemma EverythingOwedIsReceived(
      s: System, events: seq<Event>, batches: seq<seq<nat>>, partition: nat -> nat, limit: nat,
      polls: seq<OnePoll>, maxRetries: nat, n: Notification, chat: int)
    requires Initial(s) && n.update.url != "" && chat in n.chats
    ensures var stopped := Step(Run(s, events, maxRetries), StopPublisher, maxRetries);
            var published := events + [StopPublisher] + Rounds(batches, partition);
            var all := published + [Bot(Consumer.Restart)] + PollEvents(polls);
            n in stopped.owed && EnoughRounds(stopped, batches, partition, limit, maxRetries)
            && EnoughPolls(Run(s, published, maxRetries).world, polls) && SendsWork(all, |n.chats|, maxRetries)
            ==> Consumer.Delivery(chat, n) in Run(s, all, maxRetries).world.delivered
  {
    var published := events + [StopPublisher] + Rounds(batches, partition);
    var all := published + [Bot(Consumer.Restart)] + PollEvents(polls);
    EverythingOwedIsDelivered(s, events, batches, partition, limit, polls, maxRetries, n);
    if SendsWork(all, |n.chats|, maxRetries) {
      NeverBuried(s, all, maxRetries, n);
    }
  }

  lemma NothingPending(outbox: seq<Row>)
    requires |Publisher.PendingIds(outbox)| == 0
    ensures Publisher.PendingIds(outbox) == {}
  {}

  lemma ConsumedMeansDelivered(s: System, published: seq<Event>, polls: seq<OnePoll>, maxRetries: nat, n: Notification)
    requires Initial(s)
    ensures var s2 := Run(s, published, maxRetries);
            n in s2.owed && |Publisher.PendingIds(s2.db.outbox)| == 0 && EnoughPolls(s2.world, polls)
            ==> DeliveredOrDead(Run(s, published + [Bot(Consumer.Restart)] + PollEvents(polls), maxRetries).world, n)
  {
    var s2 := Run(s, published, maxRetries);
    var s3 := Step(s2, Bot(Consumer.Restart), maxRetries);
    if n in s2.owed && |Publisher.PendingIds(s2.db.outbox)| == 0 && EnoughPolls(s2.world, polls) {
      RunKeeps(s, published, maxRetries);
      RunLast(s, published, Bot(Consumer.Restart), maxRetries);
      RunConcat(s, published + [Bot(Consumer.Restart)], PollEvents(polls), maxRetries);
      PollsAreRun(s3, polls, maxRetries);
      NothingPending(s2.db.outbox);
      AllConsumed(s2.world, polls, maxRetries);
      DrainedMeansDelivered(s, published + [Bot(Consumer.Restart)] + PollEvents(polls), maxRetries, n);
    }
  }

  /** After a restart and enough polls every record is committed. */
  lemma AllConsumed(w: Consumer.World, polls: seq<OnePoll>, maxRetries: nat)
    requires Consumer.Inv(w) && EnoughPolls(w, polls)
    ensures var w' := Polls(Consumer.Step(w, Consumer.Restart, maxRetries), polls, maxRetries);
            forall i | 0 <= i < |w'.partitions| :: w'.partitions[i].committed == |w'.partitions[i].log|
  {
    var restarted := Consumer.Step(w, Consumer.Restart, maxRetries);
    PollsAdvance(restarted, polls, maxRetries);
    var w' := Polls(restarted, polls, maxRetries);
    forall i | 0 <= i < |w'.partitions| ensures w'.partitions[i].committed == |w'.partitions[i].log| {
      assert Advanced(restarted.partitions[i], w'.partitions[i], Count(polls, i));
    }
  }
}
