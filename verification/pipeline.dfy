/** The whole way of a notification: link check, outbox, publisher, topic, consumer, with every process
    able to fail or stop between any two of its effects. */
module Pipeline {
  import opened Domain
  import opened CheckLink
  import Fetch
  import Publisher
  import Consumer

  /** Where the publisher is: between rounds, before a produce, or after one and before its mark. */
  datatype PublisherAt = Idle | Next(batch: seq<nat>) | Produced(id: nat, acknowledged: bool, rest: seq<nat>)

  /** The scrapper's database, the publisher, the topic with its consumer, and the notifications owed: a
      record of what the watermark has passed, which no step reads. */
  datatype System = System(db: State, publisher: PublisherAt, world: Consumer.World, owed: set<Notification>)

  /** One effect of one process. A check writes once, so it is one event; its link is whatever row it read
      earlier, however old. `Read` may return any pending rows. `Bot` covers the consumer and every other
      producer on the topic. */
  datatype Event =
    | Add(link: int)
    | Check(row: Link, conditions: Conditions)
    | Read(batch: seq<nat>)
    | Produce(partition: nat, produce: Call)
    | Mark(mark: Call)
    | StopPublisher
    | Bot(event: Consumer.Event)

  /** What a check owes: when it moved the watermark past the baseline and saw subscribers, every post of
      its page dated after the watermark it read and up to the one it stored. */
  function Owes(before: State, after: State, row: Link, c: Conditions): set<Notification> {
    if after == before || row.lastUpdatedAt == ZERO_TIME || row.id !in after.marks
       || c.page.None? || c.subscribers.None? || c.subscribers.value == [] then {}
    else
      var passed := set u | u in c.page.value && row.lastUpdatedAt < u.createdAt <= after.marks[row.id];
      set u | u in passed :: Notification(u, c.subscribers.value)
  }

  function Append(w: Consumer.World, partition: nat, n: Notification): Consumer.World {
    if partition < |w.partitions| then
      var p := w.partitions[partition];
      w.(partitions := w.partitions[partition := p.(log := p.log + [Consumer.Decoded(n)])])
    else w
  }

  function Step(s: System, e: Event, maxRetries: nat): System {
    match e
    case Add(link) => s.(db := s.db.(marks := s.db.marks[link := ZERO_TIME]))
    case Check(row, c) =>
      var after := CheckLink.Check(true, s.db, row, c).0;
      s.(db := after, owed := s.owed + Owes(s.db, after, row, c))
    case Read(batch) =>
      if s.publisher.Idle? && forall i | 0 <= i < |batch| :: batch[i] in Publisher.PendingIds(s.db.outbox)
      then s.(publisher := Next(batch)) else s
    case Produce(partition, call) =>
      if s.publisher.Next? && s.publisher.batch != [] && s.publisher.batch[0] < |s.db.outbox|
          && partition < |s.world.partitions| then
        var id := s.publisher.batch[0];
        s.(publisher := Produced(id, call.Reported(), s.publisher.batch[1..]),
           world := if call.TookEffect() then Append(s.world, partition, s.db.outbox[id].message) else s.world)
      else if s.publisher.Next? && s.publisher.batch == [] then s.(publisher := Idle)
      else s
    case Mark(call) =>
      if s.publisher.Produced? && s.publisher.id < |s.db.outbox| then
        var id, r := s.publisher.id, s.db.outbox[s.publisher.id];
        var marked := if s.publisher.acknowledged then r.(status := Sent) else r.(attempts := r.attempts + 1);
        s.(publisher := Next(s.publisher.rest),
           db := if call.TookEffect() then s.db.(outbox := s.db.outbox[id := marked]) else s.db)
      else s
    case StopPublisher => s.(publisher := Idle)
    case Bot(event) => s.(world := Consumer.Step(s.world, event, maxRetries))
  }

  function Run(s: System, events: seq<Event>, maxRetries: nat): System {
    if events == [] then s else Step(Run(s, events[..|events| - 1], maxRetries), events[|events| - 1], maxRetries)
  }

  // ----- nothing is lost -----

  ghost predicate At(w: Consumer.World, n: Notification, at: Consumer.Place) {
    && at.partition < |w.partitions| && at.offset < |w.partitions[at.partition].log|
    && w.partitions[at.partition].log[at.offset] == Consumer.Decoded(n)
  }

  ghost predicate InTopic(w: Consumer.World, n: Notification) {
    exists at :: At(w, n, at)
  }

  ghost predicate HasRow(db: State, n: Notification) {
    exists id :: 0 <= id < |db.outbox| && db.outbox[id].message == n
  }

  ghost predicate Inv(s: System) {
    && Consumer.Inv(s.world)
    && (forall n | n in s.owed :: HasRow(s.db, n))
    && (forall id | 0 <= id < |s.db.outbox| ::
          s.db.outbox[id].status == Pending || InTopic(s.world, s.db.outbox[id].message))
    && (s.publisher.Produced? ==>
          s.publisher.id < |s.db.outbox|
          && (s.publisher.acknowledged ==> InTopic(s.world, s.db.outbox[s.publisher.id].message)))
  }

  /** Where an owed notification is: a pending row; or a record of the topic that is still to be read, or
      is in the dead letter topic, or was handled, and then every chat it is for has received it. */
  ghost predicate Accounted(s: System, n: Notification) {
    || (exists id :: 0 <= id < |s.db.outbox| && s.db.outbox[id].message == n && s.db.outbox[id].status == Pending)
    || (exists at :: At(s.world, n, at) && SafeAt(s.world, n, at))
  }

  ghost predicate SafeAt(w: Consumer.World, n: Notification, at: Consumer.Place)
    requires at.partition < |w.partitions|
  {
    || at.offset >= w.partitions[at.partition].committed
    || at in w.dead
    || (at in w.handled && forall chat | chat in n.chats :: Consumer.Delivery(chat, n) in w.delivered)
  }

  lemma InTopicGrows(w: Consumer.World, w': Consumer.World, n: Notification)
    requires Consumer.Grows(w, w') && InTopic(w, n)
    ensures InTopic(w', n)
  {
    var at :| At(w, n, at);
    assert At(w', n, at);
  }

  lemma AppendKeeps(w: Consumer.World, partition: nat, n: Notification)
    requires Consumer.Inv(w) && partition < |w.partitions|
    ensures Consumer.Inv(Append(w, partition, n)) && Consumer.Grows(w, Append(w, partition, n))
    ensures InTopic(Append(w, partition, n), n)
  {
    Consumer.StepKeeps(w, Consumer.Append(partition, Consumer.Decoded(n)), 0);
    assert Append(w, partition, n) == Consumer.Step(w, Consumer.Append(partition, Consumer.Decoded(n)), 0);
    assert At(Append(w, partition, n), n, Consumer.Place(partition, |w.partitions[partition].log|));
  }

  /** The rows of a check are there as soon as the watermark has moved: what it owes has its row. */
  lemma CheckStores(s: State, row: Link, c: Conditions)
    ensures var after := CheckLink.Check(true, s, row, c).0;
            && s.outbox <= after.outbox
            && (forall id | |s.outbox| <= id < |after.outbox| :: after.outbox[id].status == Pending)
            && (forall n | n in Owes(s, after, row, c) :: HasRow(after, n))
  {
    var after := CheckLink.Check(true, s, row, c).0;
    forall n | n in Owes(s, after, row, c) ensures HasRow(after, n) {
      OwedIsWritten(s, row, c);
      var updates := Fetch.NewUpdates(c.page.value, row.lastUpdatedAt);
      Fetch.NewUpdatesMember(c.page.value, row.lastUpdatedAt, n.update);
      var i :| 0 <= i < |updates| && updates[i] == n.update;
      assert after.outbox[|s.outbox| + i].message == n;
    }
  }

  lemma OwedIsWritten(s: State, row: Link, c: Conditions)
    requires Owes(s, CheckLink.Check(true, s, row, c).0, row, c) != {}
    ensures c.parses && c.page.Some? && c.subscribers.Some? && row.lastUpdatedAt != ZERO_TIME
    ensures CheckLink.Check(true, s, row, c).0.outbox
            == s.outbox + Rows(Notifications(Fetch.NewUpdates(c.page.value, row.lastUpdatedAt), c.subscribers.value),
                c.stamps)
  {}

  lemma StepKeeps(s: System, e: Event, maxRetries: nat)
    requires Inv(s)
    ensures Inv(Step(s, e, maxRetries))
  {
    var s' := Step(s, e, maxRetries);
    match e
    case Check(row, c) =>
      CheckStores(s.db, row, c);
      forall n | n in s'.owed ensures HasRow(s'.db, n) {
        if n in s.owed {
          var id :| 0 <= id < |s.db.outbox| && s.db.outbox[id].message == n;
          assert s'.db.outbox[id].message == n;
        }
      }
    case Produce(partition, call) =>
      if s'.world != s.world {
        AppendKeeps(s.world, partition, s.db.outbox[s.publisher.batch[0]].message);
        forall id | 0 <= id < |s.db.outbox| && InTopic(s.world, s.db.outbox[id].message) {
          InTopicGrows(s.world, s'.world, s.db.outbox[id].message);
        }
      }
    case Mark(call) =>
      forall n | n in s'.owed ensures HasRow(s'.db, n) {
        var id :| 0 <= id < |s.db.outbox| && s.db.outbox[id].message == n;
        assert s'.db.outbox[id].message == n;
      }
    case Bot(event) =>
      Consumer.StepKeeps(s.world, event, maxRetries);
      forall id | 0 <= id < |s.db.outbox| && InTopic(s.world, s.db.outbox[id].message) {
        InTopicGrows(s.world, s'.world, s.db.outbox[id].message);
      }
    case _ =>
  }

  lemma OwedIsAccounted(s: System, n: Notification)
    requires Inv(s) && n in s.owed
    ensures Accounted(s, n)
  {
    var id :| 0 <= id < |s.db.outbox| && s.db.outbox[id].message == n;
    if s.db.outbox[id].status != Pending {
      var at :| At(s.world, n, at);
      if at.offset < s.world.partitions[at.partition].committed {
        assert Consumer.Settled(s.world, Consumer.Place(at.partition, at.offset));
        if at !in s.world.dead {
          assert Consumer.HandledProperly(s.world, at);
        }
      }
      assert SafeAt(s.world, n, at);
    }
  }

  predicate Initial(s: System) {
    s.db.outbox == [] && s.publisher == Idle && Consumer.Fresh(s.world) && s.owed == {}
  }

  lemma {:induction false} RunKeeps(s: System, events: seq<Event>, maxRetries: nat)
    requires Initial(s)
    ensures Inv(Run(s, events, maxRetries))
  {
    if events == [] {
      Consumer.CommittedPrefix(s.world, [], maxRetries);
    } else {
      RunKeeps(s, events[..|events| - 1], maxRetries);
      StepKeeps(Run(s, events[..|events| - 1], maxRetries), events[|events| - 1], maxRetries);
    }
  }

  /** What a check puts into debt when its calls work: with subscribers and past the baseline, every post of
      its page dated after the watermark it read, for exactly those subscribers. */
  lemma CheckOwes(s: System, row: Link, c: Conditions, maxRetries: nat, u: Update)
    requires c.parses && c.page.Some? && u in c.page.value && row.lastUpdatedAt < u.createdAt
    requires c.subscribers.Some? && c.subscribers.value != [] && c.write.Worked? && row.lastUpdatedAt > ZERO_TIME
    requires row.id in s.db.marks && forall v | v in c.page.value :: c.encodes(v)
    ensures Notification(u, c.subscribers.value) in Step(s, Check(row, c), maxRetries).owed
  {
    var news := Fetch.NewUpdates(c.page.value, row.lastUpdatedAt);
    Fetch.LatestIsMaximum(news, row.lastUpdatedAt);
    Fetch.NewUpdatesMember(c.page.value, row.lastUpdatedAt, u);
    forall v | v in news ensures c.encodes(v) {
      Fetch.NewUpdatesMember(c.page.value, row.lastUpdatedAt, v);
    }
    var rows := Rows(Notifications(news, c.subscribers.value), c.stamps);
    var after := CheckLink.Check(true, s.db, row, c).0;
    assert after == SaveUpdates(s.db, row.id, Fetch.Latest(news, row.lastUpdatedAt), rows, c.write);
    assert |after.outbox| > |s.db.outbox|;
  }

  /** No silent loss: in every reachable state, whatever failed, stopped or was not acknowledged, each
      notification the watermark has passed is accounted for. */
  lemma NoSilentLoss(s: System, events: seq<Event>, maxRetries: nat, n: Notification)
    requires Initial(s) && n in Run(s, events, maxRetries).owed
    ensures Accounted(Run(s, events, maxRetries), n)
  {
    RunKeeps(s, events, maxRetries);
    OwedIsAccounted(Run(s, events, maxRetries), n);
  }

  /** Once no row is pending and everything is committed, each owed notification was received by every
      chat it is for, or is in the dead letter topic. */
  lemma DrainedMeansDelivered(s: System, events: seq<Event>, maxRetries: nat, n: Notification)
    requires Initial(s) && n in Run(s, events, maxRetries).owed
    requires var s' := Run(s, events, maxRetries);
             && Publisher.PendingIds(s'.db.outbox) == {}
             && forall i | 0 <= i < |s'.world.partitions| ::
                  s'.world.partitions[i].committed == |s'.world.partitions[i].log|
    ensures var w := Run(s, events, maxRetries).world;
            || (forall chat | chat in n.chats :: Consumer.Delivery(chat, n) in w.delivered)
            || (exists at :: At(w, n, at) && at in w.dead)
  {
    NoSilentLoss(s, events, maxRetries, n);
    var s' := Run(s, events, maxRetries);
    forall id | 0 <= id < |s'.db.outbox| ensures s'.db.outbox[id].status != Pending {
      assert id !in Publisher.PendingIds(s'.db.outbox);
    }
    var at :| At(s'.world, n, at) && SafeAt(s'.world, n, at);
    assert at.offset < s'.world.partitions[at.partition].committed;
  }

  // ----- a round of the publisher is a run of these steps -----

  function RoundEvents(batch: seq<nat>, partition: nat -> nat, produce: nat -> Call, mark: nat -> Call): seq<Event> {
    if batch == [] then [] else
      var id := batch[|batch| - 1];
      RoundEvents(batch[..|batch| - 1], partition, produce, mark)
          + [Produce(partition(id), produce(id)), Mark(mark(id))]
  }

  lemma RunTwo(s: System, events: seq<Event>, a: Event, b: Event, maxRetries: nat)
    ensures Run(s, events + [a, b], maxRetries) == Step(Step(Run(s, events, maxRetries), a, maxRetries), b, maxRetries)
  {
    assert (events + [a, b])[..|events| + 1] == events + [a];
    assert (events + [a])[..|events|] == events;
  }

  /** The messages of some rows appended to the topic, each to the partition of its row. */
  function AppendEach(w: Consumer.World, ids: seq<nat>, partition: nat -> nat, outbox: seq<Row>): (w': Consumer.World)
    ensures |w'.partitions| == |w.partitions|
    decreases |ids|
  {
    if ids == [] then w else
      var id := ids[|ids| - 1];
      var before := AppendEach(w, ids[..|ids| - 1], partition, outbox);
      if id < |outbox| then Append(before, partition(id), outbox[id].message) else before
  }

  lemma AppendOne(w: Consumer.World, ids: seq<nat>, id: nat, partition: nat -> nat, outbox: seq<Row>)
    requires id < |outbox|
    ensures AppendEach(w, ids + [id], partition, outbox)
            == Append(AppendEach(w, ids, partition, outbox), partition(id), outbox[id].message)
  {
    assert (ids + [id])[..|ids|] == ids;
  }

  /** One message of a round: its produce and its mark do to the outbox what PublishOne does, and to the
      topic what Append does if the produce takes effect. */
  lemma OneMessage(s: System, partition: nat, produce: Call, mark: Call, maxRetries: nat, p: Publisher.Progress)
    requires s.publisher.Next? && s.publisher.batch != [] && s.publisher.batch[0] < |s.db.outbox| == |p.outbox|
    requires partition < |s.world.partitions| && p.outbox == s.db.outbox
    ensures var id := s.publisher.batch[0];
            var s' := Step(Step(s, Produce(partition, produce), maxRetries), Mark(mark), maxRetries);
            && s'.publisher == Next(s.publisher.batch[1..]) && s'.owed == s.owed
            && s'.db == s.db.(outbox := Publisher.PublishOne(p, id, produce, mark).outbox)
            && s'.world == if produce.TookEffect() then Append(s.world, partition, s.db.outbox[id].message) else s.world
  {}

  lemma {:induction false} RoundSteps(
    s: System, batch: seq<nat>, rest: seq<nat>, partition: nat -> nat, produce: nat -> Call, mark: nat -> Call,
    maxRetries: nat, p: Publisher.Progress)
    requires s.publisher == Next(batch + rest) && p.outbox == s.db.outbox
    requires forall i | 0 <= i < |batch| :: batch[i] < |p.outbox| && partition(batch[i]) < |s.world.partitions|
    ensures var s' := Run(s, RoundEvents(batch, partition, produce, mark), maxRetries);
            && s'.publisher == Next(rest) && s'.owed == s.owed
            && s'.db == s.db.(outbox := Publisher.PublishAll(p, batch, produce, mark).outbox)
            && s'.world == AppendEach(s.world, Publisher.Reached(batch, produce), partition, p.outbox)
  {
    if batch == [] {
      assert batch + rest == rest;
    } else {
      var n := |batch| - 1;
      var id, before := batch[n], batch[..n];
      assert batch + rest == before + ([id] + rest);
      assert forall i | 0 <= i < n :: before[i] == batch[i];
      RoundSteps(s, before, [id] + rest, partition, produce, mark, maxRetries, p);
      RoundKeepsMessages(p, before, produce, mark, id);
      var s1 := Run(s, RoundEvents(before, partition, produce, mark), maxRetries);
      RoundLast(s, before, id, rest, partition, produce, mark, maxRetries, p, s1);
      RoundEventsLast(s, before, id, partition, produce, mark, maxRetries);
      assert before + [id] == batch;
    }
  }

  /** PublishPending, seen from the pipeline: whatever its calls do, a round leaves the outbox that the
      produce and mark steps of its batch leave, so every point between them is a state of some run; and it
      appends to the partition logs the messages of the rows whose produce took effect, in the order in
      which the publisher's own account of the topic lists them. */
  lemma RoundIsRun(
    s: System, batch: seq<nat>, rest: seq<nat>, partition: nat -> nat, produce: nat -> Call, mark: nat -> Call,
    maxRetries: nat, p: Publisher.Progress)
    requires s.publisher == Next(batch + rest) && p.outbox == s.db.outbox
    requires forall i | 0 <= i < |batch| :: batch[i] < |p.outbox| && partition(batch[i]) < |s.world.partitions|
    ensures var s' := Run(s, RoundEvents(batch, partition, produce, mark), maxRetries);
            var p' := Publisher.PublishAll(p, batch, produce, mark);
            && s'.publisher == Next(rest) && s'.owed == s.owed
            && s'.db == s.db.(outbox := p'.outbox)
            && s'.world == AppendEach(s.world, Publisher.Reached(batch, produce), partition, p.outbox)
            && p'.topic == p.topic + Publisher.Reached(batch, produce)
  {
    RoundSteps(s, batch, rest, partition, produce, mark, maxRetries, p);
    Publisher.RoundAppends(p, batch, produce, mark);
  }

  lemma {:induction false} RoundKeepsMessages(p: Publisher.Progress, batch: seq<nat>, produce: nat -> Call,
      mark: nat -> Call, id: nat)
    requires forall i | 0 <= i < |batch| :: batch[i] < |p.outbox|
    requires id < |p.outbox|
    ensures Publisher.PublishAll(p, batch, produce, mark).outbox[id].message == p.outbox[id].message
  {
    if batch != [] {
      RoundKeepsMessages(p, batch[..|batch| - 1], produce, mark, id);
    }
  }

  lemma RoundEventsLast(
    s: System, before: seq<nat>, id: nat, partition: nat -> nat, produce: nat -> Call, mark: nat -> Call,
    maxRetries: nat)
    ensures var s1 := Run(s, RoundEvents(before, partition, produce, mark), maxRetries);
            Run(s, RoundEvents(before + [id], partition, produce, mark), maxRetries)
            == Step(Step(s1, Produce(partition(id), produce(id)), maxRetries), Mark(mark(id)), maxRetries)
  {
    assert (before + [id])[..|before|] == before;
    RunTwo(s, RoundEvents(before, partition, produce, mark), Produce(partition(id), produce(id)), Mark(mark(id)),
           maxRetries);
  }

  lemma RoundLast(
    s: System, before: seq<nat>, id: nat, rest: seq<nat>, partition: nat -> nat, produce: nat -> Call,
    mark: nat -> Call, maxRetries: nat, p: Publisher.Progress, s1: System)
    requires forall i | 0 <= i < |before| :: before[i] < |p.outbox|
    requires id < |p.outbox| && partition(id) < |s.world.partitions|
    requires s1.publisher == Next([id] + rest) && s1.owed == s.owed
    requires s1.world == AppendEach(s.world, Publisher.Reached(before, produce), partition, p.outbox)
    requires var p1 := Publisher.PublishAll(p, before, produce, mark);
             s1.db == s.db.(outbox := p1.outbox) && p1.outbox[id].message == p.outbox[id].message
    ensures var batch := before + [id];
            var s' := Step(Step(s1, Produce(partition(id), produce(id)), maxRetries), Mark(mark(id)), maxRetries);
            && s'.publisher == Next(rest) && s'.owed == s.owed
            && s'.db == s.db.(outbox := Publisher.PublishAll(p, batch, produce, mark).outbox)
            && s'.world == AppendEach(s.world, Publisher.Reached(batch, produce), partition, p.outbox)
  {
    var batch := before + [id];
    assert batch[..|before|] == before && ([id] + rest)[1..] == rest;
    OneMessage(s1, partition(id), produce(id), mark(id), maxRetries, Publisher.PublishAll(p, before, produce, mark));
    if produce(id).TookEffect() {
      AppendOne(s.world, Publisher.Reached(before, produce), id, partition, p.outbox);
    } else {
      assert Publisher.Reached(before, produce) + [] == Publisher.Reached(before, produce);
    }
  }
}
