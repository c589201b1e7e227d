/** The bot's Kafka consumer: retries, the dead letter topic and manual commits. */
module Consumer {
  import opened Domain

  /** A record of the topic, after the deserializer has looked at it. */
  datatype Message = Undecodable | Decoded(notification: Notification)

  /** A partition: its log, the committed offset and the offset the next poll reads. */
  datatype Partition = Partition(log: seq<Message>, committed: nat, position: nat)

  datatype Place = Place(partition: nat, offset: nat)

  /** A message the chat's sender acknowledged. */
  datatype Delivery = Delivery(chat: int, notification: Notification)

  /** The partitions, the places sent to the dead letter topic, the places whose handler returned no
      error, the acknowledged sends, what the handler was called with, and whether Start is running. */
  datatype World = World(
    partitions: seq<Partition>, dead: set<Place>, handled: set<Place>,
    delivered: seq<Delivery>, seen: seq<Notification>, running: bool)

  /** What one message meets: which sends of each attempt work, after which attempts the wait for a
      retry is cancelled, and how the dead letter publish and the commit end. Stopping the process at
      any point is one of these: a refused commit or dead letter publish leaves what a crash before it
      leaves. */
  datatype Conditions = Conditions(sends: (nat, nat) -> bool, cancelled: nat -> bool, deadLetter: Call, commit: Call)

  // ----- retried delivery -----

  predicate IsValid(n: Notification) {
    n.update.url != "" && n.chats != []
  }

  function SendsOf(c: Conditions, a: nat): nat -> bool {
    (i: nat) => c.sends(a, i)
  }

  /** For each attempt from number `a` on, how many of the n chats it reached. */
  function Attempts(n: nat, c: Conditions, maxRetries: nat, a: nat): seq<nat>
    requires a <= maxRetries
    decreases maxRetries - a
  {
    var k := Streak(n, SendsOf(c, a));
    if k < n && a < maxRetries && !c.cancelled(a) then [k] + Attempts(n, c, maxRetries, a + 1) else [k]
  }

  function To(chats: seq<int>, n: Notification): seq<Delivery> {
    seq(|chats|, i requires 0 <= i < |chats| => Delivery(chats[i], n))
  }

  /** The sends of the attempts, one prefix of the chats after another. */
  function Prefixes(chats: seq<int>, reached: seq<nat>): seq<int>
    requires forall a | 0 <= a < |reached| :: reached[a] <= |chats|
  {
    if reached == [] then [] else
      Prefixes(chats, reached[..|reached| - 1]) + chats[..reached[|reached| - 1]]
  }

  /** At most maxRetries + 1 attempts; every one but the last stops short, and the last reaches the whole
      list exactly when the handling succeeds. */
  lemma {:induction false} AttemptsShape(n: nat, c: Conditions, maxRetries: nat, a: nat)
    requires a <= maxRetries
    ensures var ks := Attempts(n, c, maxRetries, a);
            && 1 <= |ks| <= maxRetries - a + 1
            && (forall i | 0 <= i < |ks| :: ks[i] <= n) && (forall i | 0 <= i < |ks| - 1 :: ks[i] < n)
    decreases maxRetries - a
  {
    var k := Streak(n, SendsOf(c, a));
    if k < n && a < maxRetries && !c.cancelled(a) {
      AttemptsShape(n, c, maxRetries, a + 1);
    }
  }

  predicate Succeeds(n: nat, reached: seq<nat>) {
    reached != [] && reached[|reached| - 1] == n
  }

  /** How many attempts reached beyond position j of the list. */
  function Reaching(reached: seq<nat>, j: nat): (r: nat)
    ensures r <= |reached|
  {
    if reached == [] then 0 else
      Reaching(reached[..|reached| - 1], j) + if reached[|reached| - 1] > j then 1 else 0
  }

  predicate Distinct(chats: seq<int>) {
    forall i, j | 0 <= i < j < |chats| :: chats[i] != chats[j]
  }

  lemma {:induction false} PrefixCount(chats: seq<int>, k: nat, j: nat)
    requires Distinct(chats) && k <= |chats| && j < |chats|
    ensures multiset(chats[..k])[chats[j]] == if k > j then 1 else 0
  {
    if k > 0 {
      PrefixCount(chats, k - 1, j);
      assert chats[..k] == chats[..k - 1] + [chats[k - 1]];
    }
  }

  lemma CountJoin(a: seq<int>, b: seq<int>, x: int)
    ensures multiset(a + b)[x] == multiset(a)[x] + multiset(b)[x]
  {}

  lemma {:induction false} ChatCount(chats: seq<int>, reached: seq<nat>, j: nat)
    requires Distinct(chats) && j < |chats| && forall a | 0 <= a < |reached| :: reached[a] <= |chats|
    ensures multiset(Prefixes(chats, reached))[chats[j]] == Reaching(reached, j)
  {
    if reached != [] {
      var n := |reached| - 1;
      var before := reached[..n];
      assert forall a | 0 <= a < |before| :: before[a] <= |chats|;
      ChatCount(chats, before, j);
      PrefixCount(chats, reached[n], j);
      assert Prefixes(chats, reached) == Prefixes(chats, before) + chats[..reached[n]];
      CountJoin(Prefixes(chats, reached[..n]), chats[..reached[n]], chats[j]);
    }
  }

  lemma {:induction false} ReachingFalls(reached: seq<nat>, j: nat, j': nat)
    requires j <= j'
    ensures Reaching(reached, j') <= Reaching(reached, j)
  {
    if reached != [] {
      ReachingFalls(reached[..|reached| - 1], j, j');
    }
  }

  lemma {:induction false} ReachingLast(reached: seq<nat>, j: nat)
    requires forall i | 0 <= i < |reached| - 1 :: reached[i] <= j
    ensures Reaching(reached, j) == if reached != [] && reached[|reached| - 1] > j then 1 else 0
  {
    if reached != [] {
      var n := |reached| - 1;
      NoneReaching(reached[..n], j);
    }
  }

  lemma {:induction false} NoneReaching(reached: seq<nat>, j: nat)
    requires forall i | 0 <= i < |reached| :: reached[i] <= j
    ensures Reaching(reached, j) == 0
  {
    if reached != [] {
      NoneReaching(reached[..|reached| - 1], j);
    }
  }

  /** How often the sends of one consumed message reach the chat at position j. */
  function Times(chats: seq<int>, c: Conditions, maxRetries: nat, j: nat): nat
    requires j < |chats|
  {
    AttemptsShape(|chats|, c, maxRetries, 0);
    multiset(Prefixes(chats, Attempts(|chats|, c, maxRetries, 0)))[chats[j]]
  }

  /** With distinct chats, one consumed message reaches no chat more than maxRetries + 1 times and never
      a later chat of the list more often than an earlier one. */
  lemma RetriedDeliveryBound(chats: seq<int>, c: Conditions, maxRetries: nat, i: nat, j: nat)
    requires Distinct(chats) && i <= j < |chats|
    ensures Times(chats, c, maxRetries, j) <= Times(chats, c, maxRetries, i) <= maxRetries + 1
  {
    var ks := Attempts(|chats|, c, maxRetries, 0);
    AttemptsShape(|chats|, c, maxRetries, 0);
    ChatCount(chats, ks, i);
    ChatCount(chats, ks, j);
    ReachingFalls(ks, i, j);
  }

  lemma LastChat(chats: seq<int>, ks: seq<nat>)
    requires Distinct(chats) && chats != [] && ks != [] && forall i | 0 <= i < |ks| :: ks[i] <= |chats|
    requires forall i | 0 <= i < |ks| - 1 :: ks[i] < |chats|
    ensures multiset(Prefixes(chats, ks))[chats[|chats| - 1]] == if Succeeds(|chats|, ks) then 1 else 0
  {
    ChatCount(chats, ks, |chats| - 1);
    ReachingLast(ks, |chats| - 1);
  }

  /** When the handling succeeds every chat was reached, the last one exactly once; when it fails the
      last one was not reached at all. */
  lemma RetriedDeliveryOutcome(chats: seq<int>, c: Conditions, maxRetries: nat, j: nat)
    requires Distinct(chats) && j < |chats|
    ensures Succeeds(|chats|, Attempts(|chats|, c, maxRetries, 0)) ==> Times(chats, c, maxRetries, j) >= 1
    ensures Times(chats, c, maxRetries, |chats| - 1)
            == if Succeeds(|chats|, Attempts(|chats|, c, maxRetries, 0)) then 1 else 0
  {
    var ks := Attempts(|chats|, c, maxRetries, 0);
    AttemptsShape(|chats|, c, maxRetries, 0);
    LastChat(chats, ks);
    RetriedDeliveryBound(chats, c, maxRetries, j, |chats| - 1);
  }

  // ----- one message -----

  function Commit(w: World, at: Place, call: Call): (World, bool)
    requires at.partition < |w.partitions|
  {
    var p := w.partitions[at.partition];
    (if call.TookEffect() then w.(partitions := w.partitions[at.partition := p.(committed := at.offset + 1)]) else w,
     call.Reported())
  }

  function DeadLetterAndCommit(w: World, at: Place, c: Conditions): (World, bool)
    requires at.partition < |w.partitions|
  {
    var w1 := if c.deadLetter.TookEffect() then w.(dead := w.dead + {at}) else w;
    if c.deadLetter.Reported() then Commit(w1, at, c.commit) else (w1, false)
  }

  /** handleMessage on the record at `at`. */
  function Handle(w: World, at: Place, message: Message, c: Conditions, maxRetries: nat): (World, bool)
    requires at.partition < |w.partitions|
  {
    if message.Undecodable? || !IsValid(message.notification) then DeadLetterAndCommit(w, at, c)
    else
      var n := message.notification;
      var ks := Attempts(|n.chats|, c, maxRetries, 0);
      AttemptsShape(|n.chats|, c, maxRetries, 0);
      var w1 := w.(delivered := w.delivered + To(Prefixes(n.chats, ks), n), seen := w.seen + Repeat(n, |ks|));
      if Succeeds(|n.chats|, ks) then Commit(w1.(handled := w1.handled + {at}), at, c.commit)
      else DeadLetterAndCommit(w1, at, c)
  }

  function Repeat(n: Notification, k: nat): seq<Notification> {
    seq(k, _ => n)
  }

  // ----- what one message meets decides what becomes of it -----

  ghost predicate AllSends(n: nat, c: Conditions, a: nat) {
    forall i: nat | i < n :: c.sends(a, i)
  }

  /** Attempt a is made: there are retries enough for it, and every attempt before it met a failing send and
      a wait that was not cancelled. */
  ghost predicate IsMade(n: nat, c: Conditions, maxRetries: nat, a: nat) {
    a <= maxRetries && forall b: nat | b < a :: !AllSends(n, c, b) && !c.cancelled(b)
  }

  /** The record decodes and has a URL and chats, and in some attempt that is made every send works. */
  ghost predicate Deliverable(m: Message, c: Conditions, maxRetries: nat) {
    && m.Decoded? && m.notification.update.url != "" && m.notification.chats != []
    && var n := |m.notification.chats|;
       exists a: nat :: IsMade(n, c, maxRetries, a) && AllSends(n, c, a)
  }

  /** Attempt a gets to the chat at position j: that send and all before it work. */
  ghost predicate GetsTo(c: Conditions, a: nat, j: nat) {
    forall i: nat | i <= j :: c.sends(a, i)
  }

  lemma StreakIsAll(n: nat, c: Conditions, a: nat)
    ensures Streak(n, SendsOf(c, a)) == n <==> AllSends(n, c, a)
    ensures forall j: nat | j < n :: Streak(n, SendsOf(c, a)) > j <==> GetsTo(c, a, j)
  {
    StreakStops(n, SendsOf(c, a));
    var k := Streak(n, SendsOf(c, a));
    forall i: nat | i < k ensures c.sends(a, i) {
      assert SendsOf(c, a)(i);
    }
    if k < n {
      assert !SendsOf(c, a)(k);
      assert !c.sends(a, k);
    }
  }

  /** The attempts listed are those made, each with the number of chats before its first failing send. */
  lemma {:induction false} AttemptsExactly(n: nat, c: Conditions, maxRetries: nat, a: nat)
    requires IsMade(n, c, maxRetries, a)
    ensures var ks := Attempts(n, c, maxRetries, a);
            && (forall b: nat | b >= a :: b - a < |ks| <==> IsMade(n, c, maxRetries, b))
            && (forall b: nat | a <= b < a + |ks| :: ks[b - a] == Streak(n, SendsOf(c, b)))
    decreases maxRetries - a
  {
    var ks := Attempts(n, c, maxRetries, a);
    StreakIsAll(n, c, a);
    if ks[0] < n && a < maxRetries && !c.cancelled(a) {
      forall b: nat | b < a + 1 ensures !AllSends(n, c, b) && !c.cancelled(b) {
        if b < a { assert !AllSends(n, c, b); }
      }
      AttemptsExactly(n, c, maxRetries, a + 1);
    } else {
      assert forall b: nat | b > a && IsMade(n, c, maxRetries, b) ::
        a < maxRetries && !AllSends(n, c, a) && !c.cancelled(a);
    }
  }

  /** The retry loop succeeds exactly when some attempt that is made reaches every chat. */
  lemma SucceedsExactly(n: nat, c: Conditions, maxRetries: nat)
    ensures Succeeds(n, Attempts(n, c, maxRetries, 0))
            <==> exists a: nat :: IsMade(n, c, maxRetries, a) && AllSends(n, c, a)
  {
    var ks := Attempts(n, c, maxRetries, 0);
    AttemptsShape(n, c, maxRetries, 0);
    AttemptsExactly(n, c, maxRetries, 0);
    var last := |ks| - 1;
    assert IsMade(n, c, maxRetries, last) && ks[last - 0] == Streak(n, SendsOf(c, last));
    StreakIsAll(n, c, last);
    if a: nat :| IsMade(n, c, maxRetries, a) && AllSends(n, c, a) {
      assert a < |ks| && ks[a - 0] == Streak(n, SendsOf(c, a));
      StreakIsAll(n, c, a);
    }
  }

  /** What becomes of a record, said of what it met alone: it is handled exactly when it is deliverable,
      it is in the dead letter topic exactly when it is not and the dead letter publish took effect, and it
      is committed exactly when it is handled or the dead letter publish was acknowledged, and the commit
      took effect. Nothing else of the partitions changes, and ok says that it was settled and committed. */
  lemma HandleExactly(w: World, at: Place, message: Message, c: Conditions, maxRetries: nat)
    requires at.partition < |w.partitions|
    ensures var (w', ok) := Handle(w, at, message, c, maxRetries);
            var good := Deliverable(message, c, maxRetries);
            var p := w.partitions[at.partition];
            && w'.handled == (if good then w.handled + {at} else w.handled)
            && w'.dead == (if good || c.deadLetter.Refused? then w.dead else w.dead + {at})
            && w'.partitions
               == (if (good || c.deadLetter.Worked?) && !c.commit.Refused?
                   then w.partitions[at.partition := Partition(p.log, at.offset + 1, p.position)] else w.partitions)
            && ok == ((good || c.deadLetter.Worked?) && c.commit.Worked?)
            && w'.running == w.running
  {
    if message.Decoded? {
      SucceedsExactly(|message.notification.chats|, c, maxRetries);
    }
  }

  /** A record whose first attempt meets no failing send: each chat is sent it once, in the order of the
      list, the record is handled, and nothing enters the dead letter topic. */
  lemma HandleDelivers(w: World, at: Place, message: Message, c: Conditions, maxRetries: nat)
    requires at.partition < |w.partitions|
    ensures var w' := Handle(w, at, message, c, maxRetries).0;
            message.Decoded? && message.notification.update.url != "" && message.notification.chats != []
            && AllSends(|message.notification.chats|, c, 0)
            ==> at in w'.handled && w'.dead == w.dead && EachGot(w, w', message.notification)
  {
    if message.Decoded? && message.notification.update.url != "" && message.notification.chats != []
       && AllSends(|message.notification.chats|, c, 0) {
      var n := message.notification;
      assert IsMade(|n.chats|, c, maxRetries, 0);
      HandleExactly(w, at, message, c, maxRetries);
      StreakIsAll(|n.chats|, c, 0);
      assert Attempts(|n.chats|, c, maxRetries, 0) == [|n.chats|];
      assert Prefixes(n.chats, [|n.chats|]) == n.chats;
    }
  }

  /** Each chat of n got it once more, in turn, and nothing else was sent. */
  ghost predicate EachGot(w: World, w': World, n: Notification) {
    && w.delivered <= w'.delivered && |w'.delivered| == |w.delivered| + |n.chats|
    && forall i: nat | i < |n.chats| :: w'.delivered[|w.delivered| + i] == Delivery(n.chats[i], n)
  }

  /** A record that is undecodable or has no URL or no chats is sent to nobody. */
  lemma HandleSkips(w: World, at: Place, message: Message, c: Conditions, maxRetries: nat)
    requires at.partition < |w.partitions|
    ensures var w' := Handle(w, at, message, c, maxRetries).0;
            message.Undecodable? || message.notification.update.url == "" || message.notification.chats == []
            ==> w'.delivered == w.delivered && w'.seen == w.seen && w'.handled == w.handled
  {}

  // ----- what happens to the topic and the consumer -----

  /** A producer appends a record; a poll of the running consumer reads the next record of a partition and
      handles it; the consumer stops, and starts again from the committed offsets. */
  datatype Event = Append(partition: nat, message: Message) | Poll(partition: nat, conditions: Conditions) | Stop
    | Restart

  function Step(w: World, e: Event, maxRetries: nat): World {
    match e
    case Append(i, m) =>
      if i < |w.partitions| then w.(partitions := w.partitions[i := w.partitions[i].(log := w.partitions[i].log + [m])])
      else w
    case Poll(i, c) =>
      if w.running && i < |w.partitions| && w.partitions[i].position < |w.partitions[i].log| then
        var p := w.partitions[i];
        var polled := w.(partitions := w.partitions[i := p.(position := p.position + 1)]);
        var (after, ok) := Handle(polled, Place(i, p.position), p.log[p.position], c, maxRetries);
        after.(running := ok)
      else w
    case Stop => w.(running := false)
    case Restart =>
      w.(partitions := seq(|w.partitions|, i requires 0 <= i < |w.partitions| =>
           w.partitions[i].(position := w.partitions[i].committed)),
         running := true)
  }

  function Run(w: World, events: seq<Event>, maxRetries: nat): World {
    if events == [] then w else Step(Run(w, events[..|events| - 1], maxRetries), events[|events| - 1], maxRetries)
  }

  // ----- the committed prefix -----

  predicate Settled(w: World, at: Place) {
    at in w.handled || at in w.dead
  }

  /** Everything below a committed offset is settled, and while Start runs so is everything below the
      position; a handled record is a valid one whose every chat got it; the handler saw valid ones only. */
  ghost predicate Inv(w: World) {
    && (forall i | 0 <= i < |w.partitions| ::
        w.partitions[i].committed <= w.partitions[i].position <= |w.partitions[i].log|)
    && (forall i, o | 0 <= i < |w.partitions| && 0 <= o < w.partitions[i].committed :: Settled(w, Place(i, o)))
    && (w.running ==>
          forall i, o | 0 <= i < |w.partitions| && 0 <= o < w.partitions[i].position :: Settled(w, Place(i, o)))
    && (forall at | at in w.handled :: HandledProperly(w, at))
    && (forall n | n in w.seen :: IsValid(n))
  }

  ghost predicate HandledProperly(w: World, at: Place) {
    && at.partition < |w.partitions| && at.offset < |w.partitions[at.partition].log|
    && var m := w.partitions[at.partition].log[at.offset];
    && m.Decoded? && IsValid(m.notification)
    && forall chat | chat in m.notification.chats :: Delivery(chat, m.notification) in w.delivered
  }

  /** The parts of the world a later one keeps: logs grow at their ends, nothing settled is forgotten. */
  ghost predicate Grows(w: World, w': World) {
    && |w'.partitions| == |w.partitions| && w.dead <= w'.dead && w.handled <= w'.handled
    && (forall i | 0 <= i < |w.partitions| :: w.partitions[i].log <= w'.partitions[i].log)
    && w.delivered <= w'.delivered && w.seen <= w'.seen
  }

  lemma GrowsKeepsHandled(w: World, w': World, at: Place)
    requires Grows(w, w') && HandledProperly(w, at)
    ensures HandledProperly(w', at)
  {
    var m := w.partitions[at.partition].log[at.offset];
    assert w'.partitions[at.partition].log[at.offset] == m;
    assert forall d | d in w.delivered :: d in w'.delivered;
  }

  lemma ToReaches(chats: seq<int>, reached: seq<nat>, n: Notification)
    requires forall a | 0 <= a < |reached| :: reached[a] <= |chats|
    requires Succeeds(|chats|, reached)
    ensures forall chat | chat in chats :: Delivery(chat, n) in To(Prefixes(chats, reached), n)
  {
    var sent := Prefixes(chats, reached);
    var before := Prefixes(chats, reached[..|reached| - 1]);
    assert sent == before + chats;
    forall chat | chat in chats ensures Delivery(chat, n) in To(sent, n) {
      var j :| 0 <= j < |chats| && chats[j] == chat;
      assert To(sent, n)[|before| + j] == Delivery(chat, n);
    }
  }

  /** What the dead letter publish and the commit do to one place. */
  ghost predicate SettlesOnly(w: World, w': World, at: Place, ok: bool)
    requires at.partition < |w.partitions|
  {
    && Grows(w, w') && w'.running == w.running
    && w'.dead <= w.dead + {at} && w'.handled <= w.handled + {at}
    && (ok ==> Settled(w', at))
    && (w'.partitions == w.partitions ||
        (Settled(w', at)
         && w'.partitions == w.partitions[at.partition := w.partitions[at.partition].(committed := at.offset + 1)]))
  }

  lemma DeadLetterSettles(w: World, at: Place, c: Conditions)
    requires at.partition < |w.partitions|
    ensures var (w', ok) := DeadLetterAndCommit(w, at, c);
            SettlesOnly(w, w', at, ok) && w'.handled == w.handled && w'.seen == w.seen && w'.delivered == w.delivered
  {}

  lemma CommitSettles(w: World, at: Place, call: Call)
    requires at.partition < |w.partitions| && Settled(w, at)
    ensures var (w', ok) := Commit(w, at, call);
            SettlesOnly(w, w', at, ok) && w'.handled == w.handled && w'.seen == w.seen && w'.delivered == w.delivered
  {}

  /** Handling one record settles it before it commits it, and touches no other place. */
  lemma HandleOne(w: World, at: Place, message: Message, c: Conditions, maxRetries: nat)
    requires at.partition < |w.partitions| && at.offset < |w.partitions[at.partition].log|
    requires message == w.partitions[at.partition].log[at.offset]
    ensures var (w', ok) := Handle(w, at, message, c, maxRetries);
            && SettlesOnly(w, w', at, ok)
            && (at in w'.handled && at !in w.handled ==> HandledProperly(w', at))
            && (forall n | n in w'.seen :: n in w.seen || IsValid(n))
  {
    if message.Undecodable? || !IsValid(message.notification) {
      DeadLetterSettles(w, at, c);
    } else {
      var n := message.notification;
      var ks := Attempts(|n.chats|, c, maxRetries, 0);
      AttemptsShape(|n.chats|, c, maxRetries, 0);
      var w1 := w.(delivered := w.delivered + To(Prefixes(n.chats, ks), n), seen := w.seen + Repeat(n, |ks|));
      if Succeeds(|n.chats|, ks) {
        ToReaches(n.chats, ks, n);
        CommitSettles(w1.(handled := w1.handled + {at}), at, c.commit);
      } else {
        DeadLetterSettles(w1, at, c);
      }
    }
  }

  /** The state in which the running consumer has read one more record, and what handling it leaves. */
  lemma PollKeeps(w: World, i: nat, c: Conditions, maxRetries: nat)
    requires Inv(w) && w.running && i < |w.partitions| && w.partitions[i].position < |w.partitions[i].log|
    ensures Inv(Step(w, Poll(i, c), maxRetries)) && Grows(w, Step(w, Poll(i, c), maxRetries))
  {
    var w' := Step(w, Poll(i, c), maxRetries);
    var p := w.partitions[i];
    var at := Place(i, p.position);
    var polled := w.(partitions := w.partitions[i := p.(position := p.position + 1)]);
    HandleOne(polled, at, p.log[p.position], c, maxRetries);
    assert Grows(w, polled) && Grows(w, w');
    forall h | h in w'.handled ensures HandledProperly(w', h) {
      if h in w.handled {
        GrowsKeepsHandled(w, w', h);
      }
    }
    SettledBelow(w, w', i);
  }

  lemma SettledBelow(w: World, w': World, i: nat)
    requires Inv(w) && w.running && Grows(w, w') && i < |w.partitions|
             && w.partitions[i].position < |w.partitions[i].log|
    requires forall j | 0 <= j < |w.partitions| && j != i :: w'.partitions[j] == w.partitions[j]
    requires w'.partitions[i].position == w.partitions[i].position + 1
    requires w'.partitions[i].committed == w.partitions[i].committed ||
             (w'.partitions[i].committed == w.partitions[i].position + 1
                 && Settled(w', Place(i, w.partitions[i].position)))
    requires w'.running ==> Settled(w', Place(i, w.partitions[i].position))
    ensures forall j, o | 0 <= j < |w'.partitions| && 0 <= o < w'.partitions[j].committed :: Settled(w', Place(j, o))
    ensures w'.running ==>
              forall j, o | 0 <= j < |w'.partitions| && 0 <= o < w'.partitions[j].position :: Settled(w', Place(j, o))
  {
    forall j, o | 0 <= j < |w.partitions| && 0 <= o < w.partitions[j].position ensures Settled(w', Place(j, o)) {
      assert Settled(w, Place(j, o));
    }
  }

  lemma StepKeeps(w: World, e: Event, maxRetries: nat)
    requires Inv(w)
    ensures Inv(Step(w, e, maxRetries)) && Grows(w, Step(w, e, maxRetries))
  {
    var w' := Step(w, e, maxRetries);
    if e.Poll? && w.running && e.partition < |w.partitions|
        && w.partitions[e.partition].position < |w.partitions[e.partition].log| {
      PollKeeps(w, e.partition, e.conditions, maxRetries);
    } else {
      assert Grows(w, w');
      forall h | h in w'.handled { GrowsKeepsHandled(w, w', h); }
      forall i, o | 0 <= i < |w.partitions| && 0 <= o < w.partitions[i].committed ensures Settled(w', Place(i, o)) {
        assert Settled(w, Place(i, o));
      }
    }
  }

  /** The topic before anything is consumed: empty partitions, or partitions nobody has read. */
  predicate Fresh(w: World) {
    && (forall i | 0 <= i < |w.partitions| :: w.partitions[i].committed == w.partitions[i].position == 0)
    && w.dead == {} && w.handled == {} && w.delivered == [] && w.seen == []
  }

  /** Over any number of polls, failures and restarts: every offset below a committed one was handled with
      no error, and then all chats of its record got it, or is in the dead letter topic; and the handler
      never saw a record that does not decode or validate. */
  lemma {:induction false} CommittedPrefix(w: World, events: seq<Event>, maxRetries: nat)
    requires Fresh(w)
    ensures Inv(Run(w, events, maxRetries)) && Grows(w, Run(w, events, maxRetries))
  {
    if events != [] {
      CommittedPrefix(w, events[..|events| - 1], maxRetries);
      StepKeeps(Run(w, events[..|events| - 1], maxRetries), events[|events| - 1], maxRetries);
    }
  }

  // ----- the operations -----

  /** What Poll hands to Start: nothing, a record of a partition, an error of the client, or the context
      was done before the poll. */
  datatype Polled = Nothing | Record(partition: nat, conditions: Conditions) | ClientError(fatal: bool) | ContextDone

  lemma RunOne(w: World, events: seq<Event>, e: Event, maxRetries: nat)
    ensures Run(w, events + [e], maxRetries) == Step(Run(w, events, maxRetries), e, maxRetries)
  {
    assert (events + [e])[..|events|] == events;
  }

  lemma GrowsTrans(a: World, b: World, c: World)
    requires Grows(a, b) && Grows(b, c)
    ensures Grows(a, c)
  {}

  /** The first k attempts have been made: what their sends and the handler's calls have added. */
  ghost predicate Made(
      chats: seq<int>, n: Notification, all: seq<nat>, k: nat,
      before: seq<Delivery>, delivered: seq<Delivery>, heard: seq<Notification>, seen: seq<Notification>)
  {
    && k <= |all| && (forall a | 0 <= a < |all| :: all[a] <= |chats|)
    && delivered == before + To(Prefixes(chats, all[..k]), n) && seen == heard + Repeat(n, k)
  }

  lemma NoneMade(chats: seq<int>, n: Notification, all: seq<nat>, before: seq<Delivery>, heard: seq<Notification>)
    requires forall a | 0 <= a < |all| :: all[a] <= |chats|
    ensures Made(chats, n, all, 0, before, before, heard, heard)
  {
    assert all[..0] == [] && before + [] == before && heard + [] == heard;
  }

  lemma OneMore(
      chats: seq<int>, n: Notification, all: seq<nat>, k: nat,
      before: seq<Delivery>, delivered: seq<Delivery>, heard: seq<Notification>, seen: seq<Notification>)
    requires Made(chats, n, all, k, before, delivered, heard, seen) && k < |all|
    ensures Made(chats, n, all, k + 1, before, delivered + To(chats[..all[k]], n), heard, seen + [n])
  {
    assert all[..k + 1][..k] == all[..k];
    ToConcat(Prefixes(chats, all[..k]), chats[..all[k]], n);
    assert before + To(Prefixes(chats, all[..k]), n) + To(chats[..all[k]], n)
        == before + (To(Prefixes(chats, all[..k]), n) + To(chats[..all[k]], n));
  }

  lemma AllMade(
      chats: seq<int>, n: Notification, all: seq<nat>,
      before: seq<Delivery>, delivered: seq<Delivery>, heard: seq<Notification>, seen: seq<Notification>)
    requires Made(chats, n, all, |all|, before, delivered, heard, seen)
    ensures delivered == before + To(Prefixes(chats, all), n) && seen == heard + Repeat(n, |all|)
  {
    assert all[..|all|] == all;
  }

  lemma AttemptAt(all: seq<nat>, n: nat, c: Conditions, maxRetries: nat, attempt: nat)
    requires attempt <= maxRetries && attempt <= |all| && all[attempt..] == Attempts(n, c, maxRetries, attempt)
    ensures attempt < |all| && all[attempt] == Streak(n, SendsOf(c, attempt))
    ensures if all[attempt] < n && attempt < maxRetries && !c.cancelled(attempt)
            then all[attempt + 1..] == Attempts(n, c, maxRetries, attempt + 1)
            else |all| == attempt + 1
  {
    var rest := all[attempt..];
    assert rest[0] == all[attempt] && rest[1..] == all[attempt + 1..];
  }

  lemma ToConcat(a: seq<int>, b: seq<int>, n: Notification)
    ensures To(a + b, n) == To(a, n) + To(b, n)
  {}

  // ----- one session of Start -----

  function PollOnce(w: World, message: Polled, maxRetries: nat): World {
    match message
    case Nothing => w
    case Record(p, c) => Step(w, Poll(p, c), maxRetries)
    case ClientError(fatal) => if fatal then Step(w, Stop, maxRetries) else w
    case ContextDone => Step(w, Stop, maxRetries)
  }

  /** The polls one after another, none after the one at which the consumer stopped. */
  function Session(w: World, polls: seq<Polled>, maxRetries: nat): World
    decreases |polls|
  {
    if polls == [] then w else
      var before := Session(w, polls[..|polls| - 1], maxRetries);
      if before.running then PollOnce(before, polls[|polls| - 1], maxRetries) else before
  }

  lemma PollOnceIsRun(w: World, events: seq<Event>, message: Polled, maxRetries: nat)
    ensures exists more :: PollOnce(Run(w, events, maxRetries), message, maxRetries) == Run(w, more, maxRetries)
  {
    var now := PollOnce(Run(w, events, maxRetries), message, maxRetries);
    match message
    case Record(p, c) =>
      RunOne(w, events, Poll(p, c), maxRetries);
      assert now == Run(w, events + [Poll(p, c)], maxRetries);
    case Nothing =>
      assert now == Run(w, events, maxRetries);
    case _ =>
      RunOne(w, events, Stop, maxRetries);
      assert now == Run(w, events, maxRetries) || now == Run(w, events + [Stop], maxRetries);
  }

  lemma PollOnceKeeps(w: World, message: Polled, maxRetries: nat)
    requires Inv(w)
    ensures Inv(PollOnce(w, message, maxRetries)) && Grows(w, PollOnce(w, message, maxRetries))
  {
    match message
    case Record(p, c) => StepKeeps(w, Poll(p, c), maxRetries);
    case ClientError(fatal) => if fatal { StepKeeps(w, Stop, maxRetries); }
    case ContextDone => StepKeeps(w, Stop, maxRetries);
    case Nothing =>
  }

  lemma {:induction false} SessionKeeps(w: World, polls: seq<Polled>, maxRetries: nat)
    requires Inv(w)
    ensures Inv(Session(w, polls, maxRetries)) && Grows(w, Session(w, polls, maxRetries))
    decreases |polls|
  {
    if polls != [] {
      var before := Session(w, polls[..|polls| - 1], maxRetries);
      SessionKeeps(w, polls[..|polls| - 1], maxRetries);
      if before.running {
        PollOnceKeeps(before, polls[|polls| - 1], maxRetries);
        GrowsTrans(w, before, Session(w, polls, maxRetries));
      }
    }
  }

  /** A session is a run of consumer steps, so everything proved about runs holds after it. */
  lemma {:induction false} SessionIsRun(w: World, events: seq<Event>, polls: seq<Polled>, maxRetries: nat)
    ensures exists more :: Session(Run(w, events, maxRetries), polls, maxRetries) == Run(w, more, maxRetries)
    decreases |polls|
  {
    if polls == [] {
      assert Session(Run(w, events, maxRetries), polls, maxRetries) == Run(w, events, maxRetries);
    } else {
      SessionIsRun(w, events, polls[..|polls| - 1], maxRetries);
      var more :| Session(Run(w, events, maxRetries), polls[..|polls| - 1], maxRetries) == Run(w, more, maxRetries);
      if Run(w, more, maxRetries).running {
        PollOnceIsRun(w, more, polls[|polls| - 1], maxRetries);
      } else {
        assert Session(Run(w, events, maxRetries), polls, maxRetries) == Run(w, more, maxRetries);
      }
    }
  }

  /** Once stopped, a session does nothing more. */
  lemma {:induction false} SessionStops(w: World, polls: seq<Polled>, i: nat, maxRetries: nat)
    requires i <= |polls| && !Session(w, polls[..i], maxRetries).running
    ensures Session(w, polls, maxRetries) == Session(w, polls[..i], maxRetries)
    decreases |polls|
  {
    if i < |polls| {
      var n := |polls| - 1;
      assert polls[..n][..i] == polls[..i];
      SessionStops(w, polls[..n], i, maxRetries);
    } else {
      assert polls[..i] == polls;
    }
  }

  /** A session ends at the first record that could not be settled: when handling the record of poll i
      reports an error, the session is over and leaves what that handling leaves; otherwise it goes on. */
  lemma StopsAtTheUnsettled(w: World, polls: seq<Polled>, i: nat, maxRetries: nat)
    requires i < |polls| && polls[i].Record? && Session(w, polls[..i], maxRetries).running
    requires var before := Session(w, polls[..i], maxRetries);
             polls[i].partition < |before.partitions|
             && before.partitions[polls[i].partition].position < |before.partitions[polls[i].partition].log|
    ensures var before := Session(w, polls[..i], maxRetries);
            var p, c := before.partitions[polls[i].partition], polls[i].conditions;
            var after := p.(position := p.position + 1);
            var polled := before.(partitions := before.partitions[polls[i].partition := after]);
            var (w', ok) := Handle(polled, Place(polls[i].partition, p.position), p.log[p.position], c, maxRetries);
            if ok then Session(w, polls[..i + 1], maxRetries) == w'.(running := true)
            else Session(w, polls, maxRetries) == w'.(running := false)
  {
    assert polls[..i + 1][..i] == polls[..i];
    if !Session(w, polls[..i + 1], maxRetries).running {
      SessionStops(w, polls, i + 1, maxRetries);
    }
  }

  class LinkUpdateConsumer {
    const maxRetries: nat
    var partitions: seq<Partition>
    var dead: set<Place>
    var handled: set<Place>
    var delivered: seq<Delivery>
    var seen: seq<Notification>
    var running: bool

    constructor (maxRetries: int, partitions: seq<Partition>)
      ensures this.maxRetries == if maxRetries < 0 then 0 else maxRetries
      ensures Now() == World(partitions, {}, {}, [], [], true)
    {
      this.maxRetries := if maxRetries < 0 then 0 else maxRetries;
      this.partitions := partitions;
      dead, handled, delivered, seen, running := {}, {}, [], [], true;
    }

    function Now(): World
      reads this
    {
      World(partitions, dead, handled, delivered, seen, running)
    }

    /** The bot's UpdateService: one send to each chat in turn, up to the first that fails. */
    method HandleLinkUpdate(update: Notification, sends: nat -> bool) returns (ok: bool)
      modifies this`delivered, this`seen
      ensures !IsValid(update) ==> !ok && delivered == old(delivered)
      ensures IsValid(update) ==>
                var k := Streak(|update.chats|, sends);
                ok == (k == |update.chats|) && delivered == old(delivered) + To(update.chats[..k], update)
      ensures seen == old(seen) + [update]
    {
      seen := seen + [update];
      if update.update.url == "" || |update.chats| == 0 {
        return false;
      }
      assert IsValid(update);
      StreakStops(|update.chats|, sends);
      for i := 0 to |update.chats|
        invariant delivered == old(delivered) + To(update.chats[..i], update)
        invariant forall j: nat | j < i :: sends(j)
        invariant seen == old(seen) + [update]
      {
        if !sends(i) {
          assert Streak(|update.chats|, sends) == i;
          return false;
        }
        delivered := delivered + [Delivery(update.chats[i], update)];
        assert To(update.chats[..i + 1], update) == To(update.chats[..i], update) + [Delivery(update.chats[i], update)];
      }
      assert update.chats[..|update.chats|] == update.chats && Streak(|update.chats|, sends) == |update.chats|;
      return true;
    }

    /** The retry loop: it goes on after a failed attempt unless the wait is cancelled or the attempts
        are used up. */
    method HandleWithRetries(update: Notification, c: Conditions) returns (ok: bool)
      requires IsValid(update)
      modifies this`delivered, this`seen
      ensures var ks := Attempts(|update.chats|, c, maxRetries, 0);
              && (forall a | 0 <= a < |ks| :: ks[a] <= |update.chats|)
              && ok == Succeeds(|update.chats|, ks)
              && delivered == old(delivered) + To(Prefixes(update.chats, ks), update)
              && seen == old(seen) + Repeat(update, |ks|)
    {
      ghost var all := Attempts(|update.chats|, c, maxRetries, 0);
      AttemptsShape(|update.chats|, c, maxRetries, 0);
      var attempt := 0;
      ghost var before, heard := delivered, seen;
      NoneMade(update.chats, update, all, before, heard);
      assert all[0..] == all;
      while attempt <= maxRetries
        invariant attempt <= maxRetries
        invariant attempt <= |all| && all[attempt..] == Attempts(|update.chats|, c, maxRetries, attempt)
        invariant Made(update.chats, update, all, attempt, before, delivered, heard, seen)
        decreases maxRetries + 1 - attempt
      {
        AttemptAt(all, |update.chats|, c, maxRetries, attempt);
        OneMore(update.chats, update, all, attempt, before, delivered, heard, seen);
        var handled := HandleLinkUpdate(update, SendsOf(c, attempt));
        if handled || attempt >= maxRetries || c.cancelled(attempt) {
          AllMade(update.chats, update, all, before, delivered, heard, seen);
          return handled;
        }
        attempt := attempt + 1;
      }
      assert false;
      return false;
    }

    method CommitMessage(at: Place, call: Call) returns (ok: bool)
      requires at.partition < |partitions|
      modifies this`partitions
      ensures (Now(), ok) == Commit(old(Now()), at, call)
    {
      if call.TookEffect() {
        partitions := partitions[at.partition := partitions[at.partition].(committed := at.offset + 1)];
      }
      ok := call.Reported();
    }

    method SendToDLQAndCommit(at: Place, c: Conditions) returns (ok: bool)
      requires at.partition < |partitions|
      modifies this`partitions, this`dead
      ensures (Now(), ok) == DeadLetterAndCommit(old(Now()), at, c)
    {
      if c.deadLetter.TookEffect() {
        dead := dead + {at};
      }
      if !c.deadLetter.Reported() {
        return false;
      }
      ok := CommitMessage(at, c.commit);
    }

    method HandleMessage(at: Place, message: Message, c: Conditions) returns (ok: bool)
      requires at.partition < |partitions|
      modifies this`partitions, this`dead, this`handled, this`delivered, this`seen
      ensures (Now(), ok) == Handle(old(Now()), at, message, c, maxRetries)
      ensures handled == if Deliverable(message, c, maxRetries) then old(handled) + {at} else old(handled)
      ensures dead
              == if Deliverable(message, c, maxRetries) || c.deadLetter.Refused? then old(dead) else old(dead) + {at}
      ensures ok == ((Deliverable(message, c, maxRetries) || c.deadLetter.Worked?) && c.commit.Worked?)
      ensures Deliverable(message, c, maxRetries) && AllSends(|message.notification.chats|, c, 0)
              ==> EachGot(old(Now()), Now(), message.notification)
    {
      HandleExactly(Now(), at, message, c, maxRetries);
      HandleDelivers(Now(), at, message, c, maxRetries);
      if message.Undecodable? {
        ok := SendToDLQAndCommit(at, c);
        return;
      }
      if !IsValid(message.notification) {
        ok := SendToDLQAndCommit(at, c);
        return;
      }
      ok := HandleWithRetries(message.notification, c);
      if !ok {
        ok := SendToDLQAndCommit(at, c);
        return;
      }
      handled := handled + {at};
      ok := CommitMessage(at, c.commit);
    }

    /** One poll that returns the next record of a partition, and its handling. */
    method PollRecord(p: nat, c: Conditions)
      requires running && p < |partitions| && partitions[p].position < |partitions[p].log|
      modifies this
      ensures Now() == Step(old(Now()), Poll(p, c), maxRetries)
    {
      var offset := partitions[p].position;
      var message := partitions[p].log[offset];
      partitions := partitions[p := partitions[p].(position := offset + 1)];
      running := HandleMessage(Place(p, offset), message, c);
    }

    /** Start's loop over the polls of one session: it ends at the first record that could not be settled,
        at a fatal error, or when the context is done, and is then no longer running. */
    method Start(polls: seq<Polled>)
      requires Inv(Now()) && running
      modifies this
      ensures Now() == Session(old(Now()), polls, maxRetries)
      ensures Inv(Now()) && Grows(old(Now()), Now())
    {
      SessionKeeps(Now(), polls, maxRetries);
      assert polls[..|polls|] == polls;
      for i := 0 to |polls|
        invariant Now() == Session(old(Now()), polls[..i], maxRetries) && running
      {
        assert polls[..i + 1][..i] == polls[..i];
        TakePoll(polls[i]);
        if !running {
          SessionStops(old(Now()), polls, i + 1, maxRetries);
          return;
        }
      }
    }

    /** One turn of the loop. */
    method TakePoll(message: Polled)
      requires running
      modifies this
      ensures Now() == PollOnce(old(Now()), message, maxRetries)
    {
      if message.ContextDone? || (message.ClientError? && message.fatal) {
        running := false;
        return;
      }
      if message.Nothing? || message.ClientError? {
        return;
      }
      var p := message.partition;
      if p < |partitions| && partitions[p].position < |partitions[p].log| {
        PollRecord(p, message.conditions);
      }
    }
  }
}
