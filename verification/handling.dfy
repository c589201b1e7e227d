/** What the polls of a run did to each place of the topic, and what the chats received. */
module Handling {
  import opened Domain
  import opened Consumer

  // ----- how often a chat is sent the message of one record -----

  /** The attempts that are made and get to the chat at position j. */
  ghost function Getting(n: nat, c: Conditions, maxRetries: nat, j: nat): set<nat> {
    set a: nat | a <= maxRetries && IsMade(n, c, maxRetries, a) && GetsTo(c, a, j)
  }

  function ReachingSet(ks: seq<nat>, j: nat): set<nat> {
    set a: nat | a < |ks| && ks[a] > j
  }

  lemma {:induction false} ReachingCount(ks: seq<nat>, j: nat)
    ensures |ReachingSet(ks, j)| == Reaching(ks, j)
  {
    if ks != [] {
      var n := |ks| - 1;
      ReachingCount(ks[..n], j);
      assert ReachingSet(ks, j) == ReachingSet(ks[..n], j) + if ks[n] > j then {n} else {};
    }
  }

  lemma GettingIsReaching(n: nat, c: Conditions, maxRetries: nat, j: nat)
    requires j < n
    ensures |Getting(n, c, maxRetries, j)| == Reaching(Attempts(n, c, maxRetries, 0), j)
  {
    var ks := Attempts(n, c, maxRetries, 0);
    AttemptsExactly(n, c, maxRetries, 0);
    forall a: nat ensures a in Getting(n, c, maxRetries, j) <==> a in ReachingSet(ks, j) {
      StreakIsAll(n, c, a);
      assert a - 0 < |ks| <==> IsMade(n, c, maxRetries, a);
    }
    assert Getting(n, c, maxRetries, j) == ReachingSet(ks, j);
    ReachingCount(ks, j);
  }

  lemma {:induction false} ToCount(chats: seq<int>, n: Notification, chat: int)
    ensures multiset(To(chats, n))[Delivery(chat, n)] == multiset(chats)[chat]
  {
    if chats != [] {
      var k := |chats| - 1;
      ToCount(chats[..k], n, chat);
      assert chats == chats[..k] + [chats[k]];
      assert To(chats, n) == To(chats[..k], n) + [Delivery(chats[k], n)];
    }
  }

  lemma ToOthers(chats: seq<int>, n: Notification, d: Delivery)
    requires d.notification != n || d.chat !in chats
    ensures multiset(To(chats, n))[d] == 0
  {
    assert forall i | 0 <= i < |chats| :: To(chats, n)[i] == Delivery(chats[i], n);
  }

  lemma DeliveriesJoin(a: seq<Delivery>, b: seq<Delivery>, d: Delivery)
    ensures multiset(a + b)[d] == multiset(a)[d] + multiset(b)[d]
  {}

  lemma {:induction false} PrefixesOfChats(chats: seq<int>, reached: seq<nat>)
    requires forall a | 0 <= a < |reached| :: reached[a] <= |chats|
    ensures forall chat | chat in Prefixes(chats, reached) :: chat in chats
  {
    if reached != [] {
      PrefixesOfChats(chats, reached[..|reached| - 1]);
    }
  }

  lemma HandleSent(w: World, at: Place, n: Notification, c: Conditions, maxRetries: nat)
    requires at.partition < |w.partitions| && IsValid(n)
    ensures var ks := Attempts(|n.chats|, c, maxRetries, 0);
            && (forall a | 0 <= a < |ks| :: ks[a] <= |n.chats|)
            && Handle(w, at, Decoded(n), c, maxRetries).0.delivered == w.delivered + To(Prefixes(n.chats, ks), n)
  {
    AttemptsShape(|n.chats|, c, maxRetries, 0);
  }

  lemma SentCount(n: Notification, c: Conditions, maxRetries: nat, j: nat, ks: seq<nat>)
    requires j < |n.chats| && Distinct(n.chats) && ks == Attempts(|n.chats|, c, maxRetries, 0)
    requires forall a | 0 <= a < |ks| :: ks[a] <= |n.chats|
    ensures multiset(To(Prefixes(n.chats, ks), n))[Delivery(n.chats[j], n)] == |Getting(|n.chats|, c, maxRetries, j)|
  {
    ToCount(Prefixes(n.chats, ks), n, n.chats[j]);
    ChatCount(n.chats, ks, j);
    GettingIsReaching(|n.chats|, c, maxRetries, j);
  }

  /** How often one consumed message is sent to whom: the chat at position j as often as there are attempts
      that are made and whose sends work up to that position, and nobody else. */
  lemma HandleSends(w: World, at: Place, n: Notification, c: Conditions, maxRetries: nat, j: nat)
    requires at.partition < |w.partitions| && n.update.url != "" && j < |n.chats| && Distinct(n.chats)
    ensures var w' := Handle(w, at, Decoded(n), c, maxRetries).0;
            multiset(w'.delivered)[Delivery(n.chats[j], n)]
            == multiset(w.delivered)[Delivery(n.chats[j], n)] + |Getting(|n.chats|, c, maxRetries, j)|
  {
    var ks := Attempts(|n.chats|, c, maxRetries, 0);
    HandleSent(w, at, n, c, maxRetries);
    DeliveriesJoin(w.delivered, To(Prefixes(n.chats, ks), n), Delivery(n.chats[j], n));
    SentCount(n, c, maxRetries, j, ks);
  }

  lemma HandleSendsNobodyElse(w: World, at: Place, m: Message, c: Conditions, maxRetries: nat, d: Delivery)
    requires at.partition < |w.partitions|
    requires m.Decoded? ==> m.notification.update.url == "" || d.notification != m.notification
                            || d.chat !in m.notification.chats
    ensures multiset(Handle(w, at, m, c, maxRetries).0.delivered)[d] == multiset(w.delivered)[d]
  {
    if m.Decoded? && IsValid(m.notification) {
      var n := m.notification;
      var ks := Attempts(|n.chats|, c, maxRetries, 0);
      HandleSent(w, at, n, c, maxRetries);
      PrefixesOfChats(n.chats, ks);
      DeliveriesJoin(w.delivered, To(Prefixes(n.chats, ks), n), d);
      ToOthers(Prefixes(n.chats, ks), n, d);
    }
  }

  // ----- the places of a run -----

  /** The event is a poll of the running consumer that reads the record at this place. */
  predicate Reads(w: World, e: Event, at: Place) {
    && e.Poll? && w.running && e.partition == at.partition && at.partition < |w.partitions|
    && w.partitions[at.partition].position == at.offset < |w.partitions[at.partition].log|
  }

  ghost predicate Delivers(w: World, e: Event, maxRetries: nat, at: Place) {
    Reads(w, e, at) && Deliverable(w.partitions[at.partition].log[at.offset], e.conditions, maxRetries)
  }

  ghost predicate Buries(w: World, e: Event, maxRetries: nat, at: Place) {
    && Reads(w, e, at) && e.conditions.deadLetter.TookEffect()
    && !Deliverable(w.partitions[at.partition].log[at.offset], e.conditions, maxRetries)
  }

  lemma OneStep(w: World, e: Event, maxRetries: nat, at: Place)
    ensures at in Step(w, e, maxRetries).handled <==> at in w.handled || Delivers(w, e, maxRetries, at)
    ensures at in Step(w, e, maxRetries).dead <==> at in w.dead || Buries(w, e, maxRetries, at)
  {
    if e.Poll? && w.running && e.partition < |w.partitions|
       && w.partitions[e.partition].position < |w.partitions[e.partition].log| {
      var p := w.partitions[e.partition];
      var polled := w.(partitions := w.partitions[e.partition := p.(position := p.position + 1)]);
      HandleExactly(polled, Place(e.partition, p.position), p.log[p.position], e.conditions, maxRetries);
    }
  }

  ghost predicate DeliversAt(w: World, events: seq<Event>, maxRetries: nat, k: nat, at: Place) {
    k < |events| && Delivers(Run(w, events[..k], maxRetries), events[k], maxRetries, at)
  }

  ghost predicate BuriesAt(w: World, events: seq<Event>, maxRetries: nat, k: nat, at: Place) {
    k < |events| && Buries(Run(w, events[..k], maxRetries), events[k], maxRetries, at)
  }

  lemma AtEarlier(w: World, before: seq<Event>, e: Event, maxRetries: nat, k: nat, at: Place)
    requires k < |before|
    ensures DeliversAt(w, before + [e], maxRetries, k, at) <==> DeliversAt(w, before, maxRetries, k, at)
    ensures BuriesAt(w, before + [e], maxRetries, k, at) <==> BuriesAt(w, before, maxRetries, k, at)
  {
    assert (before + [e])[..k] == before[..k];
  }

  lemma AtLast(w: World, before: seq<Event>, e: Event, maxRetries: nat, at: Place)
    ensures DeliversAt(w, before + [e], maxRetries, |before|, at)
            <==> Delivers(Run(w, before, maxRetries), e, maxRetries, at)
    ensures BuriesAt(w, before + [e], maxRetries, |before|, at)
            <==> Buries(Run(w, before, maxRetries), e, maxRetries, at)
  {
    assert (before + [e])[..|before|] == before;
  }

  lemma SomeEarlierOrLast(w: World, before: seq<Event>, e: Event, maxRetries: nat, at: Place)
    ensures (exists k: nat :: DeliversAt(w, before + [e], maxRetries, k, at)) <==>
            (exists k: nat :: DeliversAt(w, before, maxRetries, k, at))
            || Delivers(Run(w, before, maxRetries), e, maxRetries, at)
    ensures (exists k: nat :: BuriesAt(w, before + [e], maxRetries, k, at)) <==>
            (exists k: nat :: BuriesAt(w, before, maxRetries, k, at))
            || Buries(Run(w, before, maxRetries), e, maxRetries, at)
  {
    forall k: nat | k < |before|
      ensures DeliversAt(w, before + [e], maxRetries, k, at) <==> DeliversAt(w, before, maxRetries, k, at)
      ensures BuriesAt(w, before + [e], maxRetries, k, at) <==> BuriesAt(w, before, maxRetries, k, at)
    {
      AtEarlier(w, before, e, maxRetries, k, at);
    }
    AtLast(w, before, e, maxRetries, at);
  }

  /** Over any run: a place is handled exactly when some poll read it and met sends under which its record
      can be delivered, and it is in the dead letter topic exactly when some poll read it, met sends under
      which its record cannot be delivered, and the dead letter publish took effect. */
  lemma {:induction false} PlacesExactly(w: World, events: seq<Event>, maxRetries: nat, at: Place)
    requires Fresh(w)
    ensures at in Run(w, events, maxRetries).handled <==> exists k: nat :: DeliversAt(w, events, maxRetries, k, at)
    ensures at in Run(w, events, maxRetries).dead <==> exists k: nat :: BuriesAt(w, events, maxRetries, k, at)
  {
    if events != [] {
      var before, e := events[..|events| - 1], events[|events| - 1];
      PlacesExactly(w, before, maxRetries, at);
      OneStep(Run(w, before, maxRetries), e, maxRetries, at);
      SomeEarlierOrLast(w, before, e, maxRetries, at);
      assert before + [e] == events;
    }
  }

  /** Whatever enters the dead letter topic does not decode, has no URL or no chats, or met a failing send in
      each attempt that was made. */
  lemma DeadOnlyIf(w: World, events: seq<Event>, maxRetries: nat, at: Place)
    requires Fresh(w) && at in Run(w, events, maxRetries).dead
    ensures exists k: nat :: k < |events| && Reads(Run(w, events[..k], maxRetries), events[k], at)
              && var m := Run(w, events[..k], maxRetries).partitions[at.partition].log[at.offset];
                 || m.Undecodable? || m.notification.update.url == "" || m.notification.chats == []
                 || forall a: nat | IsMade(|m.notification.chats|, events[k].conditions, maxRetries, a) ::
                      !AllSends(|m.notification.chats|, events[k].conditions, a)
  {
    PlacesExactly(w, events, maxRetries, at);
    var k: nat :| BuriesAt(w, events, maxRetries, k, at);
    assert Reads(Run(w, events[..k], maxRetries), events[k], at);
  }

  // ----- what the chats received -----

  /** The delivery is of some record of the topic that has a URL, to a chat it is for. */
  ghost predicate FromTopic(w: World, d: Delivery) {
    exists i: nat, o: nat | i < |w.partitions| && o < |w.partitions[i].log| ::
      w.partitions[i].log[o] == Decoded(d.notification) && d.notification.update.url != ""
      && d.chat in d.notification.chats
  }

  lemma FromTopicGrows(w: World, w': World, d: Delivery)
    requires FromTopic(w, d) && Grows(w, w')
    ensures FromTopic(w', d)
  {
    var i: nat, o: nat :| i < |w.partitions| && o < |w.partitions[i].log| &&
                          w.partitions[i].log[o] == Decoded(d.notification) && d.notification.update.url != ""
                          && d.chat in d.notification.chats;
    assert w'.partitions[i].log[o] == w.partitions[i].log[o];
  }

  lemma StepDelivers(w: World, e: Event, maxRetries: nat, d: Delivery)
    requires Inv(w) && d in Step(w, e, maxRetries).delivered && d !in w.delivered
    ensures FromTopic(w, d)
  {
    var p := w.partitions[e.partition];
    var polled := w.(partitions := w.partitions[e.partition := p.(position := p.position + 1)]);
    var m := p.log[p.position];
    if m.Undecodable? || m.notification.update.url == "" || d.notification != m.notification
       || d.chat !in m.notification.chats {
      HandleSendsNobodyElse(polled, Place(e.partition, p.position), m, e.conditions, maxRetries, d);
    }
  }

  /** Over any run, whatever was sent was sent to a chat of a record of the topic. */
  lemma {:induction false} OnlyFromTopic(w: World, events: seq<Event>, maxRetries: nat, d: Delivery)
    requires Fresh(w) && d in Run(w, events, maxRetries).delivered
    ensures FromTopic(Run(w, events, maxRetries), d)
  {
    if events != [] {
      var before, e := events[..|events| - 1], events[|events| - 1];
      var w1 := Run(w, before, maxRetries);
      CommittedPrefix(w, before, maxRetries);
      StepKeeps(w1, e, maxRetries);
      if d in w1.delivered {
        OnlyFromTopic(w, before, maxRetries, d);
      } else {
        StepDelivers(w1, e, maxRetries, d);
      }
      FromTopicGrows(w1, Step(w1, e, maxRetries), d);
    }
  }
}
