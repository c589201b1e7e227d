/** The check of one link as methods on the outbox and the links table. */
module LinkChecking {
  import opened Domain
  import opened Fetch
  import opened CheckLink
  import opened Store
  import opened SqlRepositories
  import Verdicts

  /** The watermarks by link id. */
  function Marks(t: Tables): map<int, Time> {
    map l | l in t.links :: t.links[l].lastUpdated
  }

  function WithMarks(t: Tables, marks: map<int, Time>): Tables {
    t.(links := map l | l in t.links ::
        LinkRow(t.links[l].url, if l in marks then marks[l] else t.links[l].lastUpdated))
  }

  /** Nothing but watermarks has changed. */
  predicate MarksOnly(before: Tables, now: Tables) {
    now == WithMarks(before, Marks(now))
  }

  lemma MarksOnlyItself(t: Tables)
    ensures MarksOnly(t, t)
  {
    var t' := WithMarks(t, Marks(t));
    forall l | l in t.links ensures t'.links[l] == t.links[l] {
      assert l in Marks(t);
    }
    assert t'.links == t.links;
  }

  lemma MarksOnlyJoins(a: Tables, b: Tables, c: Tables)
    requires MarksOnly(a, b) && MarksOnly(b, c)
    ensures MarksOnly(a, c)
  {
    assert c.links == WithMarks(a, Marks(c)).links;
  }

  /** What the checks leave alone. */
  lemma MarksOnlyKeeps(before: Tables, now: Tables)
    requires MarksOnly(before, now)
    ensures Valid(before) ==> Valid(now)
    ensures now.subscriptions == before.subscriptions && now.links.Keys == before.links.Keys
    ensures forall l | l in before.links :: now.links[l].url == before.links[l].url
  {}

  lemma MarkSet(t: Tables, id: int, time: Time)
    requires id in t.links
    ensures var t' := t.(links := t.links[id := t.links[id].(lastUpdated := time)]);
            Marks(t') == Marks(t)[id := time] && MarksOnly(t, t')
  {
    var t' := t.(links := t.links[id := t.links[id].(lastUpdated := time)]);
    assert Marks(t') == Marks(t)[id := time];
    var w := WithMarks(t, Marks(t'));
    forall l | l in t'.links ensures w.links[l] == t'.links[l] {
      assert l in Marks(t');
    }
    assert w.links == t'.links;
  }

  // ----- the operation -----

  class LinkChecker {
    const outboxEnabled: bool
    const db: Database
    var outbox: seq<Row>
    var handed: seq<Notification>

    constructor (outboxEnabled: bool, db: Database)
      ensures this.outboxEnabled == outboxEnabled && this.db == db && Now() == State(Marks(db.tables), [], [])
    {
      this.outboxEnabled, this.db, outbox, handed := outboxEnabled, db, [], [];
    }

    /** The watermarks are the column of the links table. */
    function Now(): State
      reads this, db
    {
      State(Marks(db.tables), outbox, handed)
    }

    method UpdateLastUpdated(id: int, time: Time, call: Call) returns (ok: bool)
      modifies db
      ensures Now() == SetMark(old(Now()), id, time, call) && ok == call.Reported()
      ensures MarksOnly(old(db.tables), db.tables)
    {
      MarksOnlyItself(db.tables);
      if id in db.tables.links { MarkSet(db.tables, id, time); }
      var reply := db.SetLastUpdated(id, time, call);
      ok := reply.Done?;
    }

    /** The transaction works on copies and publishes both of them or neither. */
    method SaveLinkUpdateOutbox(id: int, time: Time, messages: seq<Row>, call: Call) returns (ok: bool)
      modifies db, this`outbox
      ensures Now() == SaveUpdates(old(Now()), id, time, messages, call) && ok == call.Reported()
      ensures MarksOnly(old(db.tables), db.tables)
    {
      MarksOnlyItself(db.tables);
      if id in db.tables.links { MarkSet(db.tables, id, time); }
      var txTables, txOutbox := db.tables, outbox;
      if time != ZERO_TIME && id in txTables.links {
        txTables := txTables.(links := txTables.links[id := txTables.links[id].(lastUpdated := time)]);
      }
      for i := 0 to |messages|
        invariant txOutbox == outbox + messages[..i]
      {
        txOutbox := txOutbox + [messages[i]];
      }
      assert messages[..|messages|] == messages;
      if call.TookEffect() {
        db.tables, outbox := txTables, txOutbox;
      }
      ok := call.Reported();
    }

    method SaveOutboxMessages(messages: seq<Row>, call: Call) returns (ok: bool)
      modifies this`outbox
      ensures Now() == SaveMessages(old(Now()), messages, call) && ok == call.Reported()
    {
      if call.TookEffect() {
        outbox := outbox + messages;
      }
      ok := call.Reported();
    }

    /** The loop of processLink: with the outbox it collects rows and stops at an update that does not
        encode, without it it sends and stops at a send that fails. */
    method ForEachUpdate(updates: seq<Update>, subscribers: seq<int>, c: Conditions)
      returns (ok: bool, outboxMessages: seq<Row>)
      modifies this`handed
      ensures outboxEnabled ==>
                && handed == old(handed) && (ok <==> forall u | u in updates :: c.encodes(u))
                && (ok ==> outboxMessages == Rows(Notifications(updates, subscribers), c.stamps))
      ensures !outboxEnabled ==>
                && handed == old(handed) + Notifications(updates, subscribers)[..Handed(|updates|, c.sends)]
                && ok == (Streak(|updates|, c.sends) == |updates|)
    {
      outboxMessages := [];
      ghost var all := Notifications(updates, subscribers);
      StreakStops(|updates|, c.sends);
      for i := 0 to |updates|
        invariant outboxEnabled ==> handed == old(handed)
        invariant outboxEnabled ==>
                    outboxMessages == Rows(all, c.stamps)[..i] && forall u | u in updates[..i] :: c.encodes(u)
        invariant !outboxEnabled ==> handed == old(handed) + all[..i] && forall k: nat | k < i :: c.sends(k)
      {
        var dto := Notification(updates[i], subscribers);
        if outboxEnabled {
          if !c.encodes(updates[i]) {
            assert updates[i] in updates;
            return false, [];
          }
          outboxMessages := outboxMessages + [Row(dto, Pending, 0, c.stamps(i))];
          continue;
        }
        handed := handed + [dto];
        assert all[..i + 1] == all[..i] + [dto];
        if !c.sends(i) {
          assert Streak(|updates|, c.sends) == i;
          return false, [];
        }
      }
      assert updates[..|updates|] == updates && all[..|updates|] == all;
      ok := true;
    }

    method ProcessLink(link: Link, c: Conditions) returns (ok: bool)
      modifies this, db
      ensures (Now(), ok) == Check(outboxEnabled, old(Now()), link, c)
      ensures ok <==> !Verdicts.Errs(outboxEnabled, link, c)
      ensures MarksOnly(old(db.tables), db.tables)
    {
      Verdicts.VerdictExactly(outboxEnabled, Now(), link, c);
      MarksOnlyItself(db.tables);
      if !c.parses { return false; }
      if c.page.None? { return false; }
      var updates := NewUpdates(c.page.value, link.lastUpdatedAt);
      var newUpdatedAt := Latest(updates, link.lastUpdatedAt);

      if link.lastUpdatedAt == ZERO_TIME {
        if newUpdatedAt == ZERO_TIME {
          newUpdatedAt := c.now;
        }
        ok := UpdateLastUpdated(link.id, newUpdatedAt, c.write);
        return;
      }
      if |updates| == 0 { return true; }

      if !outboxEnabled && newUpdatedAt > link.lastUpdatedAt {
        ok := UpdateLastUpdated(link.id, newUpdatedAt, c.write);
        if !ok { return false; }
      }

      if c.subscribers.None? { return false; }
      var subscribers := c.subscribers.value;
      if |subscribers| == 0 {
        if outboxEnabled && newUpdatedAt > link.lastUpdatedAt {
          ok := UpdateLastUpdated(link.id, newUpdatedAt, c.write);
          return;
        }
        return true;
      }

      var outboxMessages: seq<Row>;
      ok, outboxMessages := ForEachUpdate(updates, subscribers, c);
      if !ok { return; }

      if outboxEnabled {
        if newUpdatedAt > link.lastUpdatedAt {
          ok := SaveLinkUpdateOutbox(link.id, newUpdatedAt, outboxMessages, c.write);
          return;
        }
        ok := SaveOutboxMessages(outboxMessages, c.write);
        return;
      }
      return true;
    }
  }
}
