/** The check of one link as a list of effects on what the workers share. */
module Effects {
  import opened Domain
  import opened Fetch
  import opened CheckLink

  /** One effect of a check on what the workers share. */
  datatype Action = Move(id: int, time: Time) | Store(id: int, time: Time, rows: seq<Row>) | StoreRows(rows: seq<Row>)
    | Send(message: Notification)

  function Perform1(s: State, a: Action): State {
    match a
    case Move(id, time) => SetMark(s, id, time, Worked)
    case Store(id, time, rows) => SaveUpdates(s, id, time, rows, Worked)
    case StoreRows(rows) => SaveMessages(s, rows, Worked)
    case Send(message) => s.(handed := s.handed + [message])
  }

  function Perform(s: State, actions: seq<Action>): State {
    if actions == [] then s else Perform1(Perform(s, actions[..|actions| - 1]), actions[|actions| - 1])
  }

  function Sends(messages: seq<Notification>): seq<Action> {
    seq(|messages|, i requires 0 <= i < |messages| => Send(messages[i]))
  }

  function If(call: Call, a: Action): seq<Action> {
    if call.TookEffect() then [a] else []
  }

  /** The effects of a check in order; they depend on the link and on what the check meets only. */
  function Program(outboxEnabled: bool, link: Link, c: Conditions): seq<Action> {
    if !c.parses || c.page.None? then [] else
      var updates := NewUpdates(c.page.value, link.lastUpdatedAt);
      var newMark := Latest(updates, link.lastUpdatedAt);
      if link.lastUpdatedAt == ZERO_TIME then
        If(c.write, Move(link.id, if newMark == ZERO_TIME then c.now else newMark))
      else if updates == [] then []
      else if outboxEnabled then
        if c.subscribers.None? then []
        else if c.subscribers.value == [] then
          if newMark > link.lastUpdatedAt then If(c.write, Move(link.id, newMark)) else []
        else if exists u | u in updates :: !c.encodes(u) then []
        else
          var rows := Rows(Notifications(updates, c.subscribers.value), c.stamps);
          If(c.write, if newMark > link.lastUpdatedAt then Store(link.id, newMark, rows) else StoreRows(rows))
      else
        var moves := newMark > link.lastUpdatedAt;
        (if moves then If(c.write, Move(link.id, newMark)) else [])
        + if (moves && !c.write.Reported()) || c.subscribers.None? then []
          else
            var n := if c.subscribers.value == [] then 0 else Handed(|updates|, c.sends);
            Sends(Notifications(updates, c.subscribers.value)[..n])
  }

  lemma {:induction false} PerformConcat(s: State, a: seq<Action>, b: seq<Action>)
    ensures Perform(s, a + b) == Perform(Perform(s, a), b)
  {
    if b == [] {
      assert a + b == a;
    } else {
      var n := |b| - 1;
      assert (a + b)[..|a + b| - 1] == a + b[..n];
      PerformConcat(s, a, b[..n]);
    }
  }

  lemma {:induction false} PerformSends(s: State, messages: seq<Notification>)
    ensures Perform(s, Sends(messages)) == s.(handed := s.handed + messages)
  {
    if messages == [] {
      assert s.handed + messages == s.handed;
    } else {
      var n := |messages| - 1;
      assert Sends(messages)[..n] == Sends(messages[..n]);
      PerformSends(s, messages[..n]);
      assert s.handed + messages[..n] + [messages[n]] == s.handed + messages;
    }
  }

  lemma Perform0or1(s: State, call: Call, a: Action)
    ensures Perform(s, If(call, a)) == if call.TookEffect() then Perform1(s, a) else s
  {
    assert [a][..0] == [];
  }

  /** The program of a check is the check: from any state it leaves what processLink leaves. */
  lemma ProgramIsCheck(outboxEnabled: bool, s: State, link: Link, c: Conditions)
    ensures Perform(s, Program(outboxEnabled, link, c)) == Check(outboxEnabled, s, link, c).0
  {
    if c.parses && c.page.Some? {
      var updates := NewUpdates(c.page.value, link.lastUpdatedAt);
      var newMark := Latest(updates, link.lastUpdatedAt);
      if link.lastUpdatedAt == ZERO_TIME {
        Perform0or1(s, c.write, Move(link.id, if newMark == ZERO_TIME then c.now else newMark));
      } else if updates != [] {
        if outboxEnabled {
          OutboxProgramIsCheck(s, link, updates, newMark, c);
        } else {
          DirectProgramIsCheck(s, link, updates, newMark, c);
        }
      }
    }
  }

  lemma OutboxProgramIsCheck(s: State, link: Link, updates: seq<Update>, newMark: Time, c: Conditions)
    requires c.parses && c.page.Some? && link.lastUpdatedAt != ZERO_TIME && updates != []
    requires updates == NewUpdates(c.page.value, link.lastUpdatedAt) && newMark == Latest(updates, link.lastUpdatedAt)
    ensures Perform(s, Program(true, link, c)) == OutboxCheck(s, link, updates, newMark, c).0
  {
    if c.subscribers.Some? {
      var rows := Rows(Notifications(updates, c.subscribers.value), c.stamps);
      Perform0or1(s, c.write, Move(link.id, newMark));
      Perform0or1(s, c.write, Store(link.id, newMark, rows));
      Perform0or1(s, c.write, StoreRows(rows));
    }
  }

  lemma DirectProgramIsCheck(s: State, link: Link, updates: seq<Update>, newMark: Time, c: Conditions)
    requires c.parses && c.page.Some? && link.lastUpdatedAt != ZERO_TIME && updates != []
    requires updates == NewUpdates(c.page.value, link.lastUpdatedAt) && newMark == Latest(updates, link.lastUpdatedAt)
    ensures Perform(s, Program(false, link, c)) == DirectCheck(s, link, updates, newMark, c).0
  {
    var moves := newMark > link.lastUpdatedAt;
    var first := if moves then If(c.write, Move(link.id, newMark)) else [];
    Perform0or1(s, c.write, Move(link.id, newMark));
    var s1 := Perform(s, first);
    if (moves && !c.write.Reported()) || c.subscribers.None? {
      assert Program(false, link, c) == first + [] == first;
    } else {
      var k := if c.subscribers.value == [] then 0 else Handed(|updates|, c.sends);
      var messages := Notifications(updates, c.subscribers.value)[..k];
      assert Program(false, link, c) == first + Sends(messages);
      PerformConcat(s, first, Sends(messages));
      PerformSends(s1, messages);
      if k == 0 { assert s1.handed + messages == s1.handed; }
    }
  }
}
