/** The check of one link: fetch, move the watermark, and either write the outbox or send directly. */
module CheckLink {
  import opened Domain
  import opened Fetch

  datatype Status = Pending | Sent | Failed

  /** A row of outbox_messages. Rows are never deleted and are kept in insertion order, so a row's id
      is its position. */
  datatype Row = Row(message: Notification, status: Status, attempts: nat, createdAt: Time)

  /** The watermarks by link id, the outbox, and the notifications handed to SendUpdate so far. */
  datatype State = State(marks: map<int, Time>, outbox: seq<Row>, handed: seq<Notification>)

  /** What one check meets: the URL parses, the fetched page (none when the fetch fails), the
      subscribers (none when the lookup fails), which updates encode as JSON, how the write to the
      database ends, the clock, and which sends work. */
  datatype Conditions = Conditions(
    parses: bool, page: Option<seq<Update>>, subscribers: Option<seq<int>>, encodes: Update -> bool,
    write: Call, now: Time, stamps: nat -> Time, sends: nat -> bool)

  // ----- the specification -----

  function Notifications(updates: seq<Update>, chats: seq<int>): seq<Notification> {
    seq(|updates|, i requires 0 <= i < |updates| => Notification(updates[i], chats))
  }

  function Rows(messages: seq<Notification>, stamps: nat -> Time): seq<Row> {
    seq(|messages|, i requires 0 <= i < |messages| => Row(messages[i], Pending, 0, stamps(i)))
  }

  /** UpdateLastUpdated: an unknown id updates no row. */
  function SetMark(s: State, id: int, time: Time, call: Call): State {
    if call.TookEffect() && id in s.marks then s.(marks := s.marks[id := time]) else s
  }

  /** SaveLinkUpdateOutbox: the watermark and the rows in one transaction; a zero time leaves the mark. */
  function SaveUpdates(s: State, id: int, time: Time, rows: seq<Row>, call: Call): State {
    if !call.TookEffect() then s
    else (if time == ZERO_TIME then s else SetMark(s, id, time, call)).(outbox := s.outbox + rows)
  }

  function SaveMessages(s: State, rows: seq<Row>, call: Call): State {
    if call.TookEffect() then s.(outbox := s.outbox + rows) else s
  }

  /** How many of the notifications are handed over: up to and with the first send that fails. */
  function Handed(n: nat, sends: nat -> bool): (k: nat)
    ensures k <= n
  {
    var worked := Streak(n, sends);
    if worked < n then worked + 1 else n
  }

  function Baseline(s: State, link: Link, newMark: Time, c: Conditions): (State, bool) {
    (SetMark(s, link.id, if newMark == ZERO_TIME then c.now else newMark, c.write), c.write.Reported())
  }

  function OutboxCheck(s: State, link: Link, updates: seq<Update>, newMark: Time, c: Conditions): (State, bool) {
    if c.subscribers.None? then (s, false)
    else if c.subscribers.value == [] then
      if newMark > link.lastUpdatedAt then (SetMark(s, link.id, newMark, c.write), c.write.Reported()) else (s, true)
    else if exists u | u in updates :: !c.encodes(u) then (s, false)
    else
      var rows := Rows(Notifications(updates, c.subscribers.value), c.stamps);
      (if newMark > link.lastUpdatedAt then SaveUpdates(s, link.id, newMark, rows, c.write)
       else SaveMessages(s, rows, c.write),
       c.write.Reported())
  }

  function DirectCheck(s: State, link: Link, updates: seq<Update>, newMark: Time, c: Conditions): (State, bool) {
    var moves := newMark > link.lastUpdatedAt;
    var s1 := if moves then SetMark(s, link.id, newMark, c.write) else s;
    if moves && !c.write.Reported() then (s1, false)
    else if c.subscribers.None? then (s1, false)
    else if c.subscribers.value == [] then (s1, true)
    else
      var k := Handed(|updates|, c.sends);
      (s1.(handed := s1.handed + Notifications(updates, c.subscribers.value)[..k]),
       Streak(|updates|, c.sends) == |updates|)
  }

  /** processLink: the new state and whether it returned no error. */
  function Check(outboxEnabled: bool, s: State, link: Link, c: Conditions): (State, bool) {
    if !c.parses || c.page.None? then (s, false) else
      var updates := NewUpdates(c.page.value, link.lastUpdatedAt);
      var newMark := Latest(updates, link.lastUpdatedAt);
      if link.lastUpdatedAt == ZERO_TIME then Baseline(s, link, newMark, c)
      else if updates == [] then (s, true)
      else if outboxEnabled then OutboxCheck(s, link, updates, newMark, c)
      else DirectCheck(s, link, updates, newMark, c)
  }
}
