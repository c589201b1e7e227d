/** The agent's per-chat buffer: one group per chat and window, over every interleaving of its callers. */
module Grouping {
  import opened Domain
  import opened Api

  type Message = LinkUpdate<string>

  // ----- one group -----

  function Digits(n: nat): string {
    if n < 10 then [(n as char) + '0'] else Digits(n / 10) + [(n % 10) as char + '0']
  }

  predicate AllDigits(text: string) {
    forall i | 0 <= i < |text| :: '0' <= text[i] <= '9'
  }

  /** What a run of digits is worth. */
  function Worth(digits: string): nat
    requires AllDigits(digits)
  {
    if digits == "" then 0 else
      Worth(digits[..|digits| - 1]) * 10 + (digits[|digits| - 1] - '0') as nat
  }

  /** The digits of a number are worth it and begin with a zero for zero alone. */
  lemma {:induction false} DigitsExactly(n: nat)
    ensures Digits(n) != "" && AllDigits(Digits(n)) && Worth(Digits(n)) == n
    ensures Digits(n)[0] == '0' <==> n == 0
  {
    if n < 10 {
      assert Worth("") == 0;
    } else {
      DigitsExactly(n / 10);
      assert Digits(n)[..|Digits(n)| - 1] == Digits(n / 10);
    }
  }

  function Entry(updates: seq<Message>, i: nat): string
    requires i < |updates|
  {
    (if i > 0 then "\n\n" else "") + Digits(i + 1) + ". " + updates[i].description
  }

  /** The entries of the first n updates, in order. */
  function Numbered(updates: seq<Message>, n: nat): string
    requires n <= |updates|
  {
    if n == 0 then "" else Numbered(updates, n - 1) + Entry(updates, n - 1)
  }

  /** Every update's entry is in the description, at the end of what the updates before it take. */
  lemma {:induction false} EveryEntryIsThere(updates: seq<Message>, i: nat, n: nat)
    requires i < n <= |updates|
    ensures Numbered(updates, i) + Entry(updates, i) <= Numbered(updates, n)
  {
    if i < n - 1 {
      EveryEntryIsThere(updates, i, n - 1);
    }
  }

  /** How the description of a group begins. */
  lemma FirstEntry(updates: seq<Message>)
    requires |updates| >= 1
    ensures Numbered(updates, 1) == "1. " + updates[0].description
  {
    assert Numbered(updates, 0) == "" && Digits(1) == "1";
    assert Entry(updates, 0) == "" + Digits(1) + ". " + updates[0].description;
    assert "1" + ". " == "1. ";
  }

  lemma SecondEntry(updates: seq<Message>)
    requires |updates| >= 2
    ensures Numbered(updates, 2) == Numbered(updates, 1) + ("\n\n2. " + updates[1].description)
  {
    assert Digits(2) == "2";
    assert Entry(updates, 1) == "\n\n" + Digits(2) + ". " + updates[1].description;
    assert "\n\n" + "2" + ". " == "\n\n2. ";
  }

  method BuildNumberedDescription(updates: seq<Message>) returns (text: string)
    ensures text == Numbered(updates, |updates|)
  {
    text := "";
    for i := 0 to |updates|
      invariant text == Numbered(updates, i)
    {
      ghost var before := text;
      if i > 0 {
        text := text + "\n\n";
      }
      text := text + (Digits(i + 1) + ". " + updates[i].description);
      assert text == before + Entry(updates, i);
    }
  }

  const HIGH := "HIGH"
  const MEDIUM := "MEDIUM"
  const LOW := "LOW"

  function Rank(priority: string): int {
    if priority == HIGH then 3 else if priority == MEDIUM then 2 else if priority == LOW then 1 else 0
  }

  /** The highest of the priorities and LOW, by rank; a priority the agent does not know never wins. */
  predicate IsMaxPriority(updates: seq<Message>, p: string) {
    && (p == LOW || exists u :: u in updates && u.priority == p)
    && Rank(p) >= 1 && (forall u | u in updates :: Rank(u.priority) <= Rank(p))
  }

  /** It is the only one: known priorities differ in rank. */
  lemma MaxPriorityUnique(updates: seq<Message>, p: string, q: string)
    requires IsMaxPriority(updates, p) && IsMaxPriority(updates, q)
    ensures p == q
  {
    assert Rank(p) == Rank(q);
  }

  predicate Has(updates: seq<Message>, priority: string) {
    exists u :: u in updates && u.priority == priority
  }

  /** It is HIGH if some update is, or else MEDIUM if some update is, or else LOW. */
  lemma MaxPriorityExactly(updates: seq<Message>, p: string)
    ensures IsMaxPriority(updates, p)
            <==> p == if Has(updates, "HIGH") then "HIGH" else if Has(updates, "MEDIUM") then "MEDIUM" else "LOW"
  {
    if IsMaxPriority(updates, p) {
      assert Has(updates, "HIGH") ==> Rank("HIGH") <= Rank(p);
      assert Has(updates, "MEDIUM") ==> Rank("MEDIUM") <= Rank(p);
    }
  }

  method MaxPriority(updates: seq<Message>) returns (result: string)
    ensures IsMaxPriority(updates, result)
  {
    result := LOW;
    for i := 0 to |updates|
      invariant IsMaxPriority(updates[..i], result)
    {
      var priority := updates[i].priority;
      assert updates[..i + 1] == updates[..i] + [updates[i]];
      assert updates[i] in updates[..i + 1];
      if Rank(priority) > Rank(result) {
        result := priority;
      }
    }
    assert updates[..|updates|] == updates;
  }

  /** What flushing a chat's updates produces: a single update as it is, or the first one with all the
      descriptions and the highest priority. */
  ghost predicate IsGroup(chat: int, updates: seq<Message>, group: Message)
    requires updates != []
  {
    if |updates| == 1 then group == updates[0]
    else
      && group == updates[0].(tgChatIds := [chat], description := Numbered(updates, |updates|),
          priority := group.priority)
      && IsMaxPriority(updates, group.priority)
  }

  /** The highest priority, computed. */
  function Highest(updates: seq<Message>): string {
    if updates == [] then LOW else
      var before, p := Highest(updates[..|updates| - 1]), updates[|updates| - 1].priority;
      if Rank(p) > Rank(before) then p else before
  }

  lemma {:induction false} HighestIsMax(updates: seq<Message>)
    ensures IsMaxPriority(updates, Highest(updates))
  {
    if updates != [] {
      var n := |updates| - 1;
      HighestIsMax(updates[..n]);
      assert updates == updates[..n] + [updates[n]];
    }
  }

  /** The one group there is for some updates. */
  function GroupOf(chat: int, updates: seq<Message>): Message
    requires updates != []
  {
    if |updates| == 1 then updates[0]
    else updates[0].(tgChatIds := [chat], description := Numbered(updates, |updates|), priority := Highest(updates))
  }

  lemma GroupIsGroupOf(chat: int, updates: seq<Message>, group: Message)
    requires updates != []
    ensures IsGroup(chat, updates, group) <==> group == GroupOf(chat, updates)
  {
    HighestIsMax(updates);
    if |updates| != 1 && IsGroup(chat, updates, group) {
      MaxPriorityUnique(updates, group.priority, Highest(updates));
    }
  }

  method BuildGroupedUpdate(chat: int, updates: seq<Message>) returns (result: Message)
    requires updates != []
    ensures IsGroup(chat, updates, result) && result == GroupOf(chat, updates)
  {
    if |updates| == 1 {
      return updates[0];
    }
    result := updates[0].(tgChatIds := [chat]);
    var text := BuildNumberedDescription(updates);
    var priority := MaxPriority(updates);
    result := result.(description := text, priority := priority);
    GroupIsGroupOf(chat, updates, result);
  }

  // ----- the shared state -----

  datatype Timer = Timer(number: nat, chat: int)
  datatype Buffer = Buffer(updates: seq<Message>, timer: Timer)

  /** The updates one flush took out of a buffer, and whether they were handed to the producer. */
  datatype Group = Group(chat: int, updates: seq<Message>, handed: bool)

  datatype Added = Added(chat: int, update: Message)

  /** The buffers, the armed timers, the callbacks of fired timers that have not yet run, the groups in
      the order they were taken, the calls of the producer by the number of the group they were for, for
      each FlushAll under way the chats it still has to flush, and the updates added so far. */
  datatype State = State(
    buffers: map<int, Buffer>, armed: set<Timer>, called: set<Timer>, timers: nat,
    taken: seq<Group>, calls: seq<nat>, flushers: seq<seq<int>>, added: seq<Added>)

  const EMPTY := State(map[], {}, {}, 0, [], [], [], [])

  // ----- steps: each is one critical section, one fired timer or one call of the producer -----

  function AddFor(s: State, chat: int, update: Message): State {
    var u := update.(tgChatIds := [chat]);
    var added := s.added + [Added(chat, u)];
    if chat in s.buffers then
      s.(buffers := s.buffers[chat := s.buffers[chat].(updates := s.buffers[chat].updates + [u])], added := added)
    else
      var t := Timer(s.timers, chat);
      s.(buffers := s.buffers[chat := Buffer([u], t)], armed := s.armed + {t}, timers := s.timers + 1, added := added)
  }

  /** The critical section of flushChat. */
  function Take(s: State, chat: int): State {
    if chat !in s.buffers then s else
      var b := s.buffers[chat];
      s.(buffers := s.buffers - {chat}, armed := s.armed - {b.timer},
         taken := if b.updates == [] then s.taken else s.taken + [Group(chat, b.updates, false)])
  }

  /** The thread that took group i calls the producer with it, if it has not yet; an error is only logged. */
  function HandOver(s: State, i: nat): State {
    if i < |s.taken| && !s.taken[i].handed then
      s.(taken := s.taken[i := s.taken[i].(handed := true)], calls := s.calls + [i])
    else s
  }

  datatype Event =
    | Add(chat: int, update: Message)
    | Fire(timer: Timer)
    | Callback(timer: Timer)
    | Snapshot(order: seq<int>)
    | FlushNext(flusher: nat)
    | Produce(group: nat)

  /** One step of any thread; an event that is not possible in the state changes nothing. */
  function Step(s: State, e: Event): State {
    match e
    case Add(chat, update) => AddFor(s, chat, update)
    case Fire(t) => if t in s.armed then s.(armed := s.armed - {t}, called := s.called + {t}) else s
    case Callback(t) => if t in s.called then Take(s.(called := s.called - {t}), t.chat) else s
    case Snapshot(order) =>
      if (set c | c in order) == s.buffers.Keys then s.(flushers := s.flushers + [order]) else s
    case FlushNext(f) =>
      if f < |s.flushers| && s.flushers[f] != [] then
        Take(s.(flushers := s.flushers[f := s.flushers[f][1..]]), s.flushers[f][0])
      else s
    case Produce(i) => HandOver(s, i)
  }

  function Run(s: State, events: seq<Event>): State
    decreases |events|
  {
    if events == [] then s else Step(Run(s, events[..|events| - 1]), events[|events| - 1])
  }

  // ----- conservation -----

  function AddedTo(added: seq<Added>, chat: int): seq<Message> {
    if added == [] then [] else
      var a := added[|added| - 1];
      AddedTo(added[..|added| - 1], chat) + if a.chat == chat then [a.update] else []
  }

  /** The updates of the Add events for the chat, in order, each addressed to that chat alone. */
  function AddsTo(events: seq<Event>, chat: int): seq<Message>
    decreases |events|
  {
    if events == [] then [] else
      var e := events[|events| - 1];
      AddsTo(events[..|events| - 1], chat) + if e.Add? && e.chat == chat then [e.update.(tgChatIds := [chat])] else []
  }

  /** They are addressed to nobody else. */
  lemma {:induction false} AddsToAreFor(events: seq<Event>, chat: int)
    ensures forall u | u in AddsTo(events, chat) :: u.tgChatIds == [chat]
    decreases |events|
  {
    if events != [] {
      AddsToAreFor(events[..|events| - 1], chat);
    }
  }

  /** The updates of the chat's groups, in the order they were taken. */
  function TakenFrom(taken: seq<Group>, chat: int): seq<Message> {
    if taken == [] then [] else
      var g := taken[|taken| - 1];
      TakenFrom(taken[..|taken| - 1], chat) + if g.chat == chat then g.updates else []
  }

  function Buffered(s: State, chat: int): seq<Message> {
    if chat in s.buffers then s.buffers[chat].updates else []
  }

  /** What was taken for the chat and then what is still buffered. */
  function TakenAndBuffered(s: State, chat: int): seq<Message> {
    TakenFrom(s.taken, chat) + Buffered(s, chat)
  }

  /** That is what was added for the chat, in order. */
  predicate Conserved(s: State, chat: int) {
    AddedTo(s.added, chat) == TakenAndBuffered(s, chat)
  }

  lemma AddedOne(added: seq<Added>, a: Added, chat: int)
    ensures AddedTo(added + [a], chat) == AddedTo(added, chat) + if a.chat == chat then [a.update] else []
  {
    assert (added + [a])[..|added|] == added;
  }

  lemma TakenOne(taken: seq<Group>, g: Group, chat: int)
    ensures TakenFrom(taken + [g], chat) == TakenFrom(taken, chat) + if g.chat == chat then g.updates else []
  {
    assert (taken + [g])[..|taken|] == taken;
  }

  lemma TakeConserves(s: State, c: int, chat: int)
    ensures TakenAndBuffered(Take(s, c), chat) == TakenAndBuffered(s, chat) && Take(s, c).added == s.added
  {
    if c in s.buffers {
      TakenOne(s.taken, Group(c, s.buffers[c].updates, false), chat);
    }
  }

  lemma {:induction false} HandedTaken(taken: seq<Group>, i: nat, chat: int)
    requires i < |taken|
    ensures TakenFrom(taken[i := taken[i].(handed := true)], chat) == TakenFrom(taken, chat)
  {
    var n := |taken| - 1;
    var after := taken[i := taken[i].(handed := true)];
    if i < n {
      assert after[..n] == taken[..n][i := taken[i].(handed := true)];
      HandedTaken(taken[..n], i, chat);
    } else {
      assert after[..n] == taken[..n];
    }
  }

  lemma AddConserves(s: State, c: int, update: Message, chat: int)
    requires Conserved(s, chat)
    ensures Conserved(AddFor(s, c, update), chat)
  {
    AddedOne(s.added, Added(c, update.(tgChatIds := [c])), chat);
  }

  lemma HandOverConserves(s: State, i: nat, chat: int)
    ensures TakenAndBuffered(HandOver(s, i), chat) == TakenAndBuffered(s, chat) && HandOver(s, i).added == s.added
  {
    if i < |s.taken| && !s.taken[i].handed {
      HandedTaken(s.taken, i, chat);
    }
  }

  lemma StepConserves(s: State, e: Event, chat: int)
    requires Conserved(s, chat)
    ensures Conserved(Step(s, e), chat)
  {
    match e
    case Add(c, update) => AddConserves(s, c, update, chat);
    case Fire(_) =>
    case Callback(t) => TakeConserves(s.(called := s.called - {t}), t.chat, chat);
    case Snapshot(_) =>
    case FlushNext(f) =>
      if f < |s.flushers| && s.flushers[f] != [] {
        TakeConserves(s.(flushers := s.flushers[f := s.flushers[f][1..]]), s.flushers[f][0], chat);
      }
    case Produce(i) => HandOverConserves(s, i, chat);
  }

  /** Adding an update for a chat puts it, addressed to that chat alone, at the end of the chat's buffer, and
      touches no other buffer. */
  lemma AddBuffers(s: State, chat: int, update: Message, other: int)
    ensures Buffered(AddFor(s, chat, update), chat) == Buffered(s, chat) + [update.(tgChatIds := [chat])]
    ensures other != chat ==> Buffered(AddFor(s, chat, update), other) == Buffered(s, other)
  {}

  lemma {:induction false} AddedAreAdds(events: seq<Event>, chat: int)
    ensures AddedTo(Run(EMPTY, events).added, chat) == AddsTo(events, chat)
    decreases |events|
  {
    if events != [] {
      var e := events[|events| - 1];
      var before := Run(EMPTY, events[..|events| - 1]);
      AddedAreAdds(events[..|events| - 1], chat);
      if e.Add? {
        AddedOne(before.added, Added(e.chat, e.update.(tgChatIds := [e.chat])), chat);
      } else {
        StepConservesAdded(before, e);
      }
    }
  }

  lemma StepConservesAdded(s: State, e: Event)
    requires !e.Add?
    ensures Step(s, e).added == s.added
  {}

  /** No interleaving loses, repeats or reorders an update of a chat on its way out of the buffer: what was
      taken for the chat and what is still buffered are the updates of the Add events, in order. */
  lemma {:induction false} RunConserves(events: seq<Event>, chat: int)
    ensures Conserved(Run(EMPTY, events), chat)
    ensures TakenAndBuffered(Run(EMPTY, events), chat) == AddsTo(events, chat)
    decreases |events|
  {
    if events != [] {
      RunConserves(events[..|events| - 1], chat);
      StepConserves(Run(EMPTY, events[..|events| - 1]), events[|events| - 1], chat);
    }
    AddedAreAdds(events, chat);
  }

  function OfGroup(g: Group, chat: int): multiset<Message> {
    if g.chat == chat then multiset(g.updates) else multiset{}
  }

  /** The updates of the chat's groups that were, or were not yet, handed to the producer. */
  function TakenWith(taken: seq<Group>, chat: int, handed: bool): multiset<Message> {
    if taken == [] then multiset{} else
      var g := taken[|taken| - 1];
      TakenWith(taken[..|taken| - 1], chat, handed) + if g.handed == handed then OfGroup(g, chat) else multiset{}
  }

  lemma {:induction false} TakenSplits(taken: seq<Group>, chat: int)
    ensures multiset(TakenFrom(taken, chat)) == TakenWith(taken, chat, false) + TakenWith(taken, chat, true)
  {
    if taken != [] {
      TakenSplits(taken[..|taken| - 1], chat);
    }
  }

  // ----- the calls of the producer -----

  /** What the calls of the producer carried for the chat. */
  function Produced(taken: seq<Group>, calls: seq<nat>, chat: int): multiset<Message>
    decreases |calls|
  {
    if calls == [] then multiset{} else
      var i := calls[|calls| - 1];
      Produced(taken, calls[..|calls| - 1], chat) + if i < |taken| then OfGroup(taken[i], chat) else multiset{}
  }

  /** The producer was called for each group at most once, and for those marked as handed over only. */
  ghost predicate CalledOnce(s: State) {
    && (forall i, j | 0 <= i < j < |s.calls| :: s.calls[i] != s.calls[j])
    && (forall i: nat :: i in s.calls <==> i < |s.taken| && s.taken[i].handed)
  }

  lemma {:induction false} ProducedSame(taken: seq<Group>, taken': seq<Group>, calls: seq<nat>, chat: int)
    requires |taken| <= |taken'| && forall i | i in calls :: i < |taken|
    requires forall i | 0 <= i < |taken| :: taken'[i].chat == taken[i].chat && taken'[i].updates == taken[i].updates
    ensures Produced(taken', calls, chat) == Produced(taken, calls, chat)
    decreases |calls|
  {
    if calls != [] {
      var before := calls[..|calls| - 1];
      assert calls[|calls| - 1] in calls && forall i | i in before :: i in calls;
      ProducedSame(taken, taken', before, chat);
    }
  }

  lemma ProducedOne(taken: seq<Group>, calls: seq<nat>, i: nat, chat: int)
    requires i < |taken|
    ensures Produced(taken, calls + [i], chat) == Produced(taken, calls, chat) + OfGroup(taken[i], chat)
  {
    assert (calls + [i])[..|calls|] == calls;
  }

  lemma Regroup(a: multiset<Message>, b: multiset<Message>, c: multiset<Message>)
    ensures (a + b) + c == (a + c) + b
  {}

  lemma {:induction false} HandedOne(taken: seq<Group>, i: nat, chat: int)
    requires i < |taken| && !taken[i].handed
    ensures TakenWith(taken[i := taken[i].(handed := true)], chat, true)
            == TakenWith(taken, chat, true) + OfGroup(taken[i], chat)
  {
    var n := |taken| - 1;
    var after := taken[i := taken[i].(handed := true)];
    if i < n {
      assert after[..n] == taken[..n][i := taken[i].(handed := true)];
      HandedOne(taken[..n], i, chat);
      Regroup(TakenWith(taken[..n], chat, true), OfGroup(taken[i], chat),
          if taken[n].handed then OfGroup(taken[n], chat) else multiset{});
    } else {
      assert after[..n] == taken[..n];
    }
  }

  /** The calls carried exactly the groups marked as handed over. */
  ghost predicate CallsMatch(s: State, chat: int) {
    CalledOnce(s) && Produced(s.taken, s.calls, chat) == TakenWith(s.taken, chat, true)
  }

  lemma TakeMatches(s: State, c: int, chat: int)
    requires CallsMatch(s, chat)
    ensures CallsMatch(Take(s, c), chat)
  {
    if c in s.buffers && s.buffers[c].updates != [] {
      var taken := s.taken + [Group(c, s.buffers[c].updates, false)];
      assert taken[..|s.taken|] == s.taken;
      ProducedSame(s.taken, taken, s.calls, chat);
    }
  }

  lemma HandOverOnce(s: State, i: nat)
    requires CalledOnce(s)
    ensures CalledOnce(HandOver(s, i))
  {
    if i < |s.taken| && !s.taken[i].handed {
      assert i !in s.calls && forall j | 0 <= j < |s.calls| :: s.calls[j] in s.calls;
    }
  }

  lemma HandOverMatches(s: State, i: nat, chat: int)
    requires CallsMatch(s, chat)
    ensures CallsMatch(HandOver(s, i), chat)
  {
    HandOverOnce(s, i);
    if i < |s.taken| && !s.taken[i].handed {
      var taken := s.taken[i := s.taken[i].(handed := true)];
      HandedOne(s.taken, i, chat);
      ProducedSame(s.taken, taken, s.calls, chat);
      ProducedOne(taken, s.calls, i, chat);
    }
  }

  lemma StepMatches(s: State, e: Event, chat: int)
    requires CallsMatch(s, chat)
    ensures CallsMatch(Step(s, e), chat)
  {
    match e
    case Callback(t) => TakeMatches(s.(called := s.called - {t}), t.chat, chat);
    case FlushNext(f) =>
      if f < |s.flushers| && s.flushers[f] != [] {
        TakeMatches(s.(flushers := s.flushers[f := s.flushers[f][1..]]), s.flushers[f][0], chat);
      }
    case Produce(i) => HandOverMatches(s, i, chat);
    case _ =>
  }

  /** In every interleaving no group is handed to the producer twice. */
  lemma {:induction false} RunMatches(events: seq<Event>, chat: int)
    ensures CallsMatch(Run(EMPTY, events), chat)
    decreases |events|
  {
    if events != [] {
      RunMatches(events[..|events| - 1], chat);
      StepMatches(Run(EMPTY, events[..|events| - 1]), events[|events| - 1], chat);
    }
  }

  /** For each chat the updates of its Add events are those buffered, those taken for sending and those handed to the
      producer, each once. */
  lemma GroupingConserves(events: seq<Event>, chat: int)
    ensures var s := Run(EMPTY, events);
            && CalledOnce(s)
            && multiset(AddsTo(events, chat))
               == multiset(Buffered(s, chat)) + TakenWith(s.taken, chat, false) + Produced(s.taken, s.calls, chat)
  {
    var s := Run(EMPTY, events);
    RunConserves(events, chat);
    RunMatches(events, chat);
    BagJoin(TakenFrom(s.taken, chat), Buffered(s, chat));
    TakenSplits(s.taken, chat);
  }

  lemma BagJoin(a: seq<Message>, b: seq<Message>)
    ensures multiset(a + b) == multiset(b) + multiset(a)
  {}

  // ----- timers -----

  /** A buffered chat has a timer that is armed or whose callback has yet to run, and something buffered;
      an armed timer is the one of its chat's buffer. */
  ghost predicate TimerShape(s: State, chat: int) {
    && (chat in s.buffers ==>
          var b := s.buffers[chat];
          b.timer.chat == chat && (b.timer in s.armed || b.timer in s.called) && b.updates != [])
    && (forall t | t in s.armed && t.chat == chat :: chat in s.buffers && s.buffers[chat].timer == t)
  }

  lemma StepTimers(s: State, e: Event, chat: int)
    requires forall c :: TimerShape(s, c)
    ensures TimerShape(Step(s, e), chat)
  {
    assert TimerShape(s, chat);
    match e
    case Add(c, _) => assert TimerShape(s, c);
    case Fire(t) => assert TimerShape(s, t.chat);
    case Callback(t) => assert TimerShape(s, t.chat);
    case Snapshot(_) =>
    case FlushNext(f) =>
      if f < |s.flushers| && s.flushers[f] != [] {
        assert TimerShape(s, s.flushers[f][0]);
      }
    case Produce(_) =>
  }

  /** No buffered update is forgotten: in every reachable state the buffer's timer will still fire, or its
      callback is on its way. */
  lemma {:induction false} RunTimers(events: seq<Event>)
    ensures forall chat :: TimerShape(Run(EMPTY, events), chat)
    decreases |events|
  {
    if events != [] {
      RunTimers(events[..|events| - 1]);
      forall chat ensures TimerShape(Run(EMPTY, events), chat) {
        StepTimers(Run(EMPTY, events[..|events| - 1]), events[|events| - 1], chat);
      }
    }
  }

  // ----- FlushAll -----

  /** A FlushAll that is interleaved with anything but Adds leaves nothing buffered: each chat still
      buffered is one it has yet to flush. */
  lemma {:induction false} FlushAllCovers(s: State, order: seq<int>, events: seq<Event>)
    requires (set c | c in order) == s.buffers.Keys && forall e | e in events :: !e.Add?
    ensures var s' := Run(Step(s, Snapshot(order)), events);
            && |s.flushers| < |s'.flushers|
            && (forall c | c in s'.buffers :: c in s'.flushers[|s.flushers|])
            && (s'.flushers[|s.flushers|] == [] ==> s'.buffers == map[])
    decreases |events|
  {
    var f := |s.flushers|;
    var s0 := Step(s, Snapshot(order));
    if events == [] {
      assert s0.flushers[f] == order;
      assert forall c | c in s0.buffers :: c in s0.buffers.Keys;
    } else {
      var n := |events| - 1;
      assert events[n] in events;
      FlushAllCovers(s, order, events[..n]);
      var before := Run(s0, events[..n]);
      CoverStep(before, f, events[n]);
    }
    var s' := Run(s0, events);
    if s'.flushers[f] == [] {
      assert s'.buffers.Keys == {};
    }
  }

  lemma CoverStep(s: State, f: nat, e: Event)
    requires f < |s.flushers| && !e.Add? && forall c | c in s.buffers :: c in s.flushers[f]
    ensures f < |Step(s, e).flushers| && forall c | c in Step(s, e).buffers :: c in Step(s, e).flushers[f]
  {
    if e.FlushNext? && e.flusher == f && s.flushers[f] != [] {
      assert s.flushers[f] == [s.flushers[f][0]] + s.flushers[f][1..];
    }
  }

  // ----- the service -----

  class GroupingService {
    const window: int
    var buffers: map<int, Buffer>
    var armed: set<Timer>
    var called: set<Timer>
    var timers: nat
    var produced: seq<Message>
    ghost var taken: seq<Group>
    ghost var calls: seq<nat>
    ghost var added: seq<Added>

    constructor (window: int)
      ensures this.window == window && Now() == EMPTY && produced == []
    {
      this.window := window;
      buffers, armed, called, timers, produced := map[], {}, {}, 0, [];
      taken, calls, added := [], [], [];
    }

    ghost function Now(): State
      reads this
    {
      State(buffers, armed, called, timers, taken, calls, [], added)
    }

    /** Without a window the update goes straight to the producer; with one it is added for each chat. */
    method AddUpdate(update: Message)
      modifies this
      ensures window <= 0 ==> Now() == old(Now()) && produced == old(produced) + [update]
      ensures window > 0 ==> produced == old(produced) && Now() == AddForEach(old(Now()), update.tgChatIds, update)
      ensures window > 0 ==> forall chat :: GotCopies(old(Now()), Now(), update, chat)
    {
      if window <= 0 {
        produced := produced + [update];
        return;
      }
      assert update.tgChatIds[..0] == [];
      for i := 0 to |update.tgChatIds|
        invariant produced == old(produced) && Now() == AddForEach(old(Now()), update.tgChatIds[..i], update)
      {
        assert update.tgChatIds[..i + 1][..i] == update.tgChatIds[..i];
        AddForChat(update.tgChatIds[i], update);
      }
      assert update.tgChatIds[..|update.tgChatIds|] == update.tgChatIds;
      forall chat ensures GotCopies(old(Now()), AddForEach(old(Now()), update.tgChatIds, update), update, chat) {
        EachGetsCopies(old(Now()), update.tgChatIds, update, chat);
      }
    }

    method AddForChat(chat: int, update: Message)
      modifies this
      ensures produced == old(produced) && Now() == AddFor(old(Now()), chat, update)
      ensures Buffered(Now(), chat) == Buffered(old(Now()), chat) + [update.(tgChatIds := [chat])]
      ensures forall c | c != chat :: Buffered(Now(), c) == Buffered(old(Now()), c)
    {
      var u := update.(tgChatIds := [chat]);
      if chat !in buffers {
        var timer := Timer(timers, chat);
        buffers := buffers[chat := Buffer([], timer)];
        armed, timers := armed + {timer}, timers + 1;
      }
      buffers := buffers[chat := buffers[chat].(updates := buffers[chat].updates + [u])];
      added := added + [Added(chat, u)];
      assert old(buffers)[chat := buffers[chat]] == buffers && [] + [u] == [u];
    }

    /** flushChat run by one thread on its own: the chat's buffer is taken and its group produced. */
    method FlushChat(chat: int)
      modifies this
      ensures Now() == Flushed(old(Now()), chat) && buffers == old(buffers) - {chat}
      ensures produced == old(produced) + (var updates := Buffered(old(Now()), chat);
                                           if updates == [] then [] else [GroupOf(chat, updates)])
    {
      if chat !in buffers {
        return;
      }
      var buffer := buffers[chat];
      buffers := buffers - {chat};
      armed := armed - {buffer.timer};
      var updates := buffer.updates;
      if |updates| == 0 {
        return;
      }
      taken := taken + [Group(chat, updates, false)];
      var result := BuildGroupedUpdate(chat, updates);
      produced := produced + [result];
      taken := taken[|taken| - 1 := taken[|taken| - 1].(handed := true)];
      calls := calls + [|taken| - 1];
    }

    /** The critical section of FlushAll. */
    method BufferedChats() returns (chatIDs: seq<int>)
      ensures forall c :: c in chatIDs <==> c in buffers
      ensures forall i, j | 0 <= i < j < |chatIDs| :: chatIDs[i] != chatIDs[j]
    {
      chatIDs := [];
      var rest := buffers.Keys;
      while rest != {}
        invariant forall c :: c in buffers <==> c in rest || c in chatIDs
        invariant forall c | c in chatIDs :: c !in rest
        invariant forall i, j | 0 <= i < j < |chatIDs| :: chatIDs[i] != chatIDs[j]
        decreases rest
      {
        var c := Choose(rest);
        chatIDs := chatIDs + [c];
        rest := rest - {c};
      }
    }

    /** FlushAll on its own: every buffer is taken and its group produced, in some order, and nothing
        stays buffered. */
    method FlushAll()
      modifies this
      ensures buffers == map[] && added == old(added)
      ensures exists order :: (forall c :: c in order <==> c in old(buffers))
                && (forall i, j | 0 <= i < j < |order| :: order[i] != order[j])
                && produced == old(produced) + GroupsOf(old(buffers), order, |order|)
      ensures forall chat | Conserved(old(Now()), chat) :: Conserved(Now(), chat)
    {
      var chatIDs := BufferedChats();
      FlushEachEnds(Now(), chatIDs);
      FlushChats(chatIDs);
    }

    /** The loop of FlushAll. */
    method FlushChats(chatIDs: seq<int>)
      requires forall i, j | 0 <= i < j < |chatIDs| :: chatIDs[i] != chatIDs[j]
      modifies this
      ensures Now() == FlushEach(old(Now()), chatIDs, |chatIDs|)
      ensures produced == old(produced) + GroupsOf(old(buffers), chatIDs, |chatIDs|)
    {
      ghost var base := Now();
      for i := 0 to |chatIDs|
        invariant Now() == FlushEach(base, chatIDs, i)
        invariant produced == old(produced) + GroupsOf(base.buffers, chatIDs, i)
      {
        FlushEachLeaves(base, chatIDs, i);
        NotAmongFirst(chatIDs, i);
        FlushChat(chatIDs[i]);
      }
    }
  }

  /** The first n of the chats flushed, one after another. */
  function FlushEach(s: State, chats: seq<int>, n: nat): State
    requires n <= |chats|
  {
    if n == 0 then s else Flushed(FlushEach(s, chats, n - 1), chats[n - 1])
  }

  lemma FlushedLeaves(s: State, c: int)
    ensures Flushed(s, c).added == s.added && Flushed(s, c).buffers == s.buffers - {c}
  {}

  function First(chats: seq<int>, n: nat): set<int>
    requires n <= |chats|
  {
    if n == 0 then {} else First(chats, n - 1) + {chats[n - 1]}
  }

  lemma {:induction false} FirstHolds(chats: seq<int>, n: nat, c: int)
    requires n <= |chats|
    ensures c in First(chats, n) <==> exists i | 0 <= i < n :: chats[i] == c
  {
    if n > 0 {
      FirstHolds(chats, n - 1, c);
    }
  }

  lemma NotAmongFirst(chats: seq<int>, n: nat)
    requires n < |chats| && forall i, j | 0 <= i < j < |chats| :: chats[i] != chats[j]
    ensures chats[n] !in First(chats, n)
  {
    FirstHolds(chats, n, chats[n]);
  }

  /** Flushing empties the buffers of the chats flushed and leaves the others. */
  lemma {:induction false} FlushEachLeaves(s: State, chats: seq<int>, n: nat)
    requires n <= |chats|
    ensures FlushEach(s, chats, n).added == s.added
    ensures FlushEach(s, chats, n).buffers == s.buffers - First(chats, n)
  {
    if n > 0 {
      FlushEachLeaves(s, chats, n - 1);
      FlushedLeaves(FlushEach(s, chats, n - 1), chats[n - 1]);
    }
  }

  lemma {:induction false} FlushEachConserves(s: State, chats: seq<int>, n: nat, chat: int)
    requires n <= |chats|
    ensures TakenAndBuffered(FlushEach(s, chats, n), chat) == TakenAndBuffered(s, chat)
  {
    if n > 0 {
      FlushEachConserves(s, chats, n - 1, chat);
      FlushedConserves(FlushEach(s, chats, n - 1), chats[n - 1], chat);
    }
  }

  lemma FlushEachEnds(s: State, chats: seq<int>)
    requires forall c | c in s.buffers :: c in chats
    ensures FlushEach(s, chats, |chats|).buffers == map[] && FlushEach(s, chats, |chats|).added == s.added
    ensures forall chat | Conserved(s, chat) :: Conserved(FlushEach(s, chats, |chats|), chat)
  {
    FlushEachLeaves(s, chats, |chats|);
    forall c | c in s.buffers ensures c in First(chats, |chats|) {
      FirstHolds(chats, |chats|, c);
    }
    assert s.buffers - First(chats, |chats|) == map[];
    forall chat | Conserved(s, chat) ensures Conserved(FlushEach(s, chats, |chats|), chat) {
      FlushEachConserves(s, chats, |chats|, chat);
    }
  }

  /** One group for each of the first n chats that has something buffered. */
  function GroupsOf(buffers: map<int, Buffer>, order: seq<int>, n: nat): seq<Message>
    requires n <= |order|
  {
    if n == 0 then [] else
      GroupsOf(buffers, order, n - 1)
      + if order[n - 1] in buffers && buffers[order[n - 1]].updates != []
        then [GroupOf(order[n - 1], buffers[order[n - 1]].updates)] else []
  }

  function AddForEach(s: State, chats: seq<int>, update: Message): State
    decreases |chats|
  {
    if chats == [] then s else AddFor(AddForEach(s, chats[..|chats| - 1], update), chats[|chats| - 1], update)
  }

  /** The chat's buffer got one more copy of the update, for that chat alone, for each time the update names
      it. */
  ghost predicate GotCopies(s: State, s': State, update: Message, chat: int) {
    CopiesAt(s, s', update, update.tgChatIds, chat)
  }

  ghost predicate CopiesAt(s: State, s': State, update: Message, chats: seq<int>, chat: int) {
    var before, now := Buffered(s, chat), Buffered(s', chat);
    && before <= now && |now| == |before| + multiset(chats)[chat]
    && forall i | |before| <= i < |now| :: now[i] == update.(tgChatIds := [chat])
  }

  lemma {:induction false} EachGetsCopies(s: State, chats: seq<int>, update: Message, chat: int)
    ensures CopiesAt(s, AddForEach(s, chats, update), update, chats, chat)
    decreases |chats|
  {
    if chats != [] {
      var n := |chats| - 1;
      EachGetsCopies(s, chats[..n], update, chat);
      AddBuffers(AddForEach(s, chats[..n], update), chats[n], update, chat);
      assert chats == chats[..n] + [chats[n]];
      assert multiset(chats)[chat] == multiset(chats[..n])[chat] + if chats[n] == chat then 1 else 0;
    }
  }

  /** Taking a chat's buffer and handing its group over. */
  function Flushed(s: State, chat: int): State {
    if Buffered(s, chat) == [] then Take(s, chat) else HandOver(Take(s, chat), |s.taken|)
  }

  lemma FlushedConserves(s: State, c: int, chat: int)
    ensures TakenAndBuffered(Flushed(s, c), chat) == TakenAndBuffered(s, chat)
  {
    TakeConserves(s, c, chat);
    if Buffered(s, c) != [] {
      HandedTaken(Take(s, c).taken, |s.taken|, chat);
    }
  }
}
