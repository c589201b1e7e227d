/** The read cache over the store: what the link and chat services do to it, and when it stays true. */
module ListCaching {
  import opened Domain
  import opened Store
  import opened StoreRefinement
  import opened StoreEffects
  import opened SqlRepositories

  /** A cached body: one that decodes to a list, or one that does not decode. */
  datatype Entry = Json(links: seq<ListedLink>) | Garbled

  datatype State = State(tables: Tables, cache: map<int, Entry>)

  datatype Request = Mutate(op: Op) | ListLinks(chat: int) | Expire(chat: int)

  /** How the calls of one request end: the existence check, the cache Get, Set and Delete, and the
      repository call. */
  datatype Faults = Faults(existsFails: bool, getFails: bool, put: Call, delete: Call, repo: Call)

  datatype Answer = Listed(links: seq<ListedLink>) | Plain(reply: Reply)

  // ----- one request, with and without the cache -----

  predicate ChecksChat(op: Op) {
    op.AddLink? || op.RemoveLink? || op.RemoveByTag?
  }

  /** Whether the service deletes the chat's entry after this reply to the operation. */
  predicate Invalidates(op: Op, reply: Reply) {
    (op.DeleteChat? || ChecksChat(op)) && (reply.Done? || (reply.Removed? && reply.count > 0))
  }

  /** What an operation does to the tables, whether or not there is a cache. */
  ghost function ServiceApply(t: Tables, op: Op, f: Faults): (Tables, Reply) {
    if ChecksChat(op) && f.existsFails then (t, DatabaseError)
    else if ChecksChat(op) && ChatOf(op).value !in t.chats then (t, ChatNotFound)
    else Outcome(t, SqlApply(t, op), f.repo)
  }

  /** The replies of the services when their calls work, in terms of what the chat tracks: a missing chat is
      told so by every link operation, and Remove and RemoveByTag tell whether and how much was tracked. */
  lemma ServiceReplies(t: Tables, op: Op, f: Faults)
    requires Valid(t) && !f.existsFails && f.repo.Worked?
    ensures var reply := ServiceApply(t, op, f).1;
            match op
            case AddLink(c, _, _, _) => reply == if c in t.chats then Done else ChatNotFound
            case RemoveLink(c, url) =>
              reply == (if c !in t.chats then ChatNotFound else if Tracks(t, c, url) then Done else LinkNotFound)
            case RemoveByTag(c, name) =>
              reply == if c in t.chats then Removed(|Carrying(t, c, name)|) else ChatNotFound
            case RegisterChat(_) => reply.Done?
            case DeleteChat(c) => reply == if c in t.chats then Done else ChatNotFound
            case _ => true
  {
    match op
    case RemoveLink(c, url) => RemoveLinkExactly(t, c, url, url, url);
    case RemoveByTag(c, name) => RemoveByTagExactly(t, c, name, name, name);
    case _ =>
  }

  /** A call that fails is answered with an error, and what the tables then hold is what they held, or what
      the operation leaves when it was carried out without being acknowledged. */
  lemma ServiceFails(t: Tables, op: Op, f: Faults)
    ensures var (t', reply) := ServiceApply(t, op, f);
            && (ChecksChat(op) && f.existsFails ==> reply.DatabaseError? && t' == t)
            && (reply.Done? || reply.Removed? ==> f.repo.Worked? && t' == SqlApply(t, op).0)
            && (t' == t || (f.repo.TookEffect() && t' == SqlApply(t, op).0))
            && (!f.repo.Worked? ==> reply.DatabaseError? || reply.ChatNotFound?)
  {}

  /** What a service without a cache answers to ListLinks when its reads work. */
  ghost predicate FreshAnswer(t: Tables, c: int, a: Answer) {
    if c in t.chats then a.Listed? && Shows(a.links, View(t, c).links) else a == Plain(ChatNotFound)
  }

  ghost predicate Lists(s: State, c: int, f: Faults, s': State, a: Answer) {
    if !f.getFails && c in s.cache && s.cache[c].Json? then
      s' == s && a == Listed(s.cache[c].links)
    else
      var kept := if !f.getFails && c in s.cache && f.delete.TookEffect() then s.cache - {c} else s.cache;
      && s'.tables == s.tables
      && if f.existsFails || (c in s.tables.chats && !f.repo.Reported()) then
           s'.cache == kept && a == Plain(DatabaseError)
         else
           && FreshAnswer(s.tables, c, a)
           && s'.cache == if a.Listed? && f.put.TookEffect() then kept[c := Json(a.links)] else kept
  }

  ghost predicate Serves(s: State, r: Request, f: Faults, s': State, a: Answer) {
    match r
    case Mutate(op) =>
      var after := ServiceApply(s.tables, op, f);
      && s'.tables == after.0 && a == Plain(after.1)
      && s'.cache == if Invalidates(op, after.1) && f.delete.TookEffect() then s.cache - {ChatOf(op).value} else s.cache
    case ListLinks(c) => Lists(s, c, f, s', a)
    case Expire(c) => s' == s.(cache := s.cache - {c}) && a == Plain(Done)
  }

  // ----- when the cache is true -----

  /** Every decodable entry shows the URLs and tags its chat has in the tables. */
  ghost predicate Coherent(s: State) {
    forall c | c in s.cache && s.cache[c].Json? :: c in s.tables.chats
        && Shows(s.cache[c].links, View(s.tables, c).links)
  }

  /** A list shows one map at most. */
  lemma ShowsOne(links: seq<ListedLink>, m: map<string, set<string>>, m': map<string, set<string>>)
    requires Shows(links, m) && Shows(links, m')
    ensures m == m'
  {
    forall u ensures u in m <==> u in m' {
      if u in m { var l :| l in links && l.url == u; }
      if u in m' { var l :| l in links && l.url == u; }
    }
    forall u | u in m ensures m[u] == m'[u] {
      var l :| l in links && l.url == u;
    }
  }

  /** The chat is still there, with the same URLs and tags. */
  ghost predicate SameList(t: Tables, t': Tables, c: int) {
    c in t'.chats && c in t.chats && View(t', c).links == View(t, c).links
  }

  lemma ServiceFrame(t: Tables, op: Op, f: Faults, c: int)
    requires Valid(t) && ChatOf(op) != Some(c)
    ensures var t' := ServiceApply(t, op, f).0; Valid(t') && (c in t.chats ==> SameList(t, t', c))
  {
    var after := SqlApply(t, op).0;
    var t' := ServiceApply(t, op, f).0;
    assert t' == t || t' == after;
    StepRefines(t, op);
    if c in t.chats {
      StepFrame(t, op, c);
    }
  }

  /** A step leaves the cache true exactly when the chat it wrote to has no decodable entry left, or
      still has the list it had: nothing else can make an entry stale. */
  lemma CoherentExactly(s: State, r: Request, f: Faults, s': State, a: Answer)
    requires Valid(s.tables) && Coherent(s) && Serves(s, r, f, s', a)
    ensures Valid(s'.tables)
    ensures Coherent(s') <==>
            (r.Mutate? && ChatOf(r.op).Some? ==>
              var c := ChatOf(r.op).value;
              (c in s'.cache && s'.cache[c].Json? ==> SameList(s.tables, s'.tables, c)))
  {
    if r.Mutate? {
      var op := r.op;
      StepRefines(s.tables, op);
      forall d | d in s'.cache && s'.cache[d].Json? && ChatOf(op) != Some(d)
        ensures d in s'.tables.chats && Shows(s'.cache[d].links, View(s'.tables, d).links)
      {
        ServiceFrame(s.tables, op, f, d);
      }
      if ChatOf(op).Some? {
        var c := ChatOf(op).value;
        if c in s'.cache && s'.cache[c].Json? && Coherent(s') {
          ShowsOne(s'.cache[c].links, View(s.tables, c).links, View(s'.tables, c).links);
        }
      }
    }
  }

  /** The same in terms of what is known before the step: a link operation or DeleteChat leaves the cache
      stale exactly when the chat has a decodable entry, the operation changes the chat's list, and either
      the repository makes the change without acknowledging it or the cache refuses the Delete. */
  lemma StaleExactly(s: State, op: Op, f: Faults, s': State, a: Answer)
    requires Valid(s.tables) && Coherent(s) && Serves(s, Mutate(op), f, s', a)
    requires (ChecksChat(op) || op.DeleteChat?) && !f.existsFails
    ensures var c := ChatOf(op).value;
            !Coherent(s') <==>
              && c in s.cache && s.cache[c].Json? && !SameList(s.tables, SqlApply(s.tables, op).0, c)
              && (f.repo.Unacknowledged? || (f.repo.Worked? && f.delete.Refused?))
  {
    CoherentExactly(s, Mutate(op), f, s', a);
    if ChatOf(op).value in s.tables.chats {
      ServedState(s, op, f, s', a);
      StaleReply(s.tables, op);
    } else {
      ServedNobody(s, op, f, s', a);
    }
  }

  lemma ServedState(s: State, op: Op, f: Faults, s': State, a: Answer)
    requires Serves(s, Mutate(op), f, s', a) && (ChecksChat(op) || op.DeleteChat?) && !f.existsFails
    requires ChatOf(op).value in s.tables.chats
    ensures var after := SqlApply(s.tables, op);
            && s'.tables == (if f.repo.TookEffect() then after.0 else s.tables)
            && s'.cache == if f.repo.Worked? && Invalidates(op, after.1) && f.delete.TookEffect()
                           then s.cache - {ChatOf(op).value} else s.cache
  {}

  lemma ServedNobody(s: State, op: Op, f: Faults, s': State, a: Answer)
    requires Coherent(s) && Serves(s, Mutate(op), f, s', a) && (ChecksChat(op) || op.DeleteChat?) && !f.existsFails
    requires ChatOf(op).value !in s.tables.chats
    ensures var c := ChatOf(op).value;
            s'.tables == s.tables && s'.cache == s.cache && !(c in s.cache && s.cache[c].Json?)
  {}

  /** An operation that does not answer with a success leaves the chat's list as it was. */
  lemma StaleReply(t: Tables, op: Op)
    requires Valid(t) && (ChecksChat(op) || op.DeleteChat?)
    ensures var (t', reply) := SqlApply(t, op);
            var c := ChatOf(op).value;
            c in t.chats && !Invalidates(op, reply) ==> SameList(t, t', c)
  {
    StepRefines(t, op);
    var (t', reply) := SqlApply(t, op);
    var c := ChatOf(op).value;
    if c in t.chats && !Invalidates(op, reply) {
      assert Abs(t)[c] == View(t, c);
      assert AbsApply(Abs(t), op).0[c].links == Abs(t)[c].links;
      assert c in Abs(t') && Abs(t')[c] == View(t', c);
    }
  }

  /** The faults under which link and chat operations keep the cache true: the Delete goes through, and
      the repository does not report a failure for a change it made. */
  predicate Harmless(r: Request, f: Faults) {
    r.Mutate? ==>
      && (r.op.RegisterChat? || r.op.UpdateLastUpdated?
          || ((r.op.DeleteChat? || ChecksChat(r.op)) && f.delete.TookEffect() && !f.repo.Unacknowledged?))
  }

  lemma HarmlessKeepsCoherent(s: State, r: Request, f: Faults, s': State, a: Answer)
    requires Valid(s.tables) && Coherent(s) && Serves(s, r, f, s', a) && Harmless(r, f)
    ensures Valid(s'.tables) && Coherent(s')
  {
    CoherentExactly(s, r, f, s', a);
    if r.Mutate? && ChatOf(r.op).Some? {
      var c := ChatOf(r.op).value;
      if c in s'.cache && s'.cache[c].Json? {
        StepRefines(s.tables, r.op);
        UnansweredKeepsList(s, r.op, f, s', a);
      }
    }
  }

  /** An operation that does not delete the entry did not change the list either. */
  lemma UnansweredKeepsList(s: State, op: Op, f: Faults, s': State, a: Answer)
    requires Valid(s.tables) && Coherent(s) && Serves(s, Mutate(op), f, s', a) && Harmless(Mutate(op), f)
    requires ChatOf(op).Some? && ChatOf(op).value in s'.cache && s'.cache[ChatOf(op).value].Json?
    ensures SameList(s.tables, s'.tables, ChatOf(op).value)
  {
    var c := ChatOf(op).value;
    var t, t' := s.tables, s'.tables;
    var reply := ServiceApply(t, op, f).1;
    assert c in t.chats;
    assert !Invalidates(op, reply);
    if t' != t {
      StepRefines(t, op);
      assert t' == SqlApply(t, op).0 && Abs(t)[c] == View(t, c);
      assert AbsApply(Abs(t), op).0[c].links == Abs(t)[c].links;
      assert c in Abs(t') && Abs(t')[c] == View(t', c);
    }
  }

  // ----- runs -----

  datatype Step = Step(request: Request, faults: Faults, answer: Answer)

  ghost predicate IsRun(states: seq<State>, steps: seq<Step>) {
    && |states| == |steps| + 1
    && (forall i | 0 <= i < |steps| ::
        Serves(states[i], steps[i].request, steps[i].faults, states[i + 1], steps[i].answer))
  }

  lemma {:induction false} RunKeepsCoherent(states: seq<State>, steps: seq<Step>, n: nat)
    requires IsRun(states, steps) && Valid(states[0].tables) && Coherent(states[0]) && n <= |steps|
    requires forall i | 0 <= i < |steps| :: Harmless(steps[i].request, steps[i].faults)
    ensures Valid(states[n].tables) && Coherent(states[n])
  {
    if n > 0 {
      RunKeepsCoherent(states, steps, n - 1);
      var step := steps[n - 1];
      HarmlessKeepsCoherent(states[n - 1], step.request, step.faults, states[n], step.answer);
    }
  }

  /** Over any run of link and chat operations, with entries expiring at any time and Gets and Sets
      failing at will, every list answered is the list a service without a cache would answer, and a
      missing chat gets the same error; a failed read of the repository is reported as such. */
  lemma ListsAgreeWithStore(states: seq<State>, steps: seq<Step>, n: nat, c: int)
    requires IsRun(states, steps) && Valid(states[0].tables) && Coherent(states[0])
    requires forall i | 0 <= i < |steps| :: Harmless(steps[i].request, steps[i].faults)
    requires n < |steps| && steps[n].request == ListLinks(c)
    ensures steps[n].answer == Plain(DatabaseError) || FreshAnswer(states[n].tables, c, steps[n].answer)
    ensures !steps[n].faults.existsFails && steps[n].faults.repo.Worked?
            ==> FreshAnswer(states[n].tables, c, steps[n].answer)
  {
    RunKeepsCoherent(states, steps, n);
    assert Serves(states[n], steps[n].request, steps[n].faults, states[n + 1], steps[n].answer);
  }

  // ----- where it fails -----

  const STALE_URL := "u"

  const STALE_TABLES := EMPTY.(chats := {7})
  const STALE_STATE := State(STALE_TABLES, map[7 := Json([])])
  const STALE_OP := AddLink(7, STALE_URL, ZERO_TIME, [])

  lemma StaleTables()
    ensures Valid(STALE_TABLES) && View(STALE_TABLES, 7).links == map[] && Coherent(STALE_STATE)
  {
    assert Urls(STALE_TABLES, 7) == {} && TagNames(STALE_TABLES, 7) == {};
  }

  lemma StaleList()
    ensures var t' := SqlApply(STALE_TABLES, STALE_OP).0;
            STALE_URL in View(t', 7).links && !SameList(STALE_TABLES, t', 7)
  {
    StaleTables();
    AddedView(STALE_TABLES, 7, STALE_URL, ZERO_TIME, []);
  }

  lemma UnacknowledgedServes(s: State, op: Op)
    requires ChecksChat(op) && ChatOf(op).value in s.tables.chats
    ensures Serves(s, Mutate(op), Faults(false, false, Worked, Worked, Unacknowledged),
                   s.(tables := SqlApply(s.tables, op).0), Plain(DatabaseError))
  {}

  /** An Add that commits without being acknowledged skips the invalidation: the cached empty list
      stays, and the next ListLinks misses the new URL. */
  lemma UnacknowledgedAddGoesStale()
    ensures var s' := STALE_STATE.(tables := SqlApply(STALE_TABLES, STALE_OP).0);
            && Valid(STALE_TABLES) && Coherent(STALE_STATE)
            && Serves(STALE_STATE, Mutate(STALE_OP), Faults(false, false, Worked, Worked, Unacknowledged), s',
                Plain(DatabaseError))
            && !Coherent(s') && STALE_URL in View(s'.tables, 7).links && s'.cache[7] == Json([])
  {
    var s' := STALE_STATE.(tables := SqlApply(STALE_TABLES, STALE_OP).0);
    StaleTables();
    StaleList();
    UnacknowledgedServes(STALE_STATE, STALE_OP);
    StaleExactly(STALE_STATE, STALE_OP, Faults(false, false, Worked, Worked, Unacknowledged), s', Plain(DatabaseError));
  }

  // ----- the services -----

  class ListCache {
    var entries: map<int, Entry>

    constructor ()
      ensures entries == map[]
    {
      entries := map[];
    }

    method Get(chat: int, fails: bool) returns (entry: Option<Entry>)
      ensures entry == if !fails && chat in entries then Some(entries[chat]) else None
    {
      if !fails && chat in entries {
        return Some(entries[chat]);
      }
      return None;
    }

    method Set(chat: int, links: seq<ListedLink>, call: Call)
      modifies this
      ensures entries == if call.TookEffect() then old(entries)[chat := Json(links)] else old(entries)
    {
      if call.TookEffect() {
        entries := entries[chat := Json(links)];
      }
    }

    method Delete(chat: int, call: Call)
      modifies this
      ensures entries == if call.TookEffect() then old(entries) - {chat} else old(entries)
    {
      if call.TookEffect() {
        entries := entries - {chat};
      }
    }
  }

  class ChatService {
    const db: Database
    const cache: ListCache

    constructor (db: Database, cache: ListCache)
      ensures this.db == db && this.cache == cache
    {
      this.db, this.cache := db, cache;
    }

    ghost function Now(): State
      reads db, cache
    {
      State(db.tables, cache.entries)
    }

    method Register(chat: int, f: Faults) returns (reply: Reply)
      requires Valid(db.tables)
      modifies db
      ensures Serves(old(Now()), Mutate(RegisterChat(chat)), f, Now(), Plain(reply))
    {
      reply := db.AddChat(chat, f.repo);
    }

    method Delete(chat: int, f: Faults) returns (reply: Reply)
      requires Valid(db.tables)
      modifies db, cache
      ensures Serves(old(Now()), Mutate(DeleteChat(chat)), f, Now(), Plain(reply))
    {
      reply := db.RemoveChat(chat, f.repo);
      if !reply.Done? {
        return;
      }
      cache.Delete(chat, f.delete);
    }
  }

  class LinkService {
    const db: Database
    const cache: ListCache

    constructor (db: Database, cache: ListCache)
      ensures this.db == db && this.cache == cache
    {
      this.db, this.cache := db, cache;
    }

    ghost function Now(): State
      reads db, cache
    {
      State(db.tables, cache.entries)
    }

    /** The repository's Add runs here without a failing statement of its own: a transaction that rolls
        back is the `Refused` outcome. */
    method Add(chat: int, url: string, time: Time, names: seq<string>, f: Faults) returns (reply: Reply)
      requires Valid(db.tables)
      modifies db, cache
      ensures Serves(old(Now()), Mutate(AddLink(chat, url, time, names)), f, Now(), Plain(reply))
    {
      if f.existsFails {
        return DatabaseError;
      }
      if chat !in db.tables.chats {
        return ChatNotFound;
      }
      reply := db.Add(chat, url, time, names, _ => false, f.repo);
      if !reply.Done? {
        return;
      }
      cache.Delete(chat, f.delete);
    }

    method Remove(chat: int, url: string, f: Faults) returns (reply: Reply)
      requires Valid(db.tables)
      modifies db, cache
      ensures Serves(old(Now()), Mutate(RemoveLink(chat, url)), f, Now(), Plain(reply))
    {
      if f.existsFails {
        return DatabaseError;
      }
      if chat !in db.tables.chats {
        return ChatNotFound;
      }
      reply := db.Remove(chat, url, f.repo);
      if !reply.Done? {
        return;
      }
      cache.Delete(chat, f.delete);
    }

    method RemoveTagged(chat: int, name: string, f: Faults) returns (reply: Reply)
      requires Valid(db.tables)
      modifies db, cache
      ensures Serves(old(Now()), Mutate(RemoveByTag(chat, name)), f, Now(), Plain(reply))
    {
      if f.existsFails {
        return DatabaseError;
      }
      if chat !in db.tables.chats {
        return ChatNotFound;
      }
      reply := db.RemoveTagged(chat, name, f.repo);
      if reply.Removed? && reply.count > 0 {
        cache.Delete(chat, f.delete);
      }
    }

    method List(chat: int, f: Faults) returns (answer: Answer)
      requires Valid(db.tables)
      modifies cache
      ensures Serves(old(Now()), ListLinks(chat), f, Now(), answer)
    {
      var body := cache.Get(chat, f.getFails);
      if body.Some? {
        if body.value.Json? {
          return Listed(body.value.links);
        }
        cache.Delete(chat, f.delete);
      }
      if f.existsFails {
        return Plain(DatabaseError);
      }
      if chat !in db.tables.chats {
        return Plain(ChatNotFound);
      }
      if !f.repo.Reported() {
        return Plain(DatabaseError);
      }
      var links := db.List(chat);
      cache.Set(chat, links, f.put);
      return Listed(links);
    }
  }
}
