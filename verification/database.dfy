/** The SQL repositories as methods that change the tables in place. */
module SqlRepositories {
  import opened Domain
  import opened Store
  import opened StoreRefinement

  /** One entry of a chat's list. */
  datatype ListedLink = ListedLink(url: string, lastUpdatedAt: Time, tags: seq<string>)

  predicate NoRepeats(names: seq<string>) {
    forall i, j | 0 <= i < j < |names| :: names[i] != names[j]
  }

  /** The list shows each URL of the map once, with its tags, each once. */
  ghost predicate Shows(links: seq<ListedLink>, urls: map<string, set<string>>) {
    && (forall i, j | 0 <= i < j < |links| :: links[i].url != links[j].url)
    && (forall l | l in links :: l.url in urls && Names(l.tags) == urls[l.url] && NoRepeats(l.tags))
    && (forall u | u in urls :: exists l :: l in links && l.url == u)
  }

  /** What a statement leaves behind when its call may fail, or work without being acknowledged. */
  ghost function Outcome(before: Tables, after: (Tables, Reply), call: Call): (Tables, Reply) {
    match call
    case Worked => after
    case Refused => (before, DatabaseError)
    case Unacknowledged => (after.0, DatabaseError)
  }

  lemma {:induction false} LeastExists(ids: set<int>)
    requires ids != {}
    ensures exists m :: m in ids && forall x | x in ids :: m <= x
    decreases ids
  {
    var y := Any(ids);
    var rest := ids - {y};
    if rest == {} {
      assert ids == {y};
    } else {
      LeastExists(rest);
      var m :| m in rest && forall x | x in rest :: m <= x;
      assert forall x | x in ids :: x == y || x in rest;
      var least := if y < m then y else m;
      assert least in ids && forall x | x in ids :: least <= x;
    }
  }

  lemma AffectedTags(t: Tables, c: int, name: string, affected: set<int>)
    requires Valid(t) && affected == set g | g in t.tags && t.tags[g] == TagRow(c, name)
    ensures affected == if HasTag(t, c, name) then {TagId(t, c, name)} else {}
  {
    TagIdOf(t, c, name);
    forall g ensures g in affected <==> HasTag(t, c, name) && g == TagId(t, c, name) {}
  }

  ghost function TagNamesIn(t: Tables, rows: set<SubscriptionTag>, link: int): set<string> {
    set st | st in rows && st.link == link && st.tag in t.tags :: t.tags[st.tag].name
  }

  lemma TagNamesInPlus(t: Tables, rows: set<SubscriptionTag>, st: SubscriptionTag, link: int)
    requires st.tag in t.tags
    ensures TagNamesIn(t, rows + {st}, link)
            == TagNamesIn(t, rows, link) + if link == st.link then {t.tags[st.tag].name} else {}
  {
    forall n ensures n in TagNamesIn(t, rows + {st}, link) <==>
                     n in TagNamesIn(t, rows, link) || (link == st.link && n == t.tags[st.tag].name) {
      if link == st.link { assert st in rows + {st}; }
    }
  }

  /** A chat's other tags on the link have other names. */
  lemma NewTagName(t: Tables, done: set<SubscriptionTag>, st: SubscriptionTag)
    requires Valid(t) && st in t.subscriptionTags && done <= t.subscriptionTags && st !in done
    requires forall d | d in done :: d.chat == st.chat
    ensures t.tags[st.tag].name !in TagNamesIn(t, done, st.link)
  {}

  lemma OneMoreName(names: seq<string>, name: string)
    requires NoRepeats(names) && name !in Names(names)
    ensures NoRepeats(names + [name]) && Names(names + [name]) == Names(names) + {name}
  {
    assert forall i | 0 <= i < |names| :: names[i] in Names(names);
  }

  lemma TagNamesInAll(t: Tables, c: int, ids: set<int>, link: int)
    requires Valid(t) && link in ids && forall id | id in ids :: id in t.links
    ensures TagNamesIn(t, (set st | st in t.subscriptionTags && st.chat == c && st.link in ids), link)
            == UrlTags(t, c, t.links[link].url)
  {
    var rows := set st | st in t.subscriptionTags && st.chat == c && st.link in ids;
    forall n ensures n in TagNamesIn(t, rows, link) <==> n in UrlTags(t, c, t.links[link].url) {
      if n in UrlTags(t, c, t.links[link].url) {
        var st :| st in t.subscriptionTags && st.chat == c && st.link in t.links
            && t.links[st.link].url == t.links[link].url
          && st.tag in t.tags && t.tags[st.tag].name == n;
        assert st.link == link && st in rows;
      }
    }
  }

  predicate Ascending(ids: seq<int>) {
    forall i, j | 0 <= i < j < |ids| :: ids[i] < ids[j]
  }

  ghost predicate IsEntry(t: Tables, c: int, l: ListedLink, id: int) {
    && id in t.links && l.url == t.links[id].url && l.lastUpdatedAt == t.links[id].lastUpdated
    && Names(l.tags) == UrlTags(t, c, l.url) && NoRepeats(l.tags)
  }

  /** Entry k of the list is that of the id order[k], and each of the ids has one. */
  ghost predicate Lists(t: Tables, c: int, ids: set<int>, links: seq<ListedLink>, order: seq<int>) {
    && |order| == |links| && (forall k | 0 <= k < |links| :: order[k] in ids && IsEntry(t, c, links[k], order[k]))
    && (forall i, j | 0 <= i < j < |order| :: order[i] != order[j])
    && (forall id | id in ids :: id in order)
  }

  ghost predicate ShowsIds(t: Tables, c: int, ids: set<int>, links: seq<ListedLink>) {
    exists order :: Lists(t, c, ids, links, order)
  }

  lemma EntryShown(t: Tables, c: int, l: ListedLink, id: int, ids: set<int>, urls: map<string, set<string>>)
    requires Valid(t) && IsEntry(t, c, l, id) && id in ids && forall i | i in ids :: i in t.links
    requires urls.Keys == set i | i in ids :: t.links[i].url
    requires forall u | u in urls :: urls[u] == UrlTags(t, c, u)
    ensures l.url in urls && Names(l.tags) == urls[l.url] && NoRepeats(l.tags)
    ensures l.lastUpdatedAt == t.links[LinkId(t, l.url)].lastUpdated
  {
    LinkIdOf(t, l.url);
    assert l.url in urls.Keys;
  }

  lemma EntriesDiffer(t: Tables, c: int, a: ListedLink, b: ListedLink, i: int, j: int)
    requires Valid(t) && IsEntry(t, c, a, i) && IsEntry(t, c, b, j) && i != j
    ensures a.url != b.url
  {}

  /** Listing the ids of some of a chat's subscriptions shows their URLs. */
  lemma ShowsUrls(t: Tables, c: int, ids: set<int>, links: seq<ListedLink>, urls: map<string, set<string>>)
    requires Valid(t) && ShowsIds(t, c, ids, links)
    requires forall id | id in ids :: id in t.links
    requires urls.Keys == set id | id in ids :: t.links[id].url
    requires forall u | u in urls :: urls[u] == UrlTags(t, c, u)
    ensures Shows(links, urls)
    ensures forall l | l in links :: l.lastUpdatedAt == t.links[LinkId(t, l.url)].lastUpdated
  {
    var order :| Lists(t, c, ids, links, order);
    forall l | l in links
      ensures l.url in urls && Names(l.tags) == urls[l.url] && NoRepeats(l.tags)
      ensures l.lastUpdatedAt == t.links[LinkId(t, l.url)].lastUpdated
    {
      var k :| 0 <= k < |links| && links[k] == l;
      EntryShown(t, c, l, order[k], ids, urls);
    }
    UrlsDiffer(t, c, ids, links, order);
    forall u | u in urls ensures exists l :: l in links && l.url == u {
      EachUrlShown(t, c, ids, links, order, u);
    }
  }

  lemma UrlsDiffer(t: Tables, c: int, ids: set<int>, links: seq<ListedLink>, order: seq<int>)
    requires Valid(t) && Lists(t, c, ids, links, order)
    ensures forall i, j | 0 <= i < j < |links| :: links[i].url != links[j].url
  {
    forall i, j | 0 <= i < j < |links| ensures links[i].url != links[j].url {
      EntriesDiffer(t, c, links[i], links[j], order[i], order[j]);
    }
  }

  lemma EachUrlShown(t: Tables, c: int, ids: set<int>, links: seq<ListedLink>, order: seq<int>, u: string)
    requires Lists(t, c, ids, links, order)
    requires exists id :: id in ids && id in t.links && t.links[id].url == u
    ensures exists l :: l in links && l.url == u
  {
    var id :| id in ids && id in t.links && t.links[id].url == u;
    var k :| 0 <= k < |order| && order[k] == id;
    assert links[k] in links && links[k].url == u;
  }

  lemma TaggedRows(t: Tables, c: int, name: string, tagged: set<int>, rows: set<Subscription>)
    requires tagged == set st | st in t.subscriptionTags && st.chat == c
                            && st.tag in t.tags && t.tags[st.tag] == TagRow(c, name) :: st.link
    requires rows == set s | s in t.subscriptions && s.chat == c && s.link in tagged
    ensures rows == TaggedSubscriptions(t, c, name)
  {
    forall s | s in TaggedSubscriptions(t, c, name) ensures s in rows {
      var g :| g in t.tags && t.tags[g] == TagRow(c, name) && SubscriptionTag(c, s.link, g) in t.subscriptionTags;
      assert SubscriptionTag(c, s.link, g).link in tagged;
    }
    forall s | s in rows ensures s in TaggedSubscriptions(t, c, name) {
      var st :| st in t.subscriptionTags && st.chat == c && st.tag in t.tags
        && t.tags[st.tag] == TagRow(c, name) && st.link == s.link;
      assert st == SubscriptionTag(c, s.link, st.tag);
    }
  }

  /** The ids ListByTag joins together are those of the URLs that carry the tag. */
  lemma TaggedIds(t: Tables, c: int, name: string, ids: set<int>)
    requires Valid(t)
    requires ids == set s | s in TaggedSubscriptions(t, c, name) :: s.link
    ensures forall id | id in ids :: Subscription(c, id) in t.subscriptions
    ensures (set id | id in ids :: t.links[id].url) == set u | u in View(t, c).links && name in View(t, c).links[u]
  {
    assert forall id | id in ids :: Subscription(c, id) in t.subscriptions;
    forall u ensures u in Urls(t, c) && name in UrlTags(t, c, u) <==> exists id :: id in ids && t.links[id].url == u {
      UrlsByRow(t, c, u);
      LinkIdOf(t, u);
      UrlTagsByRow(t, c, u, name);
      TagIdOf(t, c, name);
      if u in Urls(t, c) && name in UrlTags(t, c, u) {
        assert Subscription(c, LinkId(t, u)) in TaggedSubscriptions(t, c, name);
      }
    }
  }

  lemma TaggedShown(t: Tables, c: int, name: string, ids: set<int>, links: seq<ListedLink>)
    requires Valid(t) && ShowsIds(t, c, ids, links) && forall id | id in ids :: Subscription(c, id) in t.subscriptions
    requires (set id | id in ids :: t.links[id].url) == set u | u in View(t, c).links && name in View(t, c).links[u]
    ensures Shows(links, map u | u in View(t, c).links && name in View(t, c).links[u] :: View(t, c).links[u])
    ensures forall l | l in links :: l.lastUpdatedAt == t.links[LinkId(t, l.url)].lastUpdated
  {
    var urls := View(t, c).links;
    ShowsUrls(t, c, ids, links, map u | u in urls && name in urls[u] :: urls[u]);
  }

  /** After any number of the tags the transaction's copy still has every key and reference. */
  lemma AddingKeepsValid(t: Tables, c: int, url: string, time: Time, names: seq<string>)
    requires Valid(t) && c in t.chats
    ensures Valid(AttachTags(Subscribe(UpsertLink(t, url, time), c, LinkId(t, url)), c, LinkId(t, url), names))
  {
    UpsertLinkKeepsViews(t, url, time);
    SubscribeView(UpsertLink(t, url, time), c, LinkId(t, url));
    var t2 := Subscribe(UpsertLink(t, url, time), c, LinkId(t, url));
    assert url in Urls(t2, c) by { assert Subscription(c, LinkId(t, url)) in t2.subscriptions; }
    AttachTagsView(t2, c, LinkId(t, url), names);
  }

  /** INSERT INTO links ... ON CONFLICT (url) ... RETURNING id. */
  method LinkRowFor(t: Tables, url: string, time: Time) returns (t': Tables, id: int)
    requires Valid(t)
    ensures t' == UpsertLink(t, url, time) && id == LinkId(t, url)
  {
    var ids := set l | l in t.links && t.links[l].url == url;
    id := t.nextLink;
    if ids != {} {
      id := Choose(ids);
    }
    LinkIdOf(t, url);
    assert HasUrl(t, url) ==> LinkId(t, url) in ids;
    t' := t.(links := t.links[id := LinkRow(url, time)], nextLink := t.nextLink + 1);
  }

  /** INSERT INTO tags ... ON CONFLICT (chat_id, name) ... RETURNING id. */
  method TagRowFor(t: Tables, chat: int, name: string) returns (t': Tables, id: int)
    requires Valid(t)
    ensures id == TagId(t, chat, name)
    ensures t' == t.(tags := t.tags[id := TagRow(chat, name)], nextTag := t.nextTag + 1)
  {
    var ids := set g | g in t.tags && t.tags[g] == TagRow(chat, name);
    id := t.nextTag;
    if ids != {} {
      id := Choose(ids);
    }
    TagIdOf(t, chat, name);
    assert HasTag(t, chat, name) ==> TagId(t, chat, name) in ids;
    t' := t.(tags := t.tags[id := TagRow(chat, name)], nextTag := t.nextTag + 1);
  }

  function LinkOf(t: Tables, id: int): Link {
    if id in t.links then Link(id, t.links[id].url, t.links[id].lastUpdated) else Link(id, "", ZERO_TIME)
  }

  /** LIMIT and OFFSET on a listing of ids. */
  function Cut(ids: seq<int>, limit: nat, offset: nat): seq<int> {
    if offset >= |ids| then [] else if offset + limit < |ids| then ids[offset..offset + limit] else ids[offset..]
  }

  function PageOf(t: Tables, ids: seq<int>, limit: nat, offset: nat): seq<Link> {
    var page := Cut(ids, limit, offset);
    seq(|page|, i requires 0 <= i < |page| => LinkOf(t, page[i]))
  }

  /** The rows of a page, column by column: as many ids of the listing as there are from the offset on, up to
      the limit, each with the URL and the watermark its row of the links table has. */
  predicate ShowsRows(t: Tables, ids: seq<int>, limit: nat, offset: nat, links: seq<Link>) {
    && |links| == (if offset >= |ids| then 0 else if limit < |ids| - offset then limit else |ids| - offset)
    && forall i: nat | i < |links| ::
         && links[i].id == ids[offset + i] && links[i].id in t.links
         && links[i].url == t.links[links[i].id].url && links[i].lastUpdatedAt == t.links[links[i].id].lastUpdated
  }

  predicate HaveRows(t: Tables, ids: seq<int>) {
    forall i | 0 <= i < |ids| :: ids[i] in t.links
  }

  /** A page of ids that have rows shows these rows. */
  lemma PageShowsRows(t: Tables, ids: seq<int>, limit: nat, offset: nat)
    requires HaveRows(t, ids)
    ensures ShowsRows(t, ids, limit, offset, PageOf(t, ids, limit, offset))
  {
    var page := PageOf(t, ids, limit, offset);
    forall i: nat | i < |page|
      ensures page[i].id == ids[offset + i] && page[i] == Link(page[i].id, t.links[page[i].id].url,
                t.links[page[i].id].lastUpdated)
    {
      assert Cut(ids, limit, offset)[i] == ids[offset + i];
    }
  }

  class Database {
    var tables: Tables

    constructor ()
      ensures tables == EMPTY && Valid(tables)
    {
      tables := EMPTY;
    }

    // ----- chats -----

    method AddChat(chat: int, call: Call) returns (reply: Reply)
      modifies this
      ensures (tables, reply) == Outcome(old(tables), SqlApply(old(tables), RegisterChat(chat)), call)
    {
      if call.TookEffect() {
        tables := tables.(chats := tables.chats + {chat});
      }
      reply := if call.Reported() then Done else DatabaseError;
    }

    method RemoveChat(chat: int, call: Call) returns (reply: Reply)
      modifies this
      ensures (tables, reply) == Outcome(old(tables), SqlApply(old(tables), DeleteChat(chat)), call)
    {
      var rows := if chat in tables.chats then 1 else 0;
      if call.TookEffect() && rows == 1 {
        tables := DropChat(tables, chat);
      }
      if !call.Reported() {
        return DatabaseError;
      }
      if rows == 0 {
        return ChatNotFound;
      }
      return Done;
    }

    // ----- links -----

    /** One transaction: a statement that fails, or a commit that has no effect, leaves the tables as
        they were; no other state between none and all of it can be seen. */
    method Add(chat: int, url: string, time: Time, names: seq<string>, statementFails: nat -> bool, commit: Call)
      returns (reply: Reply)
      requires Valid(tables)
      modifies this
      ensures reply.Done? ==> (tables, reply) == SqlApply(old(tables), AddLink(chat, url, time, names))
      ensures !reply.Done? ==>
                (tables == old(tables)
                 || (commit.Unacknowledged? && tables == SqlApply(old(tables), AddLink(chat, url, time, names)).0))
      ensures chat in old(tables.chats) && (forall k :: !statementFails(k)) ==>
                (tables, reply) == Outcome(old(tables), SqlApply(old(tables), AddLink(chat, url, time, names)), commit)
    {
      var linkId: int, tagId: int;
      var tx := tables;
      if statementFails(0) { return DatabaseError; }
      tx, linkId := LinkRowFor(tx, url, time);

      if statementFails(1) { return DatabaseError; }
      if chat !in tx.chats { return NoSuchChat; }
      tx := tx.(subscriptions := tx.subscriptions + {Subscription(chat, linkId)});

      ghost var subscribed := tx;
      assert names[..0] == [];
      for i := 0 to |names|
        invariant tx == AttachTags(subscribed, chat, linkId, names[..i])
        invariant tables == old(tables)
      {
        AddingKeepsValid(tables, chat, url, time, names[..i]);
        ghost var before := tx;
        if statementFails(2 + 2 * i) { return DatabaseError; }
        tx, tagId := TagRowFor(tx, chat, names[i]);
        if statementFails(3 + 2 * i) { return DatabaseError; }
        tx := tx.(subscriptionTags := tx.subscriptionTags + {SubscriptionTag(chat, linkId, tagId)});
        assert tx == AttachTag(before, chat, linkId, names[i]);
        assert names[..i + 1][..i] == names[..i];
      }
      assert names[..|names|] == names;

      if commit.TookEffect() {
        tables := tx;
      }
      reply := if commit.Reported() then Done else DatabaseError;
    }

    method Remove(chat: int, url: string, call: Call) returns (reply: Reply)
      requires Valid(tables)
      modifies this
      ensures (tables, reply) == Outcome(old(tables), SqlApply(old(tables), RemoveLink(chat, url)), call)
    {
      LinkIdOf(tables, url);
      var gone := set s | s in tables.subscriptions && s.chat == chat && s.link in tables.links
          && tables.links[s.link].url == url;
      assert gone == if HasUrl(tables, url) && Subscription(chat, LinkId(tables, url)) in tables.subscriptions
                     then {Subscription(chat, LinkId(tables, url))} else {};
      if call.TookEffect() && |gone| > 0 {
        tables := DropSubscriptions(tables, gone);
      }
      if !call.Reported() {
        return DatabaseError;
      }
      if |gone| == 0 {
        return LinkNotFound;
      }
      return Done;
    }

    method RemoveTagged(chat: int, name: string, call: Call) returns (reply: Reply)
      requires Valid(tables)
      modifies this
      ensures (tables, reply) == Outcome(old(tables), SqlApply(old(tables), RemoveByTag(chat, name)), call)
    {
      var tagged := set st | st in tables.subscriptionTags && st.chat == chat
                         && st.tag in tables.tags && tables.tags[st.tag] == TagRow(chat, name) :: st.link;
      var gone := set s | s in tables.subscriptions && s.chat == chat && s.link in tagged;
      TaggedRows(tables, chat, name, tagged, gone);
      if call.TookEffect() {
        tables := DropSubscriptions(tables, gone);
      }
      reply := if call.Reported() then Removed(|gone|) else DatabaseError;
    }

    /** getTagsByLinkIDs: the tag names of a chat's links, by link id. */
    method GetTagsByLinkIDs(chat: int, ids: set<int>) returns (result: map<int, seq<string>>)
      requires Valid(tables) && forall id | id in ids :: id in tables.links
      ensures forall id | id in ids :: var names := if id in result then result[id] else [];
                Names(names) == UrlTags(tables, chat, tables.links[id].url) && NoRepeats(names)
    {
      result := map[];
      var rows := set st | st in tables.subscriptionTags && st.chat == chat && st.link in ids;
      var rest := rows;
      ghost var done: set<SubscriptionTag> := {};
      while rest != {}
        invariant done + rest == rows && done !! rest
        invariant forall id | id in result :: NoRepeats(result[id]) && Names(result[id]) == TagNamesIn(tables, done, id)
        invariant forall id :: id !in result ==> TagNamesIn(tables, done, id) == {}
        decreases rest
      {
        var st := Choose(rest);
        var tag := tables.tags[st.tag].name;
        var before := if st.link in result then result[st.link] else [];
        NewTagName(tables, done, st);
        OneMoreName(before, tag);
        forall id { TagNamesInPlus(tables, done, st, id); }
        result := result[st.link := before + [tag]];
        rest, done := rest - {st}, done + {st};
      }
      assert done == rows;
      forall id | id in ids { TagNamesInAll(tables, chat, ids, id); }
    }

    /** List: the join of links and subscriptions, then the tags of those links. */
    method List(chat: int) returns (links: seq<ListedLink>)
      requires Valid(tables)
      ensures Shows(links, View(tables, chat).links)
      ensures forall l | l in links :: l.lastUpdatedAt == tables.links[LinkId(tables, l.url)].lastUpdated
    {
      var ids := set s | s in tables.subscriptions && s.chat == chat :: s.link;
      assert forall id | id in ids :: Subscription(chat, id) in tables.subscriptions;
      links := ListIds(chat, ids);
      forall u ensures u in Urls(tables, chat) <==> exists id :: id in ids && tables.links[id].url == u {
        UrlsByRow(tables, chat, u);
        LinkIdOf(tables, u);
        if u in Urls(tables, chat) { assert LinkId(tables, u) in ids; }
      }
      ShowsUrls(tables, chat, ids, links, View(tables, chat).links);
    }

    /** ListByTag: the same for the links that carry the tag. */
    method ListByTag(chat: int, name: string) returns (links: seq<ListedLink>)
      requires Valid(tables)
      ensures var urls := View(tables, chat).links;
              Shows(links, map u | u in urls && name in urls[u] :: urls[u])
      ensures forall l | l in links :: l.lastUpdatedAt == tables.links[LinkId(tables, l.url)].lastUpdated
    {
      var tagged := set st | st in tables.subscriptionTags && st.chat == chat
                         && st.tag in tables.tags && tables.tags[st.tag] == TagRow(chat, name) :: st.link;
      var rows := set s | s in tables.subscriptions && s.chat == chat && s.link in tagged;
      TaggedRows(tables, chat, name, tagged, rows);
      var ids := set s | s in rows :: s.link;
      TaggedIds(tables, chat, name, ids);
      links := ListIds(chat, ids);
      TaggedShown(tables, chat, name, ids, links);
    }

    method ListIds(chat: int, ids: set<int>) returns (links: seq<ListedLink>)
      requires Valid(tables) && forall id | id in ids :: Subscription(chat, id) in tables.subscriptions
      ensures ShowsIds(tables, chat, ids, links)
    {
      var tagsByLinkID := GetTagsByLinkIDs(chat, ids);
      links := [];
      var rest := ids;
      ghost var order: seq<int> := [];
      while rest != {}
        invariant rest <= ids
        invariant Lists(tables, chat, ids - rest, links, order)
        decreases rest
      {
        var id := Choose(rest);
        var row := tables.links[id];
        links := links + [ListedLink(row.url, row.lastUpdated, if id in tagsByLinkID then tagsByLinkID[id] else [])];
        order := order + [id];
        rest := rest - {id};
      }
      assert ids - rest == ids;
    }

    // ----- tags -----

    method CreateTagNamed(chat: int, name: string, call: Call) returns (reply: Reply)
      requires Valid(tables)
      modifies this
      ensures (tables, reply) == Outcome(old(tables), SqlApply(old(tables), CreateTag(chat, name)), call)
    {
      var refusal := Done;
      if chat !in tables.chats {
        refusal := NoSuchChat;
      } else if exists g | g in tables.tags :: tables.tags[g] == TagRow(chat, name) {
        refusal := TagExists;
      }
      if call.TookEffect() && refusal.Done? {
        tables := tables.(tags := tables.tags[tables.nextTag := TagRow(chat, name)], nextTag := tables.nextTag + 1);
      }
      reply := if call.Reported() then refusal else DatabaseError;
    }

    method RenameTagNamed(chat: int, name: string, newName: string, call: Call) returns (reply: Reply)
      requires Valid(tables)
      modifies this
      ensures (tables, reply) == Outcome(old(tables), SqlApply(old(tables), RenameTag(chat, name, newName)), call)
    {
      TagIdOf(tables, chat, name);
      var affected := set g | g in tables.tags && tables.tags[g] == TagRow(chat, name);
      AffectedTags(tables, chat, name, affected);
      var refusal := Done;
      if affected == {} {
        refusal := TagNotFound;
      } else if newName != name && exists g | g in tables.tags :: tables.tags[g] == TagRow(chat, newName) {
        refusal := TagExists;
      }
      if call.TookEffect() && refusal.Done? {
        var g := Choose(affected);
        tables := tables.(tags := tables.tags[g := TagRow(chat, newName)]);
      }
      reply := if call.Reported() then refusal else DatabaseError;
    }

    method DeleteTagNamed(chat: int, name: string, call: Call) returns (reply: Reply)
      requires Valid(tables)
      modifies this
      ensures (tables, reply) == Outcome(old(tables), SqlApply(old(tables), DeleteTag(chat, name)), call)
    {
      TagIdOf(tables, chat, name);
      var affected := set g | g in tables.tags && tables.tags[g] == TagRow(chat, name);
      AffectedTags(tables, chat, name, affected);
      if call.TookEffect() && affected != {} {
        var g := Choose(affected);
        tables := DropTag(tables, g);
      }
      if !call.Reported() {
        return DatabaseError;
      }
      if affected == {} {
        return TagNotFound;
      }
      return Done;
    }

    // ----- what the scheduler reads and writes -----

    /** FindSubscribers: the chats subscribed to the link, each once (the table's primary key). */
    method FindSubscribers(link: int) returns (chats: seq<int>)
      ensures forall c :: c in chats <==> Subscription(c, link) in tables.subscriptions
      ensures forall i, j | 0 <= i < j < |chats| :: chats[i] != chats[j]
    {
      chats := [];
      var rest := set s | s in tables.subscriptions && s.link == link;
      while rest != {}
        invariant forall s | s in rest :: s in tables.subscriptions && s.link == link
        invariant forall c ::
                    c in chats <==> Subscription(c, link) in tables.subscriptions && Subscription(c, link) !in rest
        invariant forall i, j | 0 <= i < j < |chats| :: chats[i] != chats[j]
        decreases rest
      {
        var s := Choose(rest);
        assert s == Subscription(s.chat, link);
        chats := chats + [s.chat];
        rest := rest - {s};
      }
    }

    /** GetTrackedLinksBatch: the subscribed links in id order, cut by LIMIT and OFFSET. */
    method GetTrackedLinksBatch(limit: nat, offset: nat) returns (links: seq<Link>)
      requires Valid(tables)
      ensures exists ids :: Ascending(ids) && (set id | id in ids) == (set s | s in tables.subscriptions :: s.link)
                && links == PageOf(tables, ids, limit, offset) && ShowsRows(tables, ids, limit, offset, links)
    {
      var rest := set s | s in tables.subscriptions :: s.link;
      ghost var all := rest;
      assert forall id | id in all :: id in tables.links;
      var ids: seq<int> := [];
      while rest != {}
        invariant rest <= all && (set id | id in ids) == all - rest && Ascending(ids)
        invariant forall i | 0 <= i < |ids| :: ids[i] in all
        invariant forall i, later | 0 <= i < |ids| && later in rest :: ids[i] < later
        decreases rest
      {
        LeastExists(rest);
        var least :| least in rest && forall x | x in rest :: least <= x;
        assert (set id | id in ids + [least]) == (set id | id in ids) + {least};
        rest := rest - {least};
        ids := ids + [least];
      }
      links := PageOf(tables, ids, limit, offset);
      PageShowsRows(tables, ids, limit, offset);
    }

    method SetLastUpdated(link: int, time: Time, call: Call) returns (reply: Reply)
      modifies this
      ensures (tables, reply) == Outcome(old(tables), SqlApply(old(tables), UpdateLastUpdated(link, time)), call)
    {
      if call.TookEffect() && link in tables.links {
        tables := tables.(links := tables.links[link := tables.links[link].(lastUpdated := time)]);
      }
      reply := if call.Reported() then Done else DatabaseError;
    }
  }
}
