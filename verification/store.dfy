/** The five tables of the scrapper database and the nested map they stand for. */
module Store {
  import opened Domain

  datatype LinkRow = LinkRow(url: string, lastUpdated: Time)
  datatype TagRow = TagRow(chat: int, name: string)
  datatype Subscription = Subscription(chat: int, link: int)
  datatype SubscriptionTag = SubscriptionTag(chat: int, link: int, tag: int)

  /** The tables, and the next values of the two BIGSERIAL sequences. */
  datatype Tables = Tables(
    chats: set<int>,
    links: map<int, LinkRow>,
    subscriptions: set<Subscription>,
    tags: map<int, TagRow>,
    subscriptionTags: set<SubscriptionTag>,
    nextLink: int,
    nextTag: int)

  const EMPTY := Tables({}, map[], {}, map[], {}, 1, 1)

  /** Primary and unique keys, foreign keys, and the sequences ahead of the ids they gave out. */
  ghost predicate Valid(t: Tables) {
    && (forall l, l' | l in t.links && l' in t.links && t.links[l].url == t.links[l'].url :: l == l')
    && (forall l | l in t.links :: l < t.nextLink)
    && (forall s | s in t.subscriptions :: s.chat in t.chats && s.link in t.links)
    && (forall g, g' | g in t.tags && g' in t.tags && t.tags[g] == t.tags[g'] :: g == g')
    && (forall g | g in t.tags :: t.tags[g].chat in t.chats && g < t.nextTag)
    && (forall s | s in t.subscriptionTags ::
          Subscription(s.chat, s.link) in t.subscriptions && s.tag in t.tags && t.tags[s.tag].chat == s.chat)
  }

  // ----- the nested map -----

  /** What a chat owns: its tag names, and for each tracked URL the names of its tags. */
  datatype ChatView = ChatView(tagNames: set<string>, links: map<string, set<string>>)

  const NEW_CHAT := ChatView({}, map[])

  ghost function TagNames(t: Tables, c: int): set<string> {
    set g | g in t.tags && t.tags[g].chat == c :: t.tags[g].name
  }

  ghost function Urls(t: Tables, c: int): set<string> {
    set s | s in t.subscriptions && s.chat == c && s.link in t.links :: t.links[s.link].url
  }

  ghost function UrlTags(t: Tables, c: int, url: string): set<string> {
    set s | s in t.subscriptionTags && s.chat == c && s.link in t.links && t.links[s.link].url == url && s.tag in t.tags
      :: t.tags[s.tag].name
  }

  ghost function View(t: Tables, c: int): ChatView {
    ChatView(TagNames(t, c), map u | u in Urls(t, c) :: UrlTags(t, c, u))
  }

  ghost function Abs(t: Tables): map<int, ChatView> {
    map c | c in t.chats :: View(t, c)
  }

  // ----- operations on the nested map -----

  datatype Op =
    | RegisterChat(chat: int)
    | DeleteChat(chat: int)
    | AddLink(chat: int, url: string, time: Time, names: seq<string>)
    | RemoveLink(chat: int, url: string)
    | RemoveByTag(chat: int, name: string)
    | CreateTag(chat: int, name: string)
    | RenameTag(chat: int, name: string, newName: string)
    | DeleteTag(chat: int, name: string)
    | UpdateLastUpdated(link: int, time: Time)

  datatype Reply = Done | Removed(count: nat)
    | ChatNotFound | LinkNotFound | TagExists | TagNotFound | NoSuchChat | DatabaseError

  ghost function WithLink(v: ChatView, url: string, names: set<string>): ChatView {
    ChatView(v.tagNames + names, v.links[url := (if url in v.links then v.links[url] else {}) + names])
  }

  ghost function Tagged(v: ChatView, name: string): set<string> {
    set u | u in v.links && name in v.links[u]
  }

  ghost function Renamed(names: set<string>, name: string, newName: string): set<string> {
    if name in names then names - {name} + {newName} else names
  }

  function Names(names: seq<string>): set<string> {
    set n | n in names
  }

  ghost function AbsApply(m: map<int, ChatView>, op: Op): (map<int, ChatView>, Reply) {
    match op
    case RegisterChat(c) => (if c in m then m else m[c := NEW_CHAT], Done)
    case DeleteChat(c) => if c in m then (m - {c}, Done) else (m, ChatNotFound)
    case AddLink(c, url, _, names) =>
      if c !in m then (m, NoSuchChat) else (m[c := WithLink(m[c], url, Names(names))], Done)
    case RemoveLink(c, url) =>
      if c in m && url in m[c].links then (m[c := m[c].(links := m[c].links - {url})], Done) else (m, LinkNotFound)
    case RemoveByTag(c, name) =>
      if c !in m then (m, Removed(0)) else
        var dropped := Tagged(m[c], name);
        (m[c := m[c].(links := m[c].links - dropped)], Removed(|dropped|))
    case CreateTag(c, name) =>
      if c !in m then (m, NoSuchChat)
      else if name in m[c].tagNames then (m, TagExists)
      else (m[c := m[c].(tagNames := m[c].tagNames + {name})], Done)
    case RenameTag(c, name, newName) =>
      if c !in m || name !in m[c].tagNames then (m, TagNotFound)
      else if newName != name && newName in m[c].tagNames then (m, TagExists)
      else (m[c := ChatView(Renamed(m[c].tagNames, name, newName),
                            map u | u in m[c].links :: Renamed(m[c].links[u], name, newName))], Done)
    case DeleteTag(c, name) =>
      if c !in m || name !in m[c].tagNames then (m, TagNotFound)
      else (m[c := ChatView(m[c].tagNames - {name}, map u | u in m[c].links :: m[c].links[u] - {name})], Done)
    case UpdateLastUpdated(_, _) => (m, Done)
  }

  // ----- the statements -----

  ghost predicate HasUrl(t: Tables, url: string) {
    exists l :: l in t.links && t.links[l].url == url
  }

  /** The id of the link row with this URL: the one there is, or the next of the sequence. */
  ghost function LinkId(t: Tables, url: string): int {
    if HasUrl(t, url) then var l :| l in t.links && t.links[l].url == url; l else t.nextLink
  }

  ghost predicate HasTag(t: Tables, c: int, name: string) {
    exists g :: g in t.tags && t.tags[g] == TagRow(c, name)
  }

  ghost function TagId(t: Tables, c: int, name: string): int {
    if HasTag(t, c, name) then var g :| g in t.tags && t.tags[g] == TagRow(c, name); g else t.nextTag
  }

  /** INSERT INTO links ... ON CONFLICT (url) DO UPDATE: a conflict uses up a sequence value too. */
  ghost function UpsertLink(t: Tables, url: string, time: Time): Tables {
    t.(links := t.links[LinkId(t, url) := LinkRow(url, time)], nextLink := t.nextLink + 1)
  }

  function Subscribe(t: Tables, c: int, link: int): Tables {
    t.(subscriptions := t.subscriptions + {Subscription(c, link)})
  }

  /** INSERT INTO tags ... ON CONFLICT (chat_id, name) DO UPDATE, then the subscription_tags row. */
  ghost function AttachTag(t: Tables, c: int, link: int, name: string): Tables {
    var g := TagId(t, c, name);
    t.(tags := t.tags[g := TagRow(c, name)], nextTag := t.nextTag + 1,
       subscriptionTags := t.subscriptionTags + {SubscriptionTag(c, link, g)})
  }

  ghost function AttachTags(t: Tables, c: int, link: int, names: seq<string>): Tables {
    if names == [] then t else
      AttachTag(AttachTags(t, c, link, names[..|names| - 1]), c, link, names[|names| - 1])
  }

  /** DELETE FROM chats, with the cascades to subscriptions, tags and subscription_tags. */
  function DropChat(t: Tables, c: int): Tables {
    t.(chats := t.chats - {c},
       subscriptions := (set s | s in t.subscriptions && s.chat != c),
       tags := (map g | g in t.tags && t.tags[g].chat != c :: t.tags[g]),
       subscriptionTags := (set s | s in t.subscriptionTags && s.chat != c))
  }

  /** DELETE FROM subscriptions, with the cascade to subscription_tags. */
  function DropSubscriptions(t: Tables, gone: set<Subscription>): Tables {
    t.(subscriptions := t.subscriptions - gone,
       subscriptionTags := (set s | s in t.subscriptionTags && Subscription(s.chat, s.link) !in gone))
  }

  /** DELETE FROM tags, with the cascade to subscription_tags. */
  function DropTag(t: Tables, tag: int): Tables {
    t.(tags := (map g | g in t.tags && g != tag :: t.tags[g]),
       subscriptionTags := (set s | s in t.subscriptionTags && s.tag != tag))
  }

  /** The rows RemoveByTag deletes: the subscriptions of the chat joined with its tag of that name. */
  ghost function TaggedSubscriptions(t: Tables, c: int, name: string): set<Subscription> {
    set s | s in t.subscriptions && s.chat == c
         && (exists g ::
               g in t.tags && t.tags[g] == TagRow(c, name) && SubscriptionTag(c, s.link, g) in t.subscriptionTags)
  }

  ghost function SqlApply(t: Tables, op: Op): (Tables, Reply) {
    match op
    case RegisterChat(c) => (t.(chats := t.chats + {c}), Done)
    case DeleteChat(c) => if c in t.chats then (DropChat(t, c), Done) else (t, ChatNotFound)
    case AddLink(c, url, time, names) =>
      if c !in t.chats then (t, NoSuchChat) else
        (AttachTags(Subscribe(UpsertLink(t, url, time), c, LinkId(t, url)), c, LinkId(t, url), names), Done)
    case RemoveLink(c, url) =>
      if HasUrl(t, url) && Subscription(c, LinkId(t, url)) in t.subscriptions
      then (DropSubscriptions(t, {Subscription(c, LinkId(t, url))}), Done)
      else (t, LinkNotFound)
    case RemoveByTag(c, name) =>
      var gone := TaggedSubscriptions(t, c, name);
      (DropSubscriptions(t, gone), Removed(|gone|))
    case CreateTag(c, name) =>
      if c !in t.chats then (t, NoSuchChat)
      else if HasTag(t, c, name) then (t, TagExists)
      else (t.(tags := t.tags[t.nextTag := TagRow(c, name)], nextTag := t.nextTag + 1), Done)
    case RenameTag(c, name, newName) =>
      if !HasTag(t, c, name) then (t, TagNotFound)
      else if newName != name && HasTag(t, c, newName) then (t, TagExists)
      else (t.(tags := t.tags[TagId(t, c, name) := TagRow(c, newName)]), Done)
    case DeleteTag(c, name) =>
      if !HasTag(t, c, name) then (t, TagNotFound) else (DropTag(t, TagId(t, c, name)), Done)
    case UpdateLastUpdated(link, time) =>
      (if link in t.links then t.(links := t.links[link := t.links[link].(lastUpdated := time)]) else t, Done)
  }
}
