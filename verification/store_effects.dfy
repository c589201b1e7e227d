/** What each operation does to the rows a chat can see: which URLs it tracks, which tags it has, and which
    URLs carry which tags, before and after, for every chat. */
module StoreEffects {
  import opened Domain
  import opened Store
  import opened StoreRefinement

  // ----- what there is to see, in rows -----

  /** The chat has a subscription to the link with this URL. */
  ghost predicate Tracks(t: Tables, c: int, url: string) {
    exists s :: s in t.subscriptions && s.chat == c && s.link in t.links && t.links[s.link].url == url
  }

  /** The chat has a tag of this name. */
  ghost predicate Knows(t: Tables, c: int, name: string) {
    exists g :: g in t.tags && t.tags[g].chat == c && t.tags[g].name == name
  }

  /** A tag of this name is on the chat's subscription to this URL. */
  ghost predicate Carries(t: Tables, c: int, url: string, name: string) {
    exists s :: s in t.subscriptionTags && s.chat == c && s.link in t.links && t.links[s.link].url == url
      && s.tag in t.tags && t.tags[s.tag].name == name
  }

  lemma Seen(t: Tables, c: int)
    requires Valid(t)
    ensures forall u :: Tracks(t, c, u) <==> c in Abs(t) && u in Abs(t)[c].links
    ensures forall n :: Knows(t, c, n) <==> c in Abs(t) && n in Abs(t)[c].tagNames
    ensures forall u, n :: Carries(t, c, u, n) <==> c in Abs(t) && u in Abs(t)[c].links && n in Abs(t)[c].links[u]
    ensures c in t.chats <==> c in Abs(t)
  {
    forall u ensures Tracks(t, c, u) <==> c in t.chats && u in Urls(t, c) {
      if Tracks(t, c, u) {
        var s :| s in t.subscriptions && s.chat == c && s.link in t.links && t.links[s.link].url == u;
      }
    }
    forall n ensures Knows(t, c, n) <==> c in t.chats && n in TagNames(t, c) {
      if Knows(t, c, n) {
        var g :| g in t.tags && t.tags[g].chat == c && t.tags[g].name == n;
      }
    }
    forall u, n ensures Carries(t, c, u, n) <==> c in t.chats && u in Urls(t, c) && n in UrlTags(t, c, u) {
      if Carries(t, c, u, n) {
        var s :| s in t.subscriptionTags && s.chat == c && s.link in t.links && t.links[s.link].url == u
          && s.tag in t.tags && t.tags[s.tag].name == n;
        assert Subscription(s.chat, s.link) in t.subscriptions;
      }
    }
  }

  /** The tables before and after an operation, as nested maps. */
  lemma Around(t: Tables, op: Op, d: int)
    requires Valid(t)
    ensures var t' := SqlApply(t, op).0;
            && Valid(t') && SqlApply(t, op).1 == AbsApply(Abs(t), op).1 && Abs(t') == AbsApply(Abs(t), op).0
            && (forall u :: Tracks(t', d, u) <==> d in Abs(t') && u in Abs(t')[d].links)
            && (forall n :: Knows(t', d, n) <==> d in Abs(t') && n in Abs(t')[d].tagNames)
            && (forall u, n ::
                  Carries(t', d, u, n) <==> d in Abs(t') && u in Abs(t')[d].links && n in Abs(t')[d].links[u])
            && (d in t'.chats <==> d in Abs(t'))
  {
    StepRefines(t, op);
    Seen(SqlApply(t, op).0, d);
  }

  /** All the rows of a chat are as they were. */
  ghost predicate Unchanged(t: Tables, t': Tables, d: int) {
    && (d in t.chats <==> d in t'.chats) && (forall u :: Tracks(t', d, u) <==> Tracks(t, d, u))
    && (forall n :: Knows(t', d, n) <==> Knows(t, d, n))
    && (forall u, n :: Carries(t', d, u, n) <==> Carries(t, d, u, n))
  }

  /** An operation that names one chat leaves all the others as they were. */
  lemma OthersUnchanged(t: Tables, op: Op, d: int)
    requires Valid(t) && ChatOf(op) != Some(d)
    ensures Unchanged(t, SqlApply(t, op).0, d)
  {
    Seen(t, d);
    Around(t, op, d);
    if d in Abs(t) {
      AbsFrame(Abs(t), op, d);
    }
  }

  // ----- chats -----

  lemma RegisterChatExactly(t: Tables, c: int)
    requires Valid(t)
    ensures var (t', reply) := SqlApply(t, RegisterChat(c));
            && reply.Done? && c in t'.chats && (c in t.chats ==> Unchanged(t, t', c))
            && (c !in t.chats ==> forall n :: !Knows(t', c, n)) && (c !in t.chats ==> forall u :: !Tracks(t', c, u))
  {
    Seen(t, c);
    Around(t, RegisterChat(c), c);
  }

  lemma DeleteChatExactly(t: Tables, c: int)
    requires Valid(t)
    ensures var (t', reply) := SqlApply(t, DeleteChat(c));
            && reply == (if c in t.chats then Done else ChatNotFound) && c !in t'.chats
            && (forall n :: !Knows(t', c, n)) && (forall u :: !Tracks(t', c, u)) && forall u, n :: !Carries(t', c, u, n)
  {
    Seen(t, c);
    Around(t, DeleteChat(c), c);
  }

  // ----- links -----

  /** Add: the URL is tracked and carries the names given besides those it carried; every name is a tag of
      the chat; the other URLs are as they were. */
  lemma AddLinkExactly(t: Tables, c: int, url: string, time: Time, names: seq<string>, u: string, n: string)
    requires Valid(t)
    ensures var (t', reply) := SqlApply(t, AddLink(c, url, time, names));
            && reply == (if c in t.chats then Done else NoSuchChat)
            && (Tracks(t', c, u) <==> Tracks(t, c, u) || (reply.Done? && u == url))
            && (Knows(t', c, n) <==> Knows(t, c, n) || (reply.Done? && n in names))
            && (Carries(t', c, u, n) <==> Carries(t, c, u, n) || (reply.Done? && u == url && n in names))
  {
    Seen(t, c);
    Around(t, AddLink(c, url, time, names), c);
    assert n in Names(names) <==> n in names;
  }

  lemma RemoveLinkExactly(t: Tables, c: int, url: string, u: string, n: string)
    requires Valid(t)
    ensures var (t', reply) := SqlApply(t, RemoveLink(c, url));
            && reply == (if Tracks(t, c, url) then Done else LinkNotFound)
            && (Tracks(t', c, u) <==> Tracks(t, c, u) && u != url)
            && (Knows(t', c, n) <==> Knows(t, c, n))
            && (Carries(t', c, u, n) <==> Carries(t, c, u, n) && u != url)
  {
    Seen(t, c);
    Around(t, RemoveLink(c, url), c);
  }

  /** RemoveByTag: the URLs that carry the tag go, and the reply is how many they were. */
  lemma RemoveByTagExactly(t: Tables, c: int, name: string, u: string, n: string)
    requires Valid(t)
    ensures var (t', reply) := SqlApply(t, RemoveByTag(c, name));
            && reply == Removed(|Carrying(t, c, name)|)
            && (Tracks(t', c, u) <==> Tracks(t, c, u) && !Carries(t, c, u, name))
            && (Knows(t', c, n) <==> Knows(t, c, n))
            && (Carries(t', c, u, n) <==> Carries(t, c, u, n) && !Carries(t, c, u, name))
  {
    Seen(t, c);
    Around(t, RemoveByTag(c, name), c);
    if c in t.chats {
      assert Abs(t)[c] == View(t, c);
      assert Carrying(t, c, name) == Tagged(Abs(t)[c], name);
    } else {
      assert Carrying(t, c, name) == {};
    }
  }

  /** The URLs of links whose subscription carries the tag. */
  ghost function Carrying(t: Tables, c: int, name: string): set<string> {
    set l | l in t.links && Carries(t, c, t.links[l].url, name) :: t.links[l].url
  }

  // ----- tags -----

  lemma CreateTagExactly(t: Tables, c: int, name: string, u: string, n: string)
    requires Valid(t)
    ensures var (t', reply) := SqlApply(t, CreateTag(c, name));
            && reply == (if c !in t.chats then NoSuchChat else if Knows(t, c, name) then TagExists else Done)
            && (Knows(t', c, n) <==> Knows(t, c, n) || (c in t.chats && n == name))
            && (Tracks(t', c, u) <==> Tracks(t, c, u))
            && (Carries(t', c, u, n) <==> Carries(t, c, u, n))
  {
    Seen(t, c);
    Around(t, CreateTag(c, name), c);
  }

  lemma RenamedOnce(v: ChatView, name: string, newName: string, u: string, n: string)
    requires newName == name || newName !in v.tagNames
    ensures var v' := RenamedIn(v, name, newName);
            && (u in v'.links <==> u in v.links)
            && (name in v.tagNames ==> (n in v'.tagNames <==> n == newName || (n != name && n in v.tagNames)))
            && (u in v.links ==>
                  (n in v'.links[u] <==> (n == newName && name in v.links[u]) || (n != name && n in v.links[u])))
  {}

  lemma RenamedAbs(m: map<int, ChatView>, c: int, name: string, newName: string)
    ensures var (m', reply) := AbsApply(m, RenameTag(c, name, newName));
            && reply == (if c !in m || name !in m[c].tagNames then TagNotFound
                         else if newName != name && newName in m[c].tagNames then TagExists else Done)
            && m' == if reply.Done? then m[c := RenamedIn(m[c], name, newName)] else m
  {}

  /** RenameTag: the new name takes the place of the old one among the chat's tags and on every URL. */
  lemma RenameTagExactly(t: Tables, c: int, name: string, newName: string, u: string, n: string)
    requires Valid(t)
    ensures var (t', reply) := SqlApply(t, RenameTag(c, name, newName));
            && reply == (if !Knows(t, c, name) then TagNotFound
                         else if newName != name && Knows(t, c, newName) then TagExists else Done)
            && (Tracks(t', c, u) <==> Tracks(t, c, u))
            && (reply.Done? ==> (Knows(t', c, n) <==> n == newName || (n != name && Knows(t, c, n))))
            && (reply.Done? ==>
                  (Carries(t', c, u, n)
                   <==> (n == newName && Carries(t, c, u, name)) || (n != name && Carries(t, c, u, n))))
  {
    Seen(t, c);
    Around(t, RenameTag(c, name, newName), c);
    RenamedAbs(Abs(t), c, name, newName);
    if c in Abs(t) && (newName == name || newName !in Abs(t)[c].tagNames) {
      RenamedOnce(Abs(t)[c], name, newName, u, n);
    }
  }

  lemma RenameTagRefused(t: Tables, c: int, name: string, newName: string)
    requires Valid(t) && !SqlApply(t, RenameTag(c, name, newName)).1.Done?
    ensures Unchanged(t, SqlApply(t, RenameTag(c, name, newName)).0, c)
  {}

  lemma DeleteTagExactly(t: Tables, c: int, name: string, u: string, n: string)
    requires Valid(t)
    ensures var (t', reply) := SqlApply(t, DeleteTag(c, name));
            && reply == (if Knows(t, c, name) then Done else TagNotFound)
            && (Tracks(t', c, u) <==> Tracks(t, c, u))
            && (Knows(t', c, n) <==> Knows(t, c, n) && n != name)
            && (Carries(t', c, u, n) <==> Carries(t, c, u, n) && n != name)
  {
    Seen(t, c);
    Around(t, DeleteTag(c, name), c);
  }

  // ----- the watermark column -----

  lemma UpdateLastUpdatedExactly(t: Tables, link: int, time: Time)
    ensures var t' := SqlApply(t, UpdateLastUpdated(link, time)).0;
            && t'.links.Keys == t.links.Keys && t'.subscriptions == t.subscriptions
            && forall l | l in t.links ::
                 && t'.links[l].url == t.links[l].url
                 && t'.links[l].lastUpdated == if l == link then time else t.links[l].lastUpdated
  {}
}
