/** Every operation on the tables refines the same operation on the nested map. */
module StoreRefinement {
  import opened Domain
  import opened Store

  /** A view is determined by its tag names, its URLs and the tags of each URL. */
  lemma ViewEquals(t: Tables, c: int, v: ChatView)
    requires TagNames(t, c) == v.tagNames && Urls(t, c) == v.links.Keys
    requires forall u | u in v.links :: UrlTags(t, c, u) == v.links[u]
    ensures View(t, c) == v
  {}

  /** When the views of all chats but one are kept, the nested map changes at that chat only. */
  lemma AbsUpdate(t: Tables, t': Tables, c: int)
    requires c in t.chats && t'.chats == t.chats
    requires forall d | d != c :: View(t', d) == View(t, d)
    ensures Abs(t') == Abs(t)[c := View(t', c)]
  {}

  lemma AbsKept(t: Tables, t': Tables)
    requires t'.chats == t.chats
    requires forall d :: View(t', d) == View(t, d)
    ensures Abs(t') == Abs(t)
  {}

  lemma LinkIdOf(t: Tables, url: string)
    requires Valid(t)
    ensures HasUrl(t, url) ==> LinkId(t, url) in t.links && t.links[LinkId(t, url)].url == url
    ensures !HasUrl(t, url) ==> LinkId(t, url) !in t.links
    ensures forall l | l in t.links && t.links[l].url == url :: l == LinkId(t, url)
  {}

  lemma TagIdOf(t: Tables, c: int, name: string)
    requires Valid(t)
    ensures HasTag(t, c, name) ==> TagId(t, c, name) in t.tags && t.tags[TagId(t, c, name)] == TagRow(c, name)
    ensures !HasTag(t, c, name) ==> TagId(t, c, name) !in t.tags
    ensures HasTag(t, c, name) <==> name in TagNames(t, c)
  {}

  /** Membership in a chat's URLs and tags, in terms of the one row of the URL. */
  lemma UrlsByRow(t: Tables, c: int, url: string)
    requires Valid(t)
    ensures url in Urls(t, c) <==> HasUrl(t, url) && Subscription(c, LinkId(t, url)) in t.subscriptions
  {
    LinkIdOf(t, url);
  }

  lemma UrlTagsByRow(t: Tables, c: int, url: string, name: string)
    requires Valid(t)
    ensures name in UrlTags(t, c, url) <==>
            HasUrl(t, url) && HasTag(t, c, name)
            && SubscriptionTag(c, LinkId(t, url), TagId(t, c, name)) in t.subscriptionTags
  {
    LinkIdOf(t, url);
    TagIdOf(t, c, name);
  }

  /** The rows of chat d are the same in both. */
  ghost predicate SameRows(t: Tables, t': Tables, d: int) {
    && (forall g :: HasRow(t, g, d) <==> HasRow(t', g, d))
    && (forall g | HasRow(t, g, d) :: t'.tags[g] == t.tags[g])
    && (forall s: Subscription | s.chat == d :: s in t.subscriptions <==> s in t'.subscriptions)
    && (forall s: SubscriptionTag | s.chat == d :: s in t.subscriptionTags <==> s in t'.subscriptionTags)
    && (forall l | l in t.links :: l in t'.links && t'.links[l].url == t.links[l].url)
  }

  predicate HasRow(t: Tables, g: int, d: int) {
    g in t.tags && t.tags[g].chat == d
  }

  lemma SameTagNames(t: Tables, t': Tables, d: int)
    requires SameRows(t, t', d)
    ensures TagNames(t', d) == TagNames(t, d)
  {
    forall n ensures n in TagNames(t', d) <==> n in TagNames(t, d) {
      if n in TagNames(t, d) {
        var g :| HasRow(t, g, d) && t.tags[g].name == n;
        assert HasRow(t', g, d) && t'.tags[g].name == n;
      }
      if n in TagNames(t', d) {
        var g :| HasRow(t', g, d) && t'.tags[g].name == n;
        assert HasRow(t, g, d) && t.tags[g].name == n;
      }
    }
  }

  lemma SameUrls(t: Tables, t': Tables, d: int)
    requires Valid(t) && SameRows(t, t', d)
    ensures Urls(t', d) == Urls(t, d)
  {
    forall u ensures u in Urls(t', d) <==> u in Urls(t, d) {
      if u in Urls(t, d) {
        var s :| s in t.subscriptions && s.chat == d && s.link in t.links && t.links[s.link].url == u;
        assert s in t'.subscriptions && t'.links[s.link].url == u;
      }
      if u in Urls(t', d) {
        var s :| s in t'.subscriptions && s.chat == d && s.link in t'.links && t'.links[s.link].url == u;
        assert s in t.subscriptions && t.links[s.link].url == u;
      }
    }
  }

  lemma SameUrlTags(t: Tables, t': Tables, d: int, u: string)
    requires Valid(t) && SameRows(t, t', d)
    ensures UrlTags(t', d, u) == UrlTags(t, d, u)
  {
    forall n ensures n in UrlTags(t', d, u) <==> n in UrlTags(t, d, u) {
      if n in UrlTags(t, d, u) {
        var s :| s in t.subscriptionTags && s.chat == d && s.link in t.links && t.links[s.link].url == u
          && s.tag in t.tags && t.tags[s.tag].name == n;
        assert HasRow(t, s.tag, d) && s in t'.subscriptionTags && t'.tags[s.tag].name == n;
      }
      if n in UrlTags(t', d, u) {
        var s :| s in t'.subscriptionTags && s.chat == d && s.link in t'.links && t'.links[s.link].url == u
          && s.tag in t'.tags && t'.tags[s.tag].name == n;
        assert s in t.subscriptionTags && HasRow(t, s.tag, d);
        assert Subscription(s.chat, s.link) in t.subscriptions && s.link in t.links;
      }
    }
  }

  /** A chat whose rows are the same has the same view. */
  lemma SameView(t: Tables, t': Tables, d: int)
    requires Valid(t) && SameRows(t, t', d)
    ensures View(t', d) == View(t, d)
  {
    SameTagNames(t, t', d);
    SameUrls(t, t', d);
    forall u ensures UrlTags(t', d, u) == UrlTags(t, d, u) {
      SameUrlTags(t, t', d, u);
    }
    ViewEquals(t', d, View(t, d));
  }

  // ----- AddLink -----

  lemma UpsertLinkKeepsViews(t: Tables, url: string, time: Time)
    requires Valid(t)
    ensures var t' := UpsertLink(t, url, time);
            Valid(t') && LinkId(t, url) in t'.links && t'.links[LinkId(t, url)].url == url
            && forall c :: View(t', c) == View(t, c)
  {
    LinkIdOf(t, url);
    var t' := UpsertLink(t, url, time);
    assert Valid(t');
    assert forall l | l in t.links :: l in t'.links && t'.links[l].url == t.links[l].url;
    forall c ensures View(t', c) == View(t, c) {
      assert TagNames(t', c) == TagNames(t, c);
      assert Urls(t', c) == Urls(t, c) by {
        assert forall s | s in t.subscriptions :: s.link in t.links;
      }
      forall u | u in Urls(t, c) ensures UrlTags(t', c, u) == UrlTags(t, c, u) {
        assert forall s | s in t.subscriptionTags ::
          Subscription(s.chat, s.link) in t.subscriptions && s.link in t.links;
      }
    }
  }

  lemma SubscribeView(t: Tables, c: int, link: int)
    requires Valid(t) && c in t.chats && link in t.links
    ensures var t' := Subscribe(t, c, link);
            Valid(t') && View(t', c) == WithLink(View(t, c), t.links[link].url, {})
            && forall d | d != c :: View(t', d) == View(t, d)
  {
    var t' := Subscribe(t, c, link);
    var url := t.links[link].url;
    assert Valid(t');
    forall d ensures View(t', d) == if d == c then WithLink(View(t, c), url, {}) else View(t, d) {
      assert TagNames(t', d) == TagNames(t, d);
      assert forall u :: UrlTags(t', d, u) == UrlTags(t, d, u);
      if d == c {
        forall u ensures u in Urls(t', c) <==> u in Urls(t, c) || u == url {
          if u == url { assert Subscription(c, link) in t'.subscriptions; }
        }
        assert Urls(t', c) == Urls(t, c) + {url} && TagNames(t, c) + {} == TagNames(t, c);
        assert UrlTags(t, c, url) + {} == UrlTags(t, c, url);
        if url !in Urls(t, c) {
          assert UrlTags(t, c, url) == {} by {
            assert forall s | s in t.subscriptionTags && s.chat == c :: Subscription(c, s.link) in t.subscriptions;
          }
        }
        ViewEquals(t', c, WithLink(View(t, c), url, {}));
      } else {
        assert Urls(t', d) == Urls(t, d);
      }
    }
  }

  lemma AttachTagValid(t: Tables, c: int, link: int, name: string)
    requires Valid(t) && Subscription(c, link) in t.subscriptions
    ensures Valid(AttachTag(t, c, link, name))
  {
    TagIdOf(t, c, name);
  }

  lemma AttachedTagNames(t: Tables, c: int, link: int, name: string)
    requires Valid(t)
    ensures TagNames(AttachTag(t, c, link, name), c) == TagNames(t, c) + {name}
  {
    var t', g := AttachTag(t, c, link, name), TagId(t, c, name);
    TagIdOf(t, c, name);
    forall n ensures n in TagNames(t', c) <==> n in TagNames(t, c) || n == name {
      if n == name {
        assert t'.tags[g].name == name;
      }
      if n in TagNames(t, c) {
        var h :| h in t.tags && t.tags[h].chat == c && t.tags[h].name == n;
        assert t'.tags[h].name == n;
      }
    }
  }

  lemma AttachTagOthers(t: Tables, c: int, link: int, name: string, d: int)
    requires Valid(t) && d != c
    ensures View(AttachTag(t, c, link, name), d) == View(t, d)
  {
    TagIdOf(t, c, name);
    assert SameRows(t, AttachTag(t, c, link, name), d);
    SameView(t, AttachTag(t, c, link, name), d);
  }

  lemma AttachTagView(t: Tables, c: int, link: int, name: string)
    requires Valid(t) && Subscription(c, link) in t.subscriptions
    ensures var t' := AttachTag(t, c, link, name);
            Valid(t') && View(t', c) == WithLink(View(t, c), t.links[link].url, {name})
            && t'.links == t.links && t'.subscriptions == t.subscriptions && t'.chats == t.chats
            && forall d | d != c :: View(t', d) == View(t, d)
  {
    var t', url := AttachTag(t, c, link, name), t.links[link].url;
    AttachTagValid(t, c, link, name);
    AttachedTagNames(t, c, link, name);
    forall u ensures UrlTags(t', c, u) == UrlTags(t, c, u) + if u == url then {name} else {} {
      AttachedUrlTags(t, c, link, name, u);
    }
    assert Urls(t', c) == Urls(t, c);
    assert url in Urls(t, c) && Urls(t, c) + {url} == Urls(t, c);
    ViewEquals(t', c, WithLink(View(t, c), url, {name}));
    forall d | d != c ensures View(t', d) == View(t, d) {
      AttachTagOthers(t, c, link, name, d);
    }
  }

  lemma AttachedUrlTags(t: Tables, c: int, link: int, name: string, u: string)
    requires Valid(t) && Subscription(c, link) in t.subscriptions
    ensures UrlTags(AttachTag(t, c, link, name), c, u)
            == UrlTags(t, c, u) + if u == t.links[link].url then {name} else {}
  {
    var t' := AttachTag(t, c, link, name);
    var g := TagId(t, c, name);
    TagIdOf(t, c, name);
    var added := SubscriptionTag(c, link, g);
    forall n ensures n in UrlTags(t', c, u) <==> n in UrlTags(t, c, u) || (u == t.links[link].url && n == name) {
      if n in UrlTags(t, c, u) {
        var s :| s in t.subscriptionTags && s.chat == c && s.link in t.links && t.links[s.link].url == u
          && s.tag in t.tags && t.tags[s.tag].name == n;
        assert s in t'.subscriptionTags && t'.tags[s.tag].name == n;
      }
      if u == t.links[link].url && n == name {
        assert added in t'.subscriptionTags && t'.tags[added.tag].name == n;
      }
      if n in UrlTags(t', c, u) {
        var s :| s in t'.subscriptionTags && s.chat == c && s.link in t'.links && t'.links[s.link].url == u
          && s.tag in t'.tags && t'.tags[s.tag].name == n;
        if s != added {
          assert s in t.subscriptionTags && s.tag in t.tags;
          assert t.tags[s.tag].name == n;
        }
      }
    }
  }

  /** Adding names to a link twice adds their union. */
  lemma WithLinkTwice(v: ChatView, url: string, a: set<string>, b: set<string>)
    ensures WithLink(WithLink(v, url, a), url, b) == WithLink(v, url, a + b)
  {
    var had := if url in v.links then v.links[url] else {};
    assert (v.tagNames + a) + b == v.tagNames + (a + b);
    assert (had + a) + b == had + (a + b);
  }

  lemma WithNoNames(v: ChatView, url: string)
    requires url in v.links
    ensures WithLink(v, url, {}) == v
  {
    assert v.tagNames + {} == v.tagNames && v.links[url] + {} == v.links[url];
  }

  lemma NamesOfLast(names: seq<string>)
    requires names != []
    ensures Names(names) == Names(names[..|names| - 1]) + {names[|names| - 1]}
  {
    assert names == names[..|names| - 1] + [names[|names| - 1]];
  }

  lemma {:induction false} AttachTagsView(t: Tables, c: int, link: int, names: seq<string>)
    requires Valid(t) && Subscription(c, link) in t.subscriptions && t.links[link].url in Urls(t, c)
    ensures var t' := AttachTags(t, c, link, names);
            Valid(t') && View(t', c) == WithLink(View(t, c), t.links[link].url, Names(names))
            && t'.links == t.links && t'.subscriptions == t.subscriptions && t'.chats == t.chats
            && forall d | d != c :: View(t', d) == View(t, d)
  {
    var url := t.links[link].url;
    if names == [] {
      assert Names(names) == {};
      WithNoNames(View(t, c), url);
    } else {
      var n := |names| - 1;
      AttachTagsView(t, c, link, names[..n]);
      AttachTagView(AttachTags(t, c, link, names[..n]), c, link, names[n]);
      NamesOfLast(names);
      WithLinkTwice(View(t, c), url, Names(names[..n]), {names[n]});
    }
  }

  /** The first two statements of Add: the URL is there, with the tags it had. */
  lemma SubscribedRows(t: Tables, c: int, url: string, time: Time)
    requires Valid(t) && c in t.chats
    ensures var l := LinkId(t, url);
            var t' := Subscribe(UpsertLink(t, url, time), c, l);
            && Valid(t') && t'.chats == t.chats && l in t'.links && t'.links[l].url == url
            && Subscription(c, l) in t'.subscriptions && View(t', c) == WithLink(View(t, c), url, {})
            && forall d | d != c :: View(t', d) == View(t, d)
  {
    UpsertLinkKeepsViews(t, url, time);
    SubscribeView(UpsertLink(t, url, time), c, LinkId(t, url));
  }

  /** The statements of Add: the chat has the URL with the tags added, and no other chat changes. */
  lemma AddedRows(t: Tables, c: int, url: string, time: Time, names: seq<string>)
    requires Valid(t) && c in t.chats
    ensures var t' := AttachTags(Subscribe(UpsertLink(t, url, time), c, LinkId(t, url)), c, LinkId(t, url), names);
            && Valid(t') && t'.chats == t.chats && View(t', c) == WithLink(View(t, c), url, Names(names))
            && forall d | d != c :: View(t', d) == View(t, d)
  {
    var l := LinkId(t, url);
    SubscribedRows(t, c, url, time);
    AttachedTo(t, Subscribe(UpsertLink(t, url, time), c, l), c, l, url, names);
  }

  lemma AttachedTo(t: Tables, t2: Tables, c: int, l: int, url: string, names: seq<string>)
    requires Valid(t2) && l in t2.links && t2.links[l].url == url && Subscription(c, l) in t2.subscriptions
    requires View(t2, c) == WithLink(View(t, c), url, {}) && forall d | d != c :: View(t2, d) == View(t, d)
    ensures var t' := AttachTags(t2, c, l, names);
            && Valid(t') && t'.chats == t2.chats && View(t', c) == WithLink(View(t, c), url, Names(names))
            && forall d | d != c :: View(t', d) == View(t, d)
  {
    assert url in Urls(t2, c);
    AttachTagsView(t2, c, l, names);
    WithLinkTwice(View(t, c), url, {}, Names(names));
    assert {} + Names(names) == Names(names);
  }

  lemma AddLinkRefines(t: Tables, c: int, url: string, time: Time, names: seq<string>)
    requires Valid(t)
    ensures Refined(t, AddLink(c, url, time, names))
  {
    if c in t.chats {
      var l := LinkId(t, url);
      AddedRows(t, c, url, time, names);
      AbsUpdate(t, AttachTags(Subscribe(UpsertLink(t, url, time), c, l), c, l, names), c);
    }
  }

  // ----- removals -----

  lemma DropChatRefines(t: Tables, c: int)
    requires Valid(t)
    ensures Refined(t, DeleteChat(c))
  {
    if c in t.chats {
      var t' := DropChat(t, c);
      forall d | d != c ensures View(t', d) == View(t, d) {
        assert SameRows(t, t', d);
        SameView(t, t', d);
      }
      assert Abs(t') == Abs(t) - {c};
    }
  }

  /** Dropping subscriptions of one chat drops exactly their URLs from its view. */
  lemma DropSubscriptionsView(t: Tables, c: int, gone: set<Subscription>, urls: set<string>)
    requires Valid(t) && gone <= t.subscriptions && forall s | s in gone :: s.chat == c
    requires urls == set s | s in gone :: t.links[s.link].url
    ensures var t' := DropSubscriptions(t, gone);
            Valid(t') && View(t', c) == View(t, c).(links := View(t, c).links - urls)
            && forall d | d != c :: View(t', d) == View(t, d)
  {
    var t' := DropSubscriptions(t, gone);
    assert Valid(t');
    forall d ensures View(t', d) == if d == c then View(t, c).(links := View(t, c).links - urls) else View(t, d) {
      assert TagNames(t', d) == TagNames(t, d);
      var left := Urls(t, d) - if d == c then urls else {};
      forall u ensures u in Urls(t', d) <==> u in left {
        UrlsByRow(t, d, u);
        UrlsByRow(t', d, u);
        LinkIdOf(t, u);
      }
      assert Urls(t', d) == left;
      forall u | u in left ensures UrlTags(t', d, u) == UrlTags(t, d, u) {
        LinkIdOf(t, u);
        forall n ensures n in UrlTags(t', d, u) <==> n in UrlTags(t, d, u) {
          UrlTagsByRow(t, d, u, n);
          UrlTagsByRow(t', d, u, n);
        }
      }
      assert View(t', d).links == if d == c then View(t, c).links - urls else View(t, d).links;
    }
  }

  lemma RemoveLinkRefines(t: Tables, c: int, url: string)
    requires Valid(t)
    ensures Refined(t, RemoveLink(c, url))
  {
    UrlsByRow(t, c, url);
    LinkIdOf(t, url);
    var s := Subscription(c, LinkId(t, url));
    if HasUrl(t, url) && s in t.subscriptions {
      DropSubscriptionsView(t, c, {s}, {url});
      AbsUpdate(t, DropSubscriptions(t, {s}), c);
    }
  }

  /** Distinct subscriptions of one chat are on distinct URLs. */
  lemma {:induction false} SubscriptionsCountUrls(t: Tables, c: int, subs: set<Subscription>)
    requires Valid(t) && subs <= t.subscriptions && forall s | s in subs :: s.chat == c
    ensures |set s | s in subs :: t.links[s.link].url| == |subs|
    decreases subs
  {
    var urls := set s | s in subs :: t.links[s.link].url;
    if subs != {} {
      var s :| s in subs;
      var rest := subs - {s};
      SubscriptionsCountUrls(t, c, rest);
      assert urls == (set r | r in rest :: t.links[r.link].url) + {t.links[s.link].url};
      assert t.links[s.link].url !in set r | r in rest :: t.links[r.link].url;
    }
  }

  lemma RemoveByTagRefines(t: Tables, c: int, name: string)
    requires Valid(t)
    ensures Refined(t, RemoveByTag(c, name))
  {
    var gone := TaggedSubscriptions(t, c, name);
    var urls := set s | s in gone :: t.links[s.link].url;
    if c in t.chats {
      forall u ensures u in urls <==> u in Tagged(View(t, c), name) {
        UrlsByRow(t, c, u);
        LinkIdOf(t, u);
        UrlTagsByRow(t, c, u, name);
        TagIdOf(t, c, name);
      }
      assert urls == Tagged(View(t, c), name);
      SubscriptionsCountUrls(t, c, gone);
      DropSubscriptionsView(t, c, gone, urls);
      AbsUpdate(t, DropSubscriptions(t, gone), c);
    } else {
      assert gone == {};
      assert DropSubscriptions(t, gone) == t;
    }
  }

  // ----- tags -----

  lemma CreatedView(t: Tables, c: int, name: string, d: int)
    requires Valid(t)
    ensures var t' := t.(tags := t.tags[t.nextTag := TagRow(c, name)], nextTag := t.nextTag + 1);
            View(t', d) == if d == c then View(t, c).(tagNames := View(t, c).tagNames + {name}) else View(t, d)
  {
    var t' := t.(tags := t.tags[t.nextTag := TagRow(c, name)], nextTag := t.nextTag + 1);
    assert t'.tags[t.nextTag] == TagRow(c, name);
    forall n ensures n in TagNames(t', d) <==> n in TagNames(t, d) || (d == c && n == name) {
      if n in TagNames(t, d) {
        var h :| h in t.tags && t.tags[h].chat == d && t.tags[h].name == n;
        assert t'.tags[h] == t.tags[h];
      }
    }
    assert TagNames(t', d) == TagNames(t, d) + if d == c then {name} else {};
    assert Urls(t', d) == Urls(t, d);
    forall u ensures UrlTags(t', d, u) == UrlTags(t, d, u) {}
  }

  lemma CreatedAbs(t: Tables, c: int, name: string)
    requires Valid(t) && c in t.chats && !HasTag(t, c, name)
    ensures var t' := t.(tags := t.tags[t.nextTag := TagRow(c, name)], nextTag := t.nextTag + 1);
            Valid(t') && Abs(t') == Abs(t)[c := View(t, c).(tagNames := View(t, c).tagNames + {name})]
  {
    var t' := t.(tags := t.tags[t.nextTag := TagRow(c, name)], nextTag := t.nextTag + 1);
    forall d ensures d != c ==> View(t', d) == View(t, d) {
      CreatedView(t, c, name, d);
    }
    CreatedView(t, c, name, c);
    AbsUpdate(t, t', c);
    CreatedValid(t, c, name);
  }

  lemma CreatedValid(t: Tables, c: int, name: string)
    requires Valid(t) && c in t.chats && !HasTag(t, c, name)
    ensures Valid(t.(tags := t.tags[t.nextTag := TagRow(c, name)], nextTag := t.nextTag + 1))
  {}

  lemma CreateTagRefines(t: Tables, c: int, name: string)
    requires Valid(t)
    ensures Refined(t, CreateTag(c, name))
  {
    TagIdOf(t, c, name);
    var after := SqlApply(t, CreateTag(c, name));
    if c in t.chats {
      assert Abs(t)[c] == View(t, c);
      if HasTag(t, c, name) {
        assert after == (t, TagExists);
      } else {
        assert after == (t.(tags := t.tags[t.nextTag := TagRow(c, name)], nextTag := t.nextTag + 1), Done);
        CreatedAbs(t, c, name);
        assert AbsApply(Abs(t), CreateTag(c, name))
            == (Abs(t)[c := View(t, c).(tagNames := View(t, c).tagNames + {name})], Done);
      }
    } else {
      assert after == (t, NoSuchChat);
    }
  }

  lemma RenamedTagNames(t: Tables, c: int, name: string, newName: string, d: int)
    requires Valid(t) && HasTag(t, c, name) && (newName == name || !HasTag(t, c, newName))
    ensures TagNames(SqlApply(t, RenameTag(c, name, newName)).0, d)
            == if d == c then Renamed(TagNames(t, c), name, newName) else TagNames(t, d)
  {
    TagIdOf(t, c, name);
    var t' := SqlApply(t, RenameTag(c, name, newName)).0;
    var g := TagId(t, c, name);
    assert t'.tags[g] == TagRow(c, newName);
    assert forall h | h in t.tags && h != g :: t'.tags[h] == t.tags[h] && t.tags[h] != TagRow(c, name);
    forall n ensures n in TagNames(t', d) <==>
                     n in if d == c then Renamed(TagNames(t, c), name, newName) else TagNames(t, d) {
      if n in TagNames(t, d) {
        var h :| h in t.tags && t.tags[h].chat == d && t.tags[h].name == n;
        assert h in t'.tags;
      }
    }
  }

  ghost function RenamedIn(v: ChatView, name: string, newName: string): ChatView {
    ChatView(Renamed(v.tagNames, name, newName), map u | u in v.links :: Renamed(v.links[u], name, newName))
  }

  lemma RenamedView(t: Tables, c: int, name: string, newName: string, d: int)
    requires Valid(t) && HasTag(t, c, name) && (newName == name || !HasTag(t, c, newName))
    ensures View(SqlApply(t, RenameTag(c, name, newName)).0, d)
            == if d == c then RenamedIn(View(t, c), name, newName) else View(t, d)
  {
    var t' := SqlApply(t, RenameTag(c, name, newName)).0;
    RenamedTagNames(t, c, name, newName, d);
    assert Urls(t', d) == Urls(t, d);
    forall u
      ensures UrlTags(t', d, u) == if d == c then Renamed(UrlTags(t, c, u), name, newName) else UrlTags(t, d, u)
    {
      RenamedUrlTags(t, c, name, newName, d, u);
    }
    ViewEquals(t', d, if d == c then RenamedIn(View(t, c), name, newName) else View(t, d));
  }

  lemma RenameTagRefines(t: Tables, c: int, name: string, newName: string)
    requires Valid(t)
    ensures Refined(t, RenameTag(c, name, newName))
  {
    TagIdOf(t, c, name);
    TagIdOf(t, c, newName);
    if HasTag(t, c, name) && (newName == name || !HasTag(t, c, newName)) {
      forall d { RenamedView(t, c, name, newName, d); }
      AbsUpdate(t, SqlApply(t, RenameTag(c, name, newName)).0, c);
    }
  }

  lemma RenamedRow(t: Tables, c: int, name: string, newName: string, s: SubscriptionTag)
    requires Valid(t) && HasTag(t, c, name) && s in t.subscriptionTags
    ensures var t' := SqlApply(t, RenameTag(c, name, newName)).0;
            newName == name || !HasTag(t, c, newName) ==>
              s.tag in t'.tags
              && t'.tags[s.tag].name
                 == if s.chat == c && t.tags[s.tag].name == name then newName else t.tags[s.tag].name
  {
    TagIdOf(t, c, name);
    assert t.tags[s.tag].chat == s.chat;
  }

  lemma RenamedUrlTags(t: Tables, c: int, name: string, newName: string, d: int, u: string)
    requires Valid(t) && HasTag(t, c, name) && (newName == name || !HasTag(t, c, newName))
    ensures UrlTags(SqlApply(t, RenameTag(c, name, newName)).0, d, u)
            == if d == c then Renamed(UrlTags(t, c, u), name, newName) else UrlTags(t, d, u)
  {
    var t' := SqlApply(t, RenameTag(c, name, newName)).0;
    assert t'.subscriptionTags == t.subscriptionTags && t'.links == t.links;
    forall s | s in t.subscriptionTags
      ensures s.tag in t'.tags
      ensures t'.tags[s.tag].name == if s.chat == c && t.tags[s.tag].name == name then newName else t.tags[s.tag].name
    {
      RenamedRow(t, c, name, newName, s);
    }
    RenamedNames(t, t', c, name, newName, d, u);
  }

  /** Renaming the tags row by row renames the name in the set. */
  lemma RenamedNames(t: Tables, t': Tables, c: int, name: string, newName: string, d: int, u: string)
    requires Valid(t) && t'.subscriptionTags == t.subscriptionTags && t'.links == t.links
    requires forall s | s in t.subscriptionTags :: s.tag in t'.tags
               && t'.tags[s.tag].name
                  == if s.chat == c && t.tags[s.tag].name == name then newName else t.tags[s.tag].name
    ensures UrlTags(t', d, u) == if d == c then Renamed(UrlTags(t, c, u), name, newName) else UrlTags(t, d, u)
  {
    forall n ensures n in UrlTags(t', d, u) <==>
                     n in if d == c then Renamed(UrlTags(t, c, u), name, newName) else UrlTags(t, d, u) {
      if d == c && name in UrlTags(t, c, u) {
        var s :| s in t.subscriptionTags && s.chat == c && s.link in t.links && t.links[s.link].url == u
          && s.tag in t.tags && t.tags[s.tag].name == name;
        assert t'.tags[s.tag].name == newName;
      }
      if n in UrlTags(t, d, u) {
        var s :| s in t.subscriptionTags && s.chat == d && s.link in t.links && t.links[s.link].url == u
          && s.tag in t.tags && t.tags[s.tag].name == n;
        assert s.tag in t'.tags;
      }
      if n in UrlTags(t', d, u) {
        var s :| s in t'.subscriptionTags && s.chat == d && s.link in t'.links && t'.links[s.link].url == u
          && s.tag in t'.tags && t'.tags[s.tag].name == n;
        assert t.tags[s.tag].name in UrlTags(t, d, u);
      }
    }
  }

  lemma DroppedTagNames(t: Tables, c: int, name: string, d: int)
    requires Valid(t) && HasTag(t, c, name)
    ensures TagNames(DropTag(t, TagId(t, c, name)), d) == TagNames(t, d) - if d == c then {name} else {}
  {
    TagIdOf(t, c, name);
    var t' := DropTag(t, TagId(t, c, name));
    assert forall h | h in t.tags && h != TagId(t, c, name) :: t.tags[h] != TagRow(c, name);
    forall n ensures n in TagNames(t', d) <==> n in TagNames(t, d) && !(d == c && n == name) {
      if n in TagNames(t, d) && !(d == c && n == name) {
        var h :| h in t.tags && t.tags[h].chat == d && t.tags[h].name == n;
        assert h in t'.tags;
      }
    }
  }

  lemma DroppedUrlTags(t: Tables, c: int, name: string, d: int, u: string)
    requires Valid(t) && HasTag(t, c, name)
    ensures UrlTags(DropTag(t, TagId(t, c, name)), d, u) == UrlTags(t, d, u) - if d == c then {name} else {}
  {
    TagIdOf(t, c, name);
    var t' := DropTag(t, TagId(t, c, name));
    assert forall h | h in t.tags && h != TagId(t, c, name) :: t.tags[h] != TagRow(c, name);
    forall n ensures n in UrlTags(t', d, u) <==> n in UrlTags(t, d, u) && !(d == c && n == name) {
      if n in UrlTags(t, d, u) && !(d == c && n == name) {
        var s :| s in t.subscriptionTags && s.chat == d && s.link in t.links && t.links[s.link].url == u
          && s.tag in t.tags && t.tags[s.tag].name == n;
        assert s in t'.subscriptionTags && s.tag in t'.tags;
      }
    }
  }

  ghost function WithoutTag(v: ChatView, name: string): ChatView {
    ChatView(v.tagNames - {name}, map u | u in v.links :: v.links[u] - {name})
  }

  lemma DroppedView(t: Tables, c: int, name: string, d: int)
    requires Valid(t) && HasTag(t, c, name)
    ensures View(DropTag(t, TagId(t, c, name)), d) == if d == c then WithoutTag(View(t, c), name) else View(t, d)
  {
    var t' := DropTag(t, TagId(t, c, name));
    DroppedTagNames(t, c, name, d);
    assert Urls(t', d) == Urls(t, d);
    forall u ensures UrlTags(t', d, u) == UrlTags(t, d, u) - if d == c then {name} else {} {
      DroppedUrlTags(t, c, name, d, u);
    }
    ViewEquals(t', d, if d == c then WithoutTag(View(t, c), name) else View(t, d));
  }

  lemma DeleteTagRefines(t: Tables, c: int, name: string)
    requires Valid(t)
    ensures Refined(t, DeleteTag(c, name))
  {
    TagIdOf(t, c, name);
    if HasTag(t, c, name) {
      var t' := DropTag(t, TagId(t, c, name));
      forall d ensures View(t', d) == if d == c then WithoutTag(View(t, c), name) else View(t, d) {
        DroppedView(t, c, name, d);
      }
      AbsUpdate(t, t', c);
    }
  }

  // ----- the two operations that change no view -----

  lemma NobodyHasNothing(t: Tables, c: int)
    requires Valid(t) && c !in t.chats
    ensures View(t, c) == NEW_CHAT
  {
    assert TagNames(t, c) == {} && Urls(t, c) == {};
    ViewEquals(t, c, NEW_CHAT);
  }

  lemma RegisterChatRefines(t: Tables, c: int)
    requires Valid(t)
    ensures Refined(t, RegisterChat(c))
  {
    var t' := SqlApply(t, RegisterChat(c)).0;
    forall d ensures View(t', d) == View(t, d) {
      assert SameRows(t, t', d);
      SameView(t, t', d);
    }
    if c !in t.chats {
      NobodyHasNothing(t, c);
      assert Abs(t') == Abs(t)[c := NEW_CHAT];
    } else {
      AbsKept(t, t');
    }
  }

  lemma UpdateLastUpdatedRefines(t: Tables, link: int, time: Time)
    requires Valid(t)
    ensures Refined(t, UpdateLastUpdated(link, time))
  {
    var t' := SqlApply(t, UpdateLastUpdated(link, time)).0;
    forall d ensures View(t', d) == View(t, d) {
      assert SameRows(t, t', d);
      SameView(t, t', d);
    }
    AbsKept(t, t');
  }

  // ----- the refinement -----

  /** The step on the tables keeps every key and reference, gives the reply of the step on the nested
      map, and ends on tables that stand for its result. */
  ghost predicate Refined(t: Tables, op: Op) {
    var after := SqlApply(t, op);
    var expected := AbsApply(Abs(t), op);
    Valid(after.0) && Abs(after.0) == expected.0 && after.1 == expected.1
  }

  lemma StepRefines(t: Tables, op: Op)
    requires Valid(t)
    ensures Refined(t, op)
  {
    match op
    case RegisterChat(c) => RegisterChatRefines(t, c);
    case DeleteChat(c) => DropChatRefines(t, c);
    case AddLink(c, url, time, names) => AddLinkRefines(t, c, url, time, names);
    case RemoveLink(c, url) => RemoveLinkRefines(t, c, url);
    case RemoveByTag(c, name) => RemoveByTagRefines(t, c, name);
    case CreateTag(c, name) => CreateTagRefines(t, c, name);
    case RenameTag(c, name, newName) => RenameTagRefines(t, c, name, newName);
    case DeleteTag(c, name) => DeleteTagRefines(t, c, name);
    case UpdateLastUpdated(link, time) => UpdateLastUpdatedRefines(t, link, time);
  }

  ghost function SqlRun(t: Tables, ops: seq<Op>): (Tables, seq<Reply>)
    decreases |ops|
  {
    if ops == [] then (t, []) else
      var step := SqlApply(t, ops[0]);
      var rest := SqlRun(step.0, ops[1..]);
      (rest.0, [step.1] + rest.1)
  }

  ghost function AbsRun(m: map<int, ChatView>, ops: seq<Op>): (map<int, ChatView>, seq<Reply>)
    decreases |ops|
  {
    if ops == [] then (m, []) else
      var step := AbsApply(m, ops[0]);
      var rest := AbsRun(step.0, ops[1..]);
      (rest.0, [step.1] + rest.1)
  }

  /** Over any sequence of operations the tables cannot be told from the nested map by any reply. */
  lemma {:induction false} RunRefines(t: Tables, ops: seq<Op>)
    requires Valid(t)
    ensures Valid(SqlRun(t, ops).0)
    ensures Abs(SqlRun(t, ops).0) == AbsRun(Abs(t), ops).0
    ensures SqlRun(t, ops).1 == AbsRun(Abs(t), ops).1
    decreases |ops|
  {
    if ops != [] {
      StepRefines(t, ops[0]);
      RunRefines(SqlApply(t, ops[0]).0, ops[1..]);
    }
  }

  function ChatOf(op: Op): Option<int> {
    match op
    case UpdateLastUpdated(_, _) => None
    case RegisterChat(c) => Some(c)
    case DeleteChat(c) => Some(c)
    case AddLink(c, _, _, _) => Some(c)
    case RemoveLink(c, _) => Some(c)
    case RemoveByTag(c, _) => Some(c)
    case CreateTag(c, _) => Some(c)
    case RenameTag(c, _, _) => Some(c)
    case DeleteTag(c, _) => Some(c)
  }

  /** An operation on the nested map leaves every chat it does not name as it was. */
  lemma AbsFrame(m: map<int, ChatView>, op: Op, c: int)
    requires c in m && ChatOf(op) != Some(c)
    ensures c in AbsApply(m, op).0 && AbsApply(m, op).0[c] == m[c]
  {}

  lemma StepFrame(t: Tables, op: Op, c: int)
    requires Valid(t) && c in t.chats && ChatOf(op) != Some(c)
    ensures Valid(SqlApply(t, op).0) && c in SqlApply(t, op).0.chats && View(SqlApply(t, op).0, c) == View(t, c)
  {
    StepRefines(t, op);
    AbsFrame(Abs(t), op, c);
    var t' := SqlApply(t, op).0;
    assert c in Abs(t') && Abs(t')[c] == View(t', c);
  }

  lemma AddedView(t: Tables, c: int, url: string, time: Time, names: seq<string>)
    requires Valid(t) && c in t.chats
    ensures var t' := SqlApply(t, AddLink(c, url, time, names)).0;
            Valid(t') && c in t'.chats && View(t', c) == WithLink(View(t, c), url, Names(names))
  {
    StepRefines(t, AddLink(c, url, time, names));
    var t' := SqlApply(t, AddLink(c, url, time, names)).0;
    assert c in Abs(t') && Abs(t')[c] == View(t', c);
  }

  /** Operations of other chats leave a chat's URLs and tags as they were, over any run. */
  lemma {:induction false} OtherChatsUntouched(t: Tables, ops: seq<Op>, c: int)
    requires Valid(t) && c in t.chats
    requires forall op | op in ops :: ChatOf(op) != Some(c)
    ensures c in SqlRun(t, ops).0.chats && View(SqlRun(t, ops).0, c) == View(t, c)
    decreases |ops|
  {
    if ops != [] {
      StepFrame(t, ops[0], c);
      OtherChatsUntouched(SqlApply(t, ops[0]).0, ops[1..], c);
    }
  }

  /** The chat's view after two operations on it, read off the nested map. */
  lemma AfterTwo(t: Tables, a: Op, b: Op, c: int)
    requires Valid(t)
    ensures var t' := SqlApply(SqlApply(t, a).0, b).0;
            var m' := AbsApply(AbsApply(Abs(t), a).0, b).0;
            Valid(t') && (c in m' <==> c in t'.chats) && (c in m' ==> m'[c] == View(t', c))
  {
    StepRefines(t, a);
    StepRefines(SqlApply(t, a).0, b);
    var t' := SqlApply(SqlApply(t, a).0, b).0;
    assert c in t'.chats ==> Abs(t')[c] == View(t', c);
  }

  /** Add unions tags: a second Add of a URL keeps the tags the first one gave. */
  lemma AddUnionsTags(t: Tables, c: int, url: string, time: Time, first: seq<string>, second: seq<string>)
    requires Valid(t) && c in t.chats
    ensures var t' := SqlApply(SqlApply(t, AddLink(c, url, time, first)).0, AddLink(c, url, time, second)).0;
            && c in t'.chats && url in Urls(t', c)
            && UrlTags(t', c, url) == (if url in Urls(t, c) then UrlTags(t, c, url) else {}) + Names(first)
                + Names(second)
  {
    AfterTwo(t, AddLink(c, url, time, first), AddLink(c, url, time, second), c);
    var t' := SqlApply(SqlApply(t, AddLink(c, url, time, first)).0, AddLink(c, url, time, second)).0;
    assert url in View(t', c).links && View(t', c).links[url] == UrlTags(t', c, url);
  }

  /** After a Remove, the next Add of the URL starts from its own tags only; the tag names stay. */
  lemma RemoveForgetsTags(t: Tables, c: int, url: string, time: Time, names: seq<string>)
    requires Valid(t) && c in t.chats
    ensures var t' := SqlApply(SqlApply(t, RemoveLink(c, url)).0, AddLink(c, url, time, names)).0;
            && c in t'.chats && url in Urls(t', c) && UrlTags(t', c, url) == Names(names)
            && TagNames(t, c) <= TagNames(t', c)
  {
    AfterTwo(t, RemoveLink(c, url), AddLink(c, url, time, names), c);
    var t' := SqlApply(SqlApply(t, RemoveLink(c, url)).0, AddLink(c, url, time, names)).0;
    assert url in View(t', c).links && View(t', c).links[url] == UrlTags(t', c, url);
    assert {} + Names(names) == Names(names);
  }

  // ----- the shared watermark -----

  lemma {:induction false} AttachTagsKeepsRows(t: Tables, c: int, link: int, names: seq<string>)
    ensures var t' := AttachTags(t, c, link, names); t'.links == t.links && t'.subscriptions == t.subscriptions
  {
    if names != [] {
      AttachTagsKeepsRows(t, c, link, names[..|names| - 1]);
    }
  }

  /** Add of a URL that is already tracked keeps its id and overwrites its watermark for every chat that
      follows it, whoever adds it; no other watermark changes. */
  lemma AddOverwritesWatermark(t: Tables, c: int, url: string, time: Time, names: seq<string>, link: int)
    requires Valid(t) && c in t.chats && link in t.links && t.links[link].url == url
    ensures var t' := SqlApply(t, AddLink(c, url, time, names)).0;
            && t'.links == t.links[link := LinkRow(url, time)]
            && t'.subscriptions == t.subscriptions + {Subscription(c, link)}
  {
    LinkIdOf(t, url);
    AttachTagsKeepsRows(Subscribe(UpsertLink(t, url, time), c, link), c, link, names);
  }
}
