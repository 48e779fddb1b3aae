/**
 What the merge of conversations preserves, and what the downgrade gives back
 (migrations/versions/20260809_0005_canonical_conversations.py).
 */
module MigrationRoundTrip {
  import opened Options
  import opened CanonicalMigration

  // ---------------------------------------------------------------- structure after the upgrade

  /** Each user with conversations keeps exactly one, the earliest. */
  lemma OneConversationPerUser(t: Tables, u: Tables, ids: Ids, c: nat)
    requires Upgraded(t, u, ids) && c in t.conversations
    ensures exists k :: k in u.conversations && CanonicalFor(t.conversations, c, k)
    ensures forall k, l |
      k in u.conversations && l in u.conversations && u.conversations[k].user == u.conversations[l].user :: k == l
  {
    assert ChannelOf(t, u, ids, c);
    forall k, l | k in u.conversations && l in u.conversations && u.conversations[k].user == u.conversations[l].user
      ensures k == l
    {
      assert SurvivorOf(t, u, k) && SurvivorOf(t, u, l);
    }
  }

  /** Channels and old conversations correspond one to one. */
  lemma ChannelsAreTheOldConversations(t: Tables, u: Tables, ids: Ids, h: nat)
    requires Upgraded(t, u, ids) && Fresh(ids) && h in u.channels
    ensures exists c ::
      c in t.conversations && ids.channel(c) == h && u.channels[h].externalId == t.conversations[c].externalId
    ensures forall c, d | c in t.conversations && d in t.conversations && ids.channel(c) == h && ids.channel(d) == h ::
      c == d
    ensures |u.channels| == |t.conversations|
  {
    var c :| c in t.conversations && ids.channel(c) == h;
    assert ChannelOf(t, u, ids, c);
    assert u.channels.Keys == Image(ids.channel, t.conversations.Keys) by {
      forall c | c in t.conversations ensures ids.channel(c) in u.channels { assert ChannelOf(t, u, ids, c); }
      forall x ensures x in u.channels.Keys <==> x in Image(ids.channel, t.conversations.Keys) {}
    }
    ImageSize(ids.channel, t.conversations.Keys);
    assert |u.channels| == |u.channels.Keys| && |t.conversations| == |t.conversations.Keys|;
  }

  function Image(f: nat -> nat, s: set<nat>): set<nat> { set x | x in s :: f(x) }

  lemma {:induction false} ImageSize(f: nat -> nat, s: set<nat>)
    requires Injective(f)
    ensures |Image(f, s)| == |s|
  {
    if s != {} {
      var x :| x in s;
      ImageSize(f, s - {x});
      assert Image(f, s) == Image(f, s - {x}) + {f(x)};
    }
  }

  /** No message and no run is lost; each message sits in the conversation of the channel it is
      bound to, and everything refers to a surviving conversation. */
  lemma NothingDangles(t: Tables, u: Tables, ids: Ids, m: nat)
    requires OldOk(t) && Upgraded(t, u, ids) && m in t.messages
    ensures m in u.messages && u.messages[m].conversation in u.conversations
    ensures u.messages[m].binding.Some? && u.messages[m].binding.value in u.channels
    ensures u.channels[u.messages[m].binding.value].conversation == u.messages[m].conversation
    ensures u.runs.Keys == t.runs.Keys && forall r | r in u.runs :: u.runs[r] in u.conversations
  {
    var c := t.messages[m].conversation;
    assert MessageOf(t, u, ids, m) && ChannelOf(t, u, ids, c);
  }

  /** Each outbound message has exactly one delivery, carrying its old ids; others have none. */
  lemma OneDeliveryPerOutbound(t: Tables, u: Tables, ids: Ids, m: nat, d: nat)
    requires Upgraded(t, u, ids) && Fresh(ids) && m in t.messages
    ensures d in u.deliveries && u.deliveries[d].message == m <==> IsOutbound(t.messages[m]) && d == ids.delivery(m)
    ensures IsOutbound(t.messages[m]) && d == ids.delivery(m) ==>
              u.deliveries[d] == DeliveryFor(t.messages[m], m, ids.channel(t.messages[m].conversation))
  {
    assert DeliveryOf(t, u, ids, m);
    if d in u.deliveries {
      var n :| n in t.messages && IsOutbound(t.messages[n]) && ids.delivery(n) == d;
      assert DeliveryOf(t, u, ids, n);
    }
  }

  ghost predicate OldUnique(t: Tables) {
    && (forall c, d | c in t.conversations && d in t.conversations
                      && t.conversations[c].provider == t.conversations[d].provider
                      && t.conversations[c].externalId == t.conversations[d].externalId :: c == d)
    && (forall m, n | m in t.messages && n in t.messages && t.messages[m].provider == t.messages[n].provider ::
         Apart(t, m, n))
  }

  predicate Apart(t: Tables, m: nat, n: nat) {
    && m in t.messages && n in t.messages
    && (m == n || ((t.messages[m].externalId.Some? ==> t.messages[m].externalId != t.messages[n].externalId)
                  && (t.messages[m].key.Some? ==> t.messages[m].key != t.messages[n].key)))
  }

  /** The unique constraints of the new tables hold because those of the old ones did. */
  lemma NewConstraintsHold(t: Tables, u: Tables, ids: Ids, g: nat, h: nat, d: nat, e: nat)
    requires OldUnique(t) && Upgraded(t, u, ids) && Fresh(ids)
    requires g in u.channels && h in u.channels && d in u.deliveries && e in u.deliveries
    ensures (u.channels[g].provider == u.channels[h].provider && u.channels[g].externalId == u.channels[h].externalId)
      ==> g == h
    ensures u.deliveries[d].provider == u.deliveries[e].provider && d != e ==>
              (u.deliveries[d].externalId.Some? ==> u.deliveries[d].externalId != u.deliveries[e].externalId)
              && (u.deliveries[d].key.Some? ==> u.deliveries[d].key != u.deliveries[e].key)
  {
    var c :| c in t.conversations && ids.channel(c) == g;
    var c' :| c' in t.conversations && ids.channel(c') == h;
    assert ChannelOf(t, u, ids, c) && ChannelOf(t, u, ids, c');
    var m :| m in t.messages && IsOutbound(t.messages[m]) && ids.delivery(m) == d;
    var n :| n in t.messages && IsOutbound(t.messages[n]) && ids.delivery(n) == e;
    assert DeliveryOf(t, u, ids, m) && DeliveryOf(t, u, ids, n);
    if t.messages[m].provider == t.messages[n].provider { assert Apart(t, m, n); }
  }

  // ---------------------------------------------------------------- every column after the upgrade

  /** Exactly the earliest conversation of each user is left: active, updated when any of the
      user's was last, otherwise as it was but for the provider columns, which are gone. */
  lemma ConversationColumns(t: Tables, u: Tables, ids: Ids, k: nat)
    requires Upgraded(t, u, ids)
    ensures k in u.conversations <==> k in t.conversations && forall d |
      d in t.conversations && t.conversations[d].user == t.conversations[k].user ::
        t.conversations[k].createdAt < t.conversations[d].createdAt
        || (t.conversations[k].createdAt == t.conversations[d].createdAt && k <= d)
    ensures k in u.conversations ==>
      && u.conversations[k] == Conversation(t.conversations[k].user, "", "", None, "active",
                                            t.conversations[k].createdAt, u.conversations[k].updatedAt)
      && (forall d | d in t.conversations && t.conversations[d].user == t.conversations[k].user ::
            t.conversations[d].updatedAt <= u.conversations[k].updatedAt)
      && (exists d :: d in t.conversations && t.conversations[d].user == t.conversations[k].user
            && t.conversations[d].updatedAt == u.conversations[k].updatedAt)
  {
    if k in t.conversations {
      forall d | d in t.conversations && t.conversations[d].user == t.conversations[k].user
        ensures IsCanonical(t.conversations, k) ==>
          t.conversations[k].createdAt < t.conversations[d].createdAt
          || (t.conversations[k].createdAt == t.conversations[d].createdAt && k <= d)
      {
        assert IsCanonical(t.conversations, k) ==> NotAfter(t.conversations, k, d);
      }
    }
    if k in u.conversations {
      assert SurvivorOf(t, u, k);
      forall d | d in t.conversations && t.conversations[d].user == t.conversations[k].user
        ensures t.conversations[d].updatedAt <= u.conversations[k].updatedAt
      {
        assert SameUser(t.conversations, k, d);
      }
      var d :| SameUser(t.conversations, k, d) && t.conversations[d].updatedAt == u.conversations[k].updatedAt;
      assert d in t.conversations && t.conversations[d].user == t.conversations[k].user;
    }
  }

  /** The channel of an old conversation has all that conversation's columns and hangs off the
      earliest conversation of the same user. */
  lemma ChannelColumns(t: Tables, u: Tables, ids: Ids, c: nat)
    requires Upgraded(t, u, ids) && c in t.conversations
    ensures ids.channel(c) in u.channels
    ensures var h, row := u.channels[ids.channel(c)], t.conversations[c];
      && h.provider == row.provider && h.externalId == row.externalId && h.service == row.service
      && h.status == row.status && h.createdAt == row.createdAt && h.updatedAt == row.updatedAt
      && h.conversation in u.conversations && u.conversations[h.conversation].user == row.user
  {
    assert ChannelOf(t, u, ids, c);
    assert SurvivorOf(t, u, u.channels[ids.channel(c)].conversation);
  }

  /** Every message is still there, bound to its old conversation's channel, in that channel's
      conversation; an outbound one is completed and gives its provider id away, another received. */
  lemma MessageColumns(t: Tables, u: Tables, ids: Ids, m: nat)
    requires OldOk(t) && Upgraded(t, u, ids)
    ensures m in u.messages <==> m in t.messages
    ensures m in t.messages ==>
      var before, after := t.messages[m], u.messages[m];
      && after.binding == Some(ids.channel(before.conversation)) && ids.channel(before.conversation) in u.channels
      && after.conversation == u.channels[ids.channel(before.conversation)].conversation
      && after.provider == before.provider && after.key == before.key && after.direction == before.direction
      && after.payload == before.payload && after.createdAt == before.createdAt && after.updatedAt == before.updatedAt
      && after.times == Times(None, None, None)
      && after.status == (if before.direction == "outbound" then "completed" else "received")
      && after.externalId == (if before.direction == "outbound" then None else before.externalId)
  {
    if m in t.messages {
      NothingDangles(t, u, ids, m);
      assert MessageOf(t, u, ids, m);
    }
  }

  /** What an outbound message knew of its sending is in its delivery, a status that deliveries do
      not have counting as pending; no other message has one. */
  lemma DeliveryColumns(t: Tables, u: Tables, ids: Ids, m: nat, d: nat)
    requires Upgraded(t, u, ids) && Fresh(ids) && m in t.messages
    ensures d in u.deliveries && u.deliveries[d].message == m <==>
      t.messages[m].direction == "outbound" && d == ids.delivery(m)
    ensures t.messages[m].direction == "outbound" && d == ids.delivery(m) ==>
      var before, after := t.messages[m], u.deliveries[d];
      && after.channel == ids.channel(before.conversation) && after.provider == before.provider
      && after.externalId == before.externalId && after.key == before.key && after.payload == before.payload
      && after.times == before.times && after.createdAt == before.createdAt && after.updatedAt == before.updatedAt
      && (before.status in {"pending", "sent", "delivered", "read", "failed"} ==> after.status == before.status)
      && (before.status !in {"pending", "sent", "delivered", "read", "failed"} ==> after.status == "pending")
  {
    OneDeliveryPerOutbound(t, u, ids, m, d);
  }

  // ---------------------------------------------------------------- the downgrade

  function Rank(h: Channel): nat { if h.provider == "linq" then 0 else 1 }

  /** Linq channels first, then the oldest, then the smallest id. */
  predicate Preferable(hs: map<nat, Channel>, g: nat, h: nat) {
    && g in hs && h in hs
    && (|| Rank(hs[g]) < Rank(hs[h])
       || (Rank(hs[g]) == Rank(hs[h]) &&
         (hs[g].createdAt < hs[h].createdAt || (hs[g].createdAt == hs[h].createdAt && g <= h))))
  }

  predicate IsPreferred(hs: map<nat, Channel>, k: nat, h: nat) {
    h in hs && hs[h].conversation == k && forall g | g in hs && hs[g].conversation == k :: Preferable(hs, h, g)
  }

  function WithChannel(c: Conversation, h: Channel): Conversation {
    c.(provider := h.provider, externalId := h.externalId, service := h.service)
  }

  function Restored(m: Message, d: Option<Delivery>): Message {
    var plain := m.(binding := None, status := if m.direction == "inbound" then "received" else "sent");
    if d.None? then plain
    else plain.(externalId := d.value.externalId, status := d.value.status, times := d.value.times)
  }

  ghost predicate ConversationRestored(u: Tables, w: Tables, k: nat) {
    && k in u.conversations && k in w.conversations
    && exists h :: IsPreferred(u.channels, k, h) && w.conversations[k] == WithChannel(u.conversations[k], u.channels[h])
  }

  ghost predicate MessageRestored(u: Tables, w: Tables, m: nat) {
    && m in u.messages && m in w.messages
    && exists d: Option<Delivery> :: IsDelivery(u, m, d) && w.messages[m] == Restored(u.messages[m], d)
  }

  ghost predicate IsDelivery(u: Tables, m: nat, d: Option<Delivery>) {
    if d.Some? then d.value.message == m && exists id :: id in u.deliveries && u.deliveries[id] == d.value
    else forall id | id in u.deliveries :: u.deliveries[id].message != m
  }

  ghost predicate Downgraded(u: Tables, w: Tables) {
    && w.channels == map[] && w.deliveries == map[] && w.runs == u.runs
    && w.conversations.Keys == u.conversations.Keys && w.messages.Keys == u.messages.Keys
    && (forall k {:trigger ConversationRestored(u, w, k)} | k in u.conversations :: ConversationRestored(u, w, k))
    && (forall m {:trigger MessageRestored(u, w, m)} | m in u.messages :: MessageRestored(u, w, m))
  }

  method Preferred(hs: map<nat, Channel>, rows: set<nat>) returns (h: nat)
    requires rows != {} && rows <= hs.Keys
    ensures h in rows && forall g | g in rows :: Preferable(hs, h, g)
  {
    h :| h in rows;
    var left := rows - {h};
    while left != {}
      invariant left <= rows && h in rows && forall g | g in rows - left :: Preferable(hs, h, g)
      decreases left
    {
      var g :| g in left;
      left := left - {g};
      if !Preferable(hs, h, g) {
        forall x | x in rows - left && Preferable(hs, h, x) ensures Preferable(hs, g, x) {}
        h := g;
      }
    }
  }

  /** Every conversation so far with its preferred channel's ids. */
  ghost predicate RestoredFor(u: Tables, cs: map<nat, Conversation>) {
    cs.Keys <= u.conversations.Keys && forall k {:trigger RestoredRow(u, cs, k)} | k in cs :: RestoredRow(u, cs, k)
  }

  ghost predicate RestoredRow(u: Tables, cs: map<nat, Conversation>, k: nat) {
    k in cs && k in u.conversations &&
      exists h :: IsPreferred(u.channels, k, h) && cs[k] == WithChannel(u.conversations[k], u.channels[h])
  }

  /** Gives each conversation its preferred channel's ids; none when one has no channel. */
  method RestoreConversations(cs: map<nat, Conversation>, hs: map<nat, Channel>, ghost u: Tables)
    returns (restored: Option<map<nat, Conversation>>)
    requires cs == u.conversations && hs == u.channels
    ensures restored.None? ==> exists k :: k in cs && forall h | h in hs :: hs[h].conversation != k
    ensures restored.Some? ==> restored.value.Keys == cs.Keys && RestoredFor(u, restored.value)
  {
    var done: map<nat, Conversation>, left := map[], cs.Keys;
    while left != {}
      invariant done.Keys == cs.Keys - left && left <= cs.Keys && RestoredFor(u, done)
      decreases left
    {
      var k :| k in left;
      left := left - {k};
      var mine := set h | h in hs && hs[h].conversation == k;
      if mine == {} {
        assert forall h | h in hs :: hs[h].conversation != k by {
          forall h | h in hs ensures hs[h].conversation != k { assert h !in mine; }
        }
        return None;
      }
      var h := Preferred(hs, mine);
      ghost var before := done;
      done := done[k := WithChannel(cs[k], hs[h])];
      forall j | j in done ensures RestoredRow(u, done, j) {
        if j == k { assert IsPreferred(u.channels, k, h); } else { assert RestoredRow(u, before, j); }
      }
    }
    return Some(done);
  }

  /** The last delivery seen of each message. */
  method DeliveriesByMessage(ds: map<nat, Delivery>, ghost u: Tables) returns (found: map<nat, Delivery>)
    requires ds == u.deliveries
    ensures forall m :: IsDelivery(u, m, if m in found then Some(found[m]) else None)
  {
    found := map[];
    var left := ds.Keys;
    while left != {}
      invariant left <= ds.Keys
      invariant forall m | m in found :: found[m].message == m && exists id :: id in ds && ds[id] == found[m]
      invariant forall id | id in ds && id !in left :: ds[id].message in found
      decreases left
    {
      var id :| id in left;
      left := left - {id};
      found := found[ds[id].message := ds[id]];
    }
  }

  /** The downgrade fails as a whole when a conversation is left without provider ids. */
  method Downgrade(db: Database) returns (ok: bool)
    modifies db
    ensures ok ==> Downgraded(old(db.All()), db.All())
    ensures !ok ==> db.All() == old(db.All())
    ensures !ok ==> exists k :: k in db.conversations && forall h | h in db.channels :: db.channels[h].conversation != k
  {
    ghost var u := db.All();
    var restored := RestoreConversations(db.conversations, db.channels, u);
    if restored.None? { return false; }
    var found := DeliveriesByMessage(db.deliveries, u);
    db.conversations := restored.value;
    db.messages := map m | m in db.messages :: Restored(db.messages[m], if m in found then Some(found[m]) else None);
    db.channels, db.deliveries := map[], map[];
    ghost var w := db.All();
    forall k | k in u.conversations ensures ConversationRestored(u, w, k) { assert RestoredRow(u, restored.value, k); }
    forall m | m in u.messages ensures MessageRestored(u, w, m) {
      assert IsDelivery(u, m, if m in found then Some(found[m]) else None);
    }
    return true;
  }

  /** The new tables are empty, the old ones have the same rows, and every run is where it was; a
      message gets the ids, status and times of its delivery, or a status by its direction. */
  lemma DowngradedColumns(u: Tables, w: Tables, m: nat)
    requires Downgraded(u, w)
    ensures w.channels == map[] && w.deliveries == map[] && w.runs == u.runs
    ensures w.conversations.Keys == u.conversations.Keys && w.messages.Keys == u.messages.Keys
    ensures m in u.messages ==>
      var before, after := u.messages[m], w.messages[m];
      && after.binding.None? && after.conversation == before.conversation && after.provider == before.provider
      && after.key == before.key && after.direction == before.direction && after.payload == before.payload
      && after.createdAt == before.createdAt && after.updatedAt == before.updatedAt
      && (if exists id :: id in u.deliveries && u.deliveries[id].message == m
         then exists id :: id in u.deliveries && u.deliveries[id].message == m
                && after.externalId == u.deliveries[id].externalId && after.status == u.deliveries[id].status
                && after.times == u.deliveries[id].times
         else after.externalId == before.externalId && after.times == before.times
                && after.status == (if before.direction == "inbound" then "received" else "sent"))
  {
    if m in u.messages {
      assert MessageRestored(u, w, m);
      var d: Option<Delivery> :| IsDelivery(u, m, d) && w.messages[m] == Restored(u.messages[m], d);
      if d.Some? {
        var id :| id in u.deliveries && u.deliveries[id] == d.value;
        assert u.deliveries[id].message == m;
      }
    }
  }

  /** A conversation gets provider, external id and service of one of its channels: a Linq one if
      it has any, of those the oldest, of those the one with the smallest id. */
  lemma DowngradedConversation(u: Tables, w: Tables, k: nat) returns (h: nat)
    requires Downgraded(u, w) && k in u.conversations
    ensures h in u.channels && u.channels[h].conversation == k
    ensures w.conversations[k] == u.conversations[k].(provider := u.channels[h].provider,
      externalId := u.channels[h].externalId, service := u.channels[h].service)
    ensures forall g | g in u.channels && u.channels[g].conversation == k && g != h ::
      var a, b := u.channels[h], u.channels[g];
      && (b.provider == "linq" ==> a.provider == "linq")
      && ((a.provider == "linq" <==> b.provider == "linq") ==>
            a.createdAt < b.createdAt || (a.createdAt == b.createdAt && h < g))
  {
    assert ConversationRestored(u, w, k);
    h :| IsPreferred(u.channels, k, h) && w.conversations[k] == WithChannel(u.conversations[k], u.channels[h]);
    forall g | g in u.channels && u.channels[g].conversation == k ensures Preferable(u.channels, h, g) {}
  }

  // ---------------------------------------------------------------- the round trip

  /** What becomes of a message: outbound ones get their external id, their times and every
      status a delivery can have back; inbound ones count as received. */
  function RoundTripped(m: Message, conversation: nat): Message {
    m.(conversation := conversation,
       status := if IsOutbound(m) then Allowed(m.status) else if m.direction == "inbound" then "received" else "sent",
       times := if IsOutbound(m) then m.times else NoTimes)
  }

  /** Upgrading and downgrading restores every message up to its conversation, whichever
      conversations its user had. */
  lemma MessagesRoundTrip(t: Tables, u: Tables, w: Tables, ids: Ids, m: nat)
    requires OldOk(t) && Fresh(ids) && Upgraded(t, u, ids) && Downgraded(u, w) && m in t.messages
    ensures m in w.messages && CanonicalFor(t.conversations, t.messages[m].conversation, w.messages[m].conversation)
    ensures w.messages[m] == RoundTripped(t.messages[m], w.messages[m].conversation)
  {
    assert MessageOf(t, u, ids, m) && MessageRestored(u, w, m);
    var d: Option<Delivery> :| IsDelivery(u, m, d) && w.messages[m] == Restored(u.messages[m], d);
    if d.Some? {
      var id :| id in u.deliveries && u.deliveries[id] == d.value;
      OneDeliveryPerOutbound(t, u, ids, m, id);
    } else {
      OneDeliveryPerOutbound(t, u, ids, m, ids.delivery(m));
    }
  }

  /** The survivor's own channel is its user's preferred one. */
  ghost predicate OwnChannelPreferred(t: Tables, ids: Ids, k: nat) {
    k in t.conversations && forall c | SameUser(t.conversations, k, c) :: OwnPreferable(t, ids, k, c)
  }

  predicate OwnPreferable(t: Tables, ids: Ids, k: nat, c: nat) {
    && k in t.conversations && c in t.conversations
    && (var a, b := t.conversations[k], t.conversations[c];
       var ra, rb := if a.provider == "linq" then 0 else 1, if b.provider == "linq" then 0 else 1;
       ra < rb || (ra == rb && (a.createdAt < b.createdAt || (a.createdAt == b.createdAt &&
         ids.channel(k) <= ids.channel(c)))))
  }

  lemma PreferredIsOfTheUser(t: Tables, u: Tables, ids: Ids, k: nat, h: nat) returns (c: nat)
    requires Upgraded(t, u, ids) && Fresh(ids) && IsPreferred(u.channels, k, h) && IsCanonical(t.conversations, k)
    ensures SameUser(t.conversations, k, c) && ids.channel(c) == h
    ensures u.channels[h].provider == t.conversations[c].provider &&
      u.channels[h].externalId == t.conversations[c].externalId
    ensures u.channels[h].service == t.conversations[c].service
    ensures c == k <==> OwnChannelPreferred(t, ids, k)
  {
    c :| c in t.conversations && ids.channel(c) == h;
    assert ChannelOf(t, u, ids, c) && ChannelOf(t, u, ids, k);
    assert Preferable(u.channels, h, ids.channel(k));
    if c == k {
      forall d | SameUser(t.conversations, k, d) ensures OwnPreferable(t, ids, k, d) {
        assert ChannelOf(t, u, ids, d);
        assert Preferable(u.channels, h, ids.channel(d));
      }
    } else {
      assert !OwnPreferable(t, ids, k, c);
    }
  }

  /** A surviving conversation gets its own provider ids back exactly when its channel is the
      preferred one of its user's old conversations. */
  lemma ProviderIdsRestoredExactly(t: Tables, u: Tables, w: Tables, ids: Ids, k: nat)
    requires OldOk(t) && OldUnique(t) && Fresh(ids) && Upgraded(t, u, ids) && Downgraded(u, w) && k in w.conversations
    ensures k in t.conversations
    ensures OwnChannelPreferred(t, ids, k) <==>
              (w.conversations[k].provider == t.conversations[k].provider &&
                w.conversations[k].externalId == t.conversations[k].externalId)
  {
    assert ConversationRestored(u, w, k) && SurvivorOf(t, u, k);
    var h :| IsPreferred(u.channels, k, h) && w.conversations[k] == WithChannel(u.conversations[k], u.channels[h]);
    var c := PreferredIsOfTheUser(t, u, ids, k, h);
  }

  /** Its user's earliest conversation, the one whose channel is preferred, and the last updated. */
  ghost predicate ReturnsWhole(t: Tables, ids: Ids, k: nat) {
    && IsCanonical(t.conversations, k) && OwnChannelPreferred(t, ids, k)
    && IsLatest(t.conversations, k, t.conversations[k].updatedAt)
  }

  /** Whatever conversations its user has: a conversation comes back with all its fields, only
      active, exactly when all three hold of it. */
  lemma ConversationReturnsExactly(t: Tables, u: Tables, w: Tables, ids: Ids, k: nat)
    requires OldOk(t) && OldUnique(t) && Fresh(ids) && Upgraded(t, u, ids) && Downgraded(u, w) && k in t.conversations
    ensures k in w.conversations <==> IsCanonical(t.conversations, k)
    ensures k in w.conversations && w.conversations[k] == t.conversations[k].(status := "active")
      <==> ReturnsWhole(t, ids, k)
  {
    if k in w.conversations {
      assert SurvivorOf(t, u, k) && ConversationRestored(u, w, k);
      var h :| IsPreferred(u.channels, k, h) && w.conversations[k] == WithChannel(u.conversations[k], u.channels[h]);
      var c := PreferredIsOfTheUser(t, u, ids, k, h);
      var updated := u.conversations[k].updatedAt;
      assert IsLatest(t.conversations, k, updated);
      if IsLatest(t.conversations, k, t.conversations[k].updatedAt) {
        OneLatest(t.conversations, k, updated, t.conversations[k].updatedAt);
      }
    }
  }

  lemma OneLatest(cs: map<nat, Conversation>, k: nat, a: int, b: int)
    requires IsLatest(cs, k, a) && IsLatest(cs, k, b)
    ensures a == b
  {
    var c :| SameUser(cs, k, c) && cs[c].updatedAt == a;
    var d :| SameUser(cs, k, d) && cs[d].updatedAt == b;
  }

  /** And a message returns to its own conversation exactly when that is its user's earliest. */
  lemma MessageReturnsExactly(t: Tables, u: Tables, w: Tables, ids: Ids, m: nat)
    requires OldOk(t) && Fresh(ids) && Upgraded(t, u, ids) && Downgraded(u, w) && m in t.messages
    ensures m in w.messages
    ensures w.messages[m] == RoundTripped(t.messages[m], t.messages[m].conversation)
      <==> IsCanonical(t.conversations, t.messages[m].conversation)
  {
    MessagesRoundTrip(t, u, w, ids, m);
    var own, now := t.messages[m].conversation, w.messages[m].conversation;
    if IsCanonical(t.conversations, own) {
      assert NotAfter(t.conversations, own, now) && NotAfter(t.conversations, now, own);
    }
  }

  ghost predicate OneEach(t: Tables) {
    forall c, d | SameUser(t.conversations, c, d) :: c == d
  }

  lemma OneEachIsCanonical(t: Tables, k: nat)
    requires OneEach(t) && k in t.conversations
    ensures IsCanonical(t.conversations, k)
  {
    forall d | d in t.conversations && t.conversations[d].user == t.conversations[k].user
      ensures NotAfter(t.conversations, k, d)
    {
      assert SameUser(t.conversations, k, d);
    }
  }

  /** With one conversation per user the downgrade undoes the upgrade: conversations come back
      with all their ids, only active. */
  lemma ConversationsRoundTrip(t: Tables, u: Tables, w: Tables, ids: Ids, k: nat)
    requires OldOk(t) && Fresh(ids) && Upgraded(t, u, ids) && Downgraded(u, w) && OneEach(t) && k in t.conversations
    ensures k in w.conversations && w.conversations[k] == t.conversations[k].(status := "active")
  {
    OneEachIsCanonical(t, k);
    assert SurvivorOf(t, u, k) && ConversationRestored(u, w, k);
    var h :| IsPreferred(u.channels, k, h) && w.conversations[k] == WithChannel(u.conversations[k], u.channels[h]);
    var c := PreferredIsOfTheUser(t, u, ids, k, h);
    assert c == k;
    var d :| SameUser(t.conversations, k, d) && t.conversations[d].updatedAt == u.conversations[k].updatedAt;
  }

  /** And every message comes back in its own conversation. */
  lemma MessagesReturn(t: Tables, u: Tables, w: Tables, ids: Ids, m: nat)
    requires OldOk(t) && Fresh(ids) && Upgraded(t, u, ids) && Downgraded(u, w) && OneEach(t) && m in t.messages
    ensures m in w.messages && w.messages[m] == RoundTripped(t.messages[m], t.messages[m].conversation)
  {
    MessageReturnsExactly(t, u, w, ids, m);
    OneEachIsCanonical(t, t.messages[m].conversation);
  }
}
